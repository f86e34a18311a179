/**
 * The Task document: its schema (required, maxlength, trim, enum, defaults),
 * the checks Mongoose applies on `save()`, and the pre-save hook that
 * refreshes `updatedAt`.
 */
module TaskModel {
  import opened Wrappers
  import opened Text
  import opened Payload
  import opened Constants

  /** A document identifier: the 24 lower-case hex digits of an ObjectId. */
  type Id = string

  /** Timestamps are milliseconds since the epoch, as `Date.now()` returns them. */
  type Instant = int

  datatype Task = Task(
    id: Id,
    title: string,
    description: string,
    status: Status,
    priority: Priority,
    dueDate: Option<Instant>,
    createdAt: Instant,
    updatedAt: Instant)

  /** What every stored task satisfies. */
  predicate WellFormed(t: Task) {
    && t.title != [] && Trimmed(t.title) && CodeUnits(t.title) <= TitleMaxLength
    && Trimmed(t.description)
    && t.createdAt <= t.updatedAt
  }

  /** The user-editable fields of two tasks agree. */
  predicate SameContent(a: Task, b: Task) {
    && a.title == b.title && a.description == b.description
    && a.status == b.status && a.priority == b.priority && a.dueDate == b.dueDate
  }

  /**
   * Field values as assigned to a document before `save()`. The schema's
   * `trim` setters have not been applied yet; status, priority and dueDate
   * are still the raw request values.
   */
  datatype Draft = Draft(title: string, description: string, status: JsValue, priority: JsValue, dueDate: DateField)

  /** A schema check that failed on save. */
  datatype Fault = MissingTitle | LongTitle | BadStatus | BadPriority | BadDueDate

  const DueDateCastMessage: string := "Cast to date failed for path \"dueDate\""

  /** The message Mongoose records for a failed check. */
  function FaultMessage(f: Fault): string {
    match f
    case MissingTitle => TitleRequiredMessage
    case LongTitle => TitleTooLongMessage
    case BadStatus => StatusEnumMessage
    case BadPriority => PriorityEnumMessage
    case BadDueDate => DueDateCastMessage
  }

  /** The enum validator of `status`. */
  function CastStatus(v: JsValue): (r: Option<Status>)
    ensures r.Some? <==> v.Str? && v.s in ValidStatuses
    ensures r.Some? ==> StatusName(r.value) == v.s
  {
    if v.Str? then ParseStatus(v.s) else None
  }

  /** The enum validator of `priority`. */
  function CastPriority(v: JsValue): (r: Option<Priority>)
    ensures r.Some? <==> v.Str? && v.s in ValidPriorities
    ensures r.Some? ==> PriorityName(r.value) == v.s
  {
    if v.Str? then ParsePriority(v.s) else None
  }

  /** The instant Mongoose gives the number 0. */
  const Epoch: Instant := 0

  /**
   * Mongoose's Date cast: `null`, `undefined` and `""` become `null`; a
   * boolean or an unparsable value is a cast error; a number or a date string
   * becomes its instant.
   */
  function CastDueDate(d: DateField): (r: Option<Option<Instant>>)
    ensures r.None? <==> d.BadDate? || d.FalseDate?
    ensures r.Some? && r.value.Some? <==> d.DateAt? || d.ZeroDate?
    ensures d.DateAt? ==> r == Some(Some(d.t))
    ensures d.ZeroDate? ==> r == Some(Some(Epoch))
  {
    match d
    case DateAt(t) => Some(Some(t))
    case ZeroDate => Some(Some(Epoch))
    case BadDate => None
    case FalseDate => None
    case _ => Some(None)
  }

  /** The checks of `title` after its trim setter: `required`, then `maxlength`. */
  function TitleFault(title: string): (r: Option<Fault>)
    ensures r == Some(MissingTitle) <==> IsBlank(title)
    ensures r == Some(LongTitle) <==> !IsBlank(title) && CodeUnits(Trim(title)) > TitleMaxLength
    ensures r.Some? ==> r.value == MissingTitle || r.value == LongTitle
  {
    BlankIffTrimEmpty(title);
    var trimmed := Trim(title);
    if trimmed == [] then Some(MissingTitle)
    else if CodeUnits(trimmed) > TitleMaxLength then Some(LongTitle)
    else None
  }

  /** The title fault, if any, followed by the status, priority and due-date faults. */
  function CollectFaults(title: Option<Fault>, badStatus: bool, badPriority: bool, badDueDate: bool): (fs: seq<Fault>)
    requires title.Some? ==> title.value == MissingTitle || title.value == LongTitle
    ensures MissingTitle in fs <==> title == Some(MissingTitle)
    ensures LongTitle in fs <==> title == Some(LongTitle)
    ensures BadStatus in fs <==> badStatus
    ensures BadPriority in fs <==> badPriority
    ensures BadDueDate in fs <==> badDueDate
  {
    (if title.Some? then [title.value] else [])
      + (if badStatus then [BadStatus] else [])
      + (if badPriority then [BadPriority] else [])
      + (if badDueDate then [BadDueDate] else [])
  }

  /** Every schema check that fails for a draft, in schema path order. */
  function Faults(d: Draft): (fs: seq<Fault>)
    ensures MissingTitle in fs <==> IsBlank(d.title)
    ensures LongTitle in fs <==> !IsBlank(d.title) && CodeUnits(Trim(d.title)) > TitleMaxLength
    ensures BadStatus in fs <==> CastStatus(d.status).None?
    ensures BadPriority in fs <==> CastPriority(d.priority).None?
    ensures BadDueDate in fs <==> CastDueDate(d.dueDate).None?
  {
    CollectFaults(TitleFault(d.title), CastStatus(d.status).None?, CastPriority(d.priority).None?, CastDueDate(d.dueDate).None?)
  }

  /** A draft saves exactly when its title is present and short enough and status, priority and due date cast. */
  lemma NoFaultsIff(d: Draft)
    ensures Faults(d) == [] <==>
      && !IsBlank(d.title) && CodeUnits(Trim(d.title)) <= TitleMaxLength
      && CastStatus(d.status).Some? && CastPriority(d.priority).Some? && CastDueDate(d.dueDate).Some?
  {
    var fs := Faults(d);
    if fs != [] {
      assert fs[0] in fs;
    }
  }

  /** The document a draft becomes once every check passes, with the trim setters applied. */
  function Materialize(d: Draft, id: Id, createdAt: Instant, updatedAt: Instant): (r: Result<Task, seq<Fault>>)
    ensures r.Failure? <==> Faults(d) != []
    ensures r.Failure? ==> r.error == Faults(d)
    ensures r.Success? ==> && r.value.id == id
                           && r.value.title == Trim(d.title) && r.value.description == Trim(d.description)
                           && d.status == Str(StatusName(r.value.status))
                           && d.priority == Str(PriorityName(r.value.priority))
                           && Some(r.value.dueDate) == CastDueDate(d.dueDate)
                           && r.value.createdAt == createdAt && r.value.updatedAt == updatedAt
  {
    if Faults(d) != [] then Failure(Faults(d))
    else
      Success(Task(id, Trim(d.title), Trim(d.description),
                   CastStatus(d.status).value, CastPriority(d.priority).value,
                   CastDueDate(d.dueDate).value, createdAt, updatedAt))
  }

  /**
   * The pre-save hook: `updatedAt` is refreshed only for a document that is
   * modified and not new.
   */
  function PreSave(isNew: bool, modified: bool, updatedAt: Instant, now: Instant): (r: Instant)
    ensures modified && !isNew ==> r == now
    ensures !(modified && !isNew) ==> r == updatedAt
  {
    if modified && !isNew then now else updatedAt
  }

  /**
   * `save()` of a new document: both timestamps take their default, the
   * creation time, and the hook leaves them alone.
   */
  function SaveNew(d: Draft, id: Id, now: Instant): (r: Result<Task, seq<Fault>>)
    ensures r.Failure? <==> Faults(d) != []
    ensures r.Success? ==> WellFormed(r.value) && r.value.id == id
    ensures r.Success? ==> r.value.createdAt == now && r.value.updatedAt == now
    ensures r.Success? ==> && r.value.title == Trim(d.title) && r.value.description == Trim(d.description)
                           && d.status == Str(StatusName(r.value.status))
                           && d.priority == Str(PriorityName(r.value.priority))
                           && Some(r.value.dueDate) == CastDueDate(d.dueDate)
  {
    match Materialize(d, id, now, now)
    case Failure(fs) => Failure(fs)
    case Success(t) =>
      TrimmedTrim(d.title);
      TrimmedTrim(d.description);
      Success(t.(updatedAt := PreSave(true, true, t.updatedAt, now)))
  }

  /**
   * `save()` of a stored document after assignments: the id and `createdAt`
   * are kept; `updatedAt` moves to `now` exactly when some field changed.
   */
  function SaveExisting(prev: Task, d: Draft, now: Instant): (r: Result<Task, seq<Fault>>)
    requires WellFormed(prev) && prev.updatedAt <= now
    ensures r.Failure? <==> Faults(d) != []
    ensures r.Success? ==> WellFormed(r.value)
    ensures r.Success? ==> r.value.id == prev.id && r.value.createdAt == prev.createdAt
    ensures r.Success? && SameContent(r.value, prev) ==> r.value == prev
    ensures r.Success? && !SameContent(r.value, prev) ==> r.value.updatedAt == now
    ensures r.Success? ==> && r.value.title == Trim(d.title) && r.value.description == Trim(d.description)
                           && d.status == Str(StatusName(r.value.status))
                           && d.priority == Str(PriorityName(r.value.priority))
                           && Some(r.value.dueDate) == CastDueDate(d.dueDate)
  {
    match Materialize(d, prev.id, prev.createdAt, prev.updatedAt)
    case Failure(fs) => Failure(fs)
    case Success(t) =>
      TrimmedTrim(d.title);
      TrimmedTrim(d.description);
      var modified := !SameContent(t, prev);
      Success(t.(updatedAt := PreSave(false, modified, t.updatedAt, now)))
  }

  /** Saving a draft that restates a stored task's own values changes nothing, timestamps included. */
  lemma ResaveUnchanged(prev: Task, now: Instant)
    requires WellFormed(prev) && prev.updatedAt <= now
    ensures SaveExisting(prev, DraftOf(prev), now) == Success(prev)
  {
    var d := DraftOf(prev);
    TrimmedIff(prev.title);
    TrimmedIff(prev.description);
    assert !IsBlank(prev.title);
    assert Faults(d) == [];
    var t := Materialize(d, prev.id, prev.createdAt, prev.updatedAt).value;
    assert SameContent(t, prev);
  }

  /** The draft that assigns a stored task's own values back to it. */
  function DraftOf(t: Task): (d: Draft)
    ensures d.title == t.title && d.description == t.description
    ensures CastStatus(d.status) == Some(t.status) && CastPriority(d.priority) == Some(t.priority)
    ensures CastDueDate(d.dueDate) == Some(t.dueDate)
  {
    StatusNamesRoundTrip(t.status);
    PriorityNamesRoundTrip(t.priority);
    Draft(t.title, t.description, Str(StatusName(t.status)), Str(PriorityName(t.priority)),
          match t.dueDate case Some(at) => DateAt(at) case None => NullDate)
  }
}
