/**
 * The task controller: create, list, get, update and delete against the
 * store. A handler either answers or throws; a thrown error is passed on to
 * the error middleware.
 */
module Controller {
  import opened Wrappers
  import opened Text
  import opened Payload
  import opened Constants
  import opened TaskModel
  import opened Listing
  import opened Store
  import opened Http
  import opened Errors
  import Validators

  datatype Outcome = Respond(response: Response) | Raise(error: AppError)

  /** What a handler produced, and the store after it. */
  datatype Step = Step(outcome: Outcome, store: Store)

  const TaskNotFound: Response := Fail(404, "Task not found")
  const DeletedMessage: string := "Task deleted successfully"

  predicate IsHexDigit(c: char) {
    ('0' <= c <= '9') || ('a' <= c <= 'f') || ('A' <= c <= 'F')
  }

  /** A well-formed stored id: 24 lower-case hex digits. */
  predicate IsObjectId(s: string) {
    |s| == 24 && forall i :: 0 <= i < |s| ==> ('0' <= s[i] <= '9') || ('a' <= s[i] <= 'f')
  }

  /** A stored id is already in its cast form: it parses to itself. */
  lemma StoredIdParsesToItself(s: string)
    requires IsObjectId(s)
    ensures ParseId(s) == Some(s)
  {
    forall i | 0 <= i < |s| ensures IsHexDigit(s[i]) && Lower(s)[i] == s[i] {
    }
    assert Lower(s) == s;
  }

  /** The ObjectId cast of a path parameter: 24 hex digits in either case, folded to lower case. */
  function ParseId(s: string): (r: Option<Id>)
    ensures r.Some? <==> |s| == 24 && forall i :: 0 <= i < |s| ==> IsHexDigit(s[i])
    ensures r.Some? ==> IsObjectId(r.value) && Lower(s) == r.value
  {
    if |s| == 24 && forall i :: 0 <= i < |s| ==> IsHexDigit(s[i]) then Some(Lower(s)) else None
  }

  /** Every stored timestamp is at or before `now`: the clock does not run backwards. */
  ghost predicate ClockAfter(st: Store, now: Instant) {
    forall id :: id in st.records ==> st.records[id].updatedAt <= now
  }

  /** The draft `createTask` builds: trimmed title, description or "", and the defaults for falsy fields. */
  function CreateDraft(title: string, description: string, b: TaskInput): (d: Draft)
    ensures d.title == Trim(title) && d.description == description
    ensures d.status == (if Truthy(b.status) then b.status else Str(StatusName(DefaultStatus)))
    ensures d.priority == (if Truthy(b.priority) then b.priority else Str(PriorityName(DefaultPriority)))
    ensures d.dueDate == (if DateTruthy(b.dueDate) then b.dueDate else NullDate)
  {
    Draft(Trim(title),
          description,
          if Truthy(b.status) then b.status else Str(StatusName(DefaultStatus)),
          if Truthy(b.priority) then b.priority else Str(PriorityName(DefaultPriority)),
          if DateTruthy(b.dueDate) then b.dueDate else NullDate)
  }

  /** `description?.trim() || ""`; a value without `trim` throws. */
  function CreateDescription(v: JsValue): (r: Option<string>)
    ensures r.None? <==> !(v.Undefined? || v.Null? || v.Str?)
    ensures v.Undefined? || v.Null? ==> r == Some([])
    ensures v.Str? ==> r == Some(Trim(v.s))
  {
    match v
    case Undefined => Some([])
    case Null => Some([])
    case Str(s) => Some(Trim(s))
    case _ => None
  }

  /** The task `createTask` stores for body `b`: trimmed strings, and defaults for the falsy fields. */
  predicate CreatedFrom(t: Task, b: TaskInput, freshId: Id, now: Instant) {
    && t.id == freshId && t.createdAt == now && t.updatedAt == now
    && b.title.Str? && t.title == Trim(b.title.s)
    && (b.description.Str? ==> t.description == Trim(b.description.s))
    && (!b.description.Str? ==> t.description == [])
    && (Truthy(b.status) ==> b.status == Str(StatusName(t.status)))
    && (!Truthy(b.status) ==> t.status == DefaultStatus)
    && (Truthy(b.priority) ==> b.priority == Str(PriorityName(t.priority)))
    && (!Truthy(b.priority) ==> t.priority == DefaultPriority)
    && (DateTruthy(b.dueDate) ==> Some(t.dueDate) == CastDueDate(b.dueDate))
    && (!DateTruthy(b.dueDate) ==> t.dueDate == None)
  }

  lemma CreatedFields(b: TaskInput, description: string, freshId: Id, now: Instant)
    requires b.title.Str? && CreateDescription(b.description) == Some(description)
    requires SaveNew(CreateDraft(b.title.s, description, b), freshId, now).Success?
    ensures CreatedFrom(SaveNew(CreateDraft(b.title.s, description, b), freshId, now).value, b, freshId, now)
  {
    var d := CreateDraft(b.title.s, description, b);
    var t := SaveNew(d, freshId, now).value;
    TrimIdempotent(b.title.s);
    if b.description.Str? {
      TrimIdempotent(b.description.s);
    } else {
      assert t.description == Trim([]);
    }
    DefaultedStatus(b.status, d.status, t.status);
    DefaultedPriority(b.priority, d.priority, t.priority);
  }

  /** A falsy status is replaced by the default; a truthy one is stored as sent. */
  lemma DefaultedStatus(sent: JsValue, written: JsValue, stored: Status)
    requires written == (if Truthy(sent) then sent else Str(StatusName(DefaultStatus)))
    requires written == Str(StatusName(stored))
    ensures Truthy(sent) ==> sent == Str(StatusName(stored))
    ensures !Truthy(sent) ==> stored == DefaultStatus
  {
    StatusNamesRoundTrip(stored);
    StatusNamesRoundTrip(DefaultStatus);
  }

  /** A falsy priority is replaced by the default; a truthy one is stored as sent. */
  lemma DefaultedPriority(sent: JsValue, written: JsValue, stored: Priority)
    requires written == (if Truthy(sent) then sent else Str(PriorityName(DefaultPriority)))
    requires written == Str(PriorityName(stored))
    ensures Truthy(sent) ==> sent == Str(PriorityName(stored))
    ensures !Truthy(sent) ==> stored == DefaultPriority
  {
    PriorityNamesRoundTrip(stored);
    PriorityNamesRoundTrip(DefaultPriority);
  }

  /** `createTask`. */
  function CreateTask(st: Store, b: TaskInput, freshId: Id, now: Instant): (r: Step)
    requires Valid(st) && freshId !in st.records
    ensures Valid(r.store)
    ensures !r.outcome.Respond? ==> r.store == st
    ensures !b.title.Str? ==> r.outcome.Raise? && r.outcome.error.name == TypeErrorName
    ensures r.outcome.Respond? ==>
      && r.outcome.response.status == 201
      && r.outcome.response.body.TaskJson?
      && CreatedFrom(r.outcome.response.body.task, b, freshId, now)
      && WellFormed(r.outcome.response.body.task)
      && r.store == Insert(st, r.outcome.response.body.task)
    ensures && Validators.ValidateCreate(b).Pass?
            && (b.description.Undefined? || b.description.Null? || b.description.Str?)
            && !b.dueDate.BadDate?
            ==> r.outcome.Respond? && freshId in r.store.records
  {
    if !b.title.Str? then Step(Raise(TypeFailure("title", "")), st)
    else match CreateDescription(b.description)
      case None => Step(Raise(TypeFailure("description", "")), st)
      case Some(description) =>
        var d := CreateDraft(b.title.s, description, b);
        match SaveNew(d, freshId, now)
        case Failure(fs) =>
          CreateDraftSaves(b, description);
          Step(Raise(ValidationFailure(fs, "")), st)
        case Success(t) =>
          CreatedFields(b, description, freshId, now);
          Step(Respond(Response(201, TaskJson(t))), Insert(st, t))
  }

  /** The draft `createTask` builds from a body the create validator passes has no schema fault. */
  lemma CreateDraftSaves(b: TaskInput, description: string)
    requires b.title.Str?
    ensures Validators.ValidateCreate(b).Pass? && !b.dueDate.BadDate? ==> Faults(CreateDraft(b.title.s, description, b)) == []
  {
    if Validators.ValidateCreate(b).Pass? && !b.dueDate.BadDate? {
      var d := CreateDraft(b.title.s, description, b);
      NormalisedTitleFits(b.title.s);
      StatusNamesRoundTrip(DefaultStatus);
      PriorityNamesRoundTrip(DefaultPriority);
      NoFaultsIff(d);
    }
  }

  /** A title the validators accept stays non-blank and within the maximum once the schema trims it again. */
  lemma NormalisedTitleFits(title: string)
    requires !IsBlank(title) && CodeUnits(title) <= TitleMaxLength
    ensures !IsBlank(Trim(title)) && CodeUnits(Trim(Trim(title))) <= TitleMaxLength
  {
    TrimNonBlank(title);
    TrimIdempotent(title);
    TrimCodeUnits(title);
  }

  /** `getTasks`: the listing of the store's tasks; the store is not touched. */
  function GetTasks(st: Store, q: ListQuery): (r: Response)
    requires Valid(st)
    ensures r.status == 200
    ensures !Paginated(q) ==> r.body == TaskArray(Matching(Tasks(st), q))
    ensures Paginated(q) ==> r.body.TaskPage? && Paged(r.body.tasks, r.body.pagination) == ListTasks(Tasks(st), q)
  {
    match ListTasks(Tasks(st), q)
    case Plain(ts) => Response(200, TaskArray(ts))
    case Paged(ts, p) => Response(200, TaskPage(ts, p))
  }

  /** `getTaskById`: a malformed id throws a CastError; a missing one is 404. */
  function GetTaskById(st: Store, idParam: string): (r: Outcome)
    ensures ParseId(idParam).None? ==> r.Raise? && r.error.name == CastErrorName
    ensures ParseId(idParam).Some? && ParseId(idParam).value !in st.records ==> r == Respond(TaskNotFound)
    ensures ParseId(idParam).Some? && ParseId(idParam).value in st.records ==>
      r == Respond(Response(200, TaskJson(st.records[ParseId(idParam).value])))
  {
    match ParseId(idParam)
    case None => Raise(CastFailure(idParam, ""))
    case Some(id) =>
      match Lookup(st, id)
      case None => Respond(TaskNotFound)
      case Some(t) => Respond(Response(200, TaskJson(t)))
  }

  /** `value.trim()` for an update field that is present; a value without `trim` throws. */
  function UpdateString(v: JsValue, current: string): (r: Option<string>)
    ensures v.Undefined? ==> r == Some(current)
    ensures v.Str? ==> r == Some(Trim(v.s))
    ensures r.None? <==> !(v.Undefined? || v.Str?)
  {
    match v
    case Undefined => Some(current)
    case Str(s) => Some(Trim(s))
    case _ => None
  }

  /** A stored due date as a value written back to the field. */
  function DateFieldOf(d: Option<Instant>): (f: DateField)
    ensures CastDueDate(f) == Some(d)
  {
    match d
    case Some(t) => DateAt(t)
    case None => NullDate
  }

  /** The draft `updateTask` assigns: each supplied field replaces the stored one. */
  function UpdateDraft(prev: Task, title: string, description: string, b: TaskInput): (d: Draft)
    ensures d.title == title && d.description == description
    ensures b.status.Undefined? ==> CastStatus(d.status) == Some(prev.status)
    ensures !b.status.Undefined? ==> d.status == b.status
    ensures b.priority.Undefined? ==> CastPriority(d.priority) == Some(prev.priority)
    ensures !b.priority.Undefined? ==> d.priority == b.priority
    ensures b.dueDate.NoDate? ==> CastDueDate(d.dueDate) == Some(prev.dueDate)
    ensures !b.dueDate.NoDate? ==> d.dueDate == b.dueDate
  {
    StatusNamesRoundTrip(prev.status);
    PriorityNamesRoundTrip(prev.priority);
    Draft(title, description,
          if b.status.Undefined? then Str(StatusName(prev.status)) else b.status,
          if b.priority.Undefined? then Str(PriorityName(prev.priority)) else b.priority,
          if b.dueDate.NoDate? then DateFieldOf(prev.dueDate) else b.dueDate)
  }

  /** `t` is `prev` with exactly the supplied fields of `b` applied (strings trimmed), stamped at `now` if anything changed. */
  predicate UpdatedFrom(t: Task, prev: Task, b: TaskInput, now: Instant) {
    && t.id == prev.id && t.createdAt == prev.createdAt
    && (b.title.Undefined? ==> t.title == prev.title)
    && (b.title.Str? ==> t.title == Trim(b.title.s))
    && (b.description.Undefined? ==> t.description == prev.description)
    && (b.description.Str? ==> t.description == Trim(b.description.s))
    && (b.status.Undefined? ==> t.status == prev.status)
    && (!b.status.Undefined? ==> b.status == Str(StatusName(t.status)))
    && (b.priority.Undefined? ==> t.priority == prev.priority)
    && (!b.priority.Undefined? ==> b.priority == Str(PriorityName(t.priority)))
    && (b.dueDate.NoDate? ==> t.dueDate == prev.dueDate)
    && (!b.dueDate.NoDate? ==> Some(t.dueDate) == CastDueDate(b.dueDate))
    && (SameContent(t, prev) ==> t == prev)
    && (!SameContent(t, prev) ==> t.updatedAt == now)
  }

  lemma UpdatedFields(prev: Task, b: TaskInput, title: string, description: string, now: Instant)
    requires WellFormed(prev) && prev.updatedAt <= now
    requires UpdateString(b.title, prev.title) == Some(title)
    requires UpdateString(b.description, prev.description) == Some(description)
    requires SaveExisting(prev, UpdateDraft(prev, title, description, b), now).Success?
    ensures UpdatedFrom(SaveExisting(prev, UpdateDraft(prev, title, description, b), now).value, prev, b, now)
  {
    var d := UpdateDraft(prev, title, description, b);
    var t := SaveExisting(prev, d, now).value;
    KeptText(prev.title, b.title, title, t.title);
    KeptText(prev.description, b.description, description, t.description);
    if b.status.Undefined? {
      KeptStatus(prev.status, d.status, t.status);
    }
    if b.priority.Undefined? {
      KeptPriority(prev.priority, d.priority, t.priority);
    }
  }

  /** A text field left out keeps the stored (already trimmed) value; a supplied one is stored trimmed. */
  lemma KeptText(prev: string, sent: JsValue, written: string, stored: string)
    requires Trimmed(prev) && UpdateString(sent, prev) == Some(written)
    requires stored == Trim(written)
    ensures sent.Undefined? ==> stored == prev
    ensures sent.Str? ==> stored == Trim(sent.s)
  {
    if sent.Str? {
      TrimIdempotent(sent.s);
    } else {
      TrimmedIff(prev);
    }
  }

  /** A status written back from the stored one is stored unchanged. */
  lemma KeptStatus(prev: Status, written: JsValue, stored: Status)
    requires CastStatus(written) == Some(prev)
    requires written == Str(StatusName(stored))
    ensures stored == prev
  {
    StatusNamesRoundTrip(stored);
  }

  /** A priority written back from the stored one is stored unchanged. */
  lemma KeptPriority(prev: Priority, written: JsValue, stored: Priority)
    requires CastPriority(written) == Some(prev)
    requires written == Str(PriorityName(stored))
    ensures stored == prev
  {
    PriorityNamesRoundTrip(stored);
  }

  /** `updateTask`: only the supplied fields change; `updatedAt` moves only if something changed. */
  function UpdateTask(st: Store, idParam: string, b: TaskInput, now: Instant): (r: Step)
    requires Valid(st) && ClockAfter(st, now)
    ensures Valid(r.store)
    ensures !r.outcome.Respond? || r.outcome.response.status != 200 ==> r.store == st
    ensures ParseId(idParam).None? ==> r.outcome.Raise? && r.outcome.error.name == CastErrorName
    ensures ParseId(idParam).Some? && ParseId(idParam).value !in st.records ==> r.outcome == Respond(TaskNotFound)
    ensures r.outcome.Respond? && r.outcome.response.status == 200 ==>
      && r.outcome.response.body.TaskJson?
      && ParseId(idParam).Some?
      && var t := r.outcome.response.body.task;
      && t.id == ParseId(idParam).value && t.id in st.records && WellFormed(t)
      && r.store == Replace(st, t)
      && UpdatedFrom(t, st.records[t.id], b, now)
    ensures && ParseId(idParam).Some? && ParseId(idParam).value in st.records
            && Validators.ValidateUpdate(b).Pass?
            && (b.description.Undefined? || b.description.Str?)
            && CastDueDate(b.dueDate).Some?
            ==> r.outcome.Respond? && r.outcome.response.status == 200
  {
    match ParseId(idParam)
    case None => Step(Raise(CastFailure(idParam, "")), st)
    case Some(id) =>
      match Lookup(st, id)
      case None => Step(Respond(TaskNotFound), st)
      case Some(prev) => UpdateFound(st, prev, b, now)
  }

  /** `updateTask` once `findById` has found `prev`: assign the supplied fields and save. */
  function UpdateFound(st: Store, prev: Task, b: TaskInput, now: Instant): (r: Step)
    requires Valid(st) && ClockAfter(st, now) && prev.id in st.records && st.records[prev.id] == prev
    ensures Valid(r.store)
    ensures !r.outcome.Respond? ==> r.store == st
    ensures r.outcome.Respond? ==>
      && r.outcome.response.status == 200
      && r.outcome.response.body.TaskJson?
      && var t := r.outcome.response.body.task;
      && t.id == prev.id && WellFormed(t)
      && r.store == Replace(st, t)
      && UpdatedFrom(t, prev, b, now)
    ensures && Validators.ValidateUpdate(b).Pass?
            && (b.description.Undefined? || b.description.Str?)
            && CastDueDate(b.dueDate).Some?
            ==> r.outcome.Respond?
  {
    match UpdateString(b.title, prev.title)
    case None => Step(Raise(TypeFailure("title", "")), st)
    case Some(title) =>
      match UpdateString(b.description, prev.description)
      case None => Step(Raise(TypeFailure("description", "")), st)
      case Some(description) =>
        var d := UpdateDraft(prev, title, description, b);
        match SaveExisting(prev, d, now)
        case Failure(fs) =>
          UpdateDraftSaves(prev, title, description, b);
          Step(Raise(ValidationFailure(fs, "")), st)
        case Success(t) =>
          UpdatedFields(prev, b, title, description, now);
          Step(Respond(Response(200, TaskJson(t))), Replace(st, t))
  }

  /** The draft `updateTask` assigns from a body the update validator passes has no schema fault. */
  lemma UpdateDraftSaves(prev: Task, title: string, description: string, b: TaskInput)
    requires WellFormed(prev) && UpdateString(b.title, prev.title) == Some(title)
    ensures Validators.ValidateUpdate(b).Pass? && CastDueDate(b.dueDate).Some? ==>
      Faults(UpdateDraft(prev, title, description, b)) == []
  {
    if Validators.ValidateUpdate(b).Pass? && CastDueDate(b.dueDate).Some? {
      if b.title.Str? {
        NormalisedTitleFits(b.title.s);
      } else {
        StoredTitleFits(prev.title);
      }
      NoFaultsIff(UpdateDraft(prev, title, description, b));
    }
  }

  /** A stored title passes the title checks again unchanged. */
  lemma StoredTitleFits(title: string)
    requires title != [] && Trimmed(title) && CodeUnits(title) <= TitleMaxLength
    ensures !IsBlank(title) && CodeUnits(Trim(title)) <= TitleMaxLength
  {
    TrimmedIff(title);
    assert !IsSpace(title[0]);
  }

  /** `dueDate: false` is falsy, so `createTask` stores no due date (`dueDate || null`) and answers 201. */
  lemma FalseDueDateCreatesWithoutDate(st: Store, b: TaskInput, freshId: Id, now: Instant)
    requires Valid(st) && freshId !in st.records
    requires Validators.ValidateCreate(b).Pass? && b.description.Undefined? && b.dueDate == FalseDate
    ensures var r := CreateTask(st, b, freshId, now);
      && r.outcome.Respond? && r.outcome.response.status == 201
      && r.outcome.response.body.task.dueDate.None?
  {
  }

  /** `updateTask` assigns `dueDate: false` as it is; the Date cast rejects it, so nothing is answered or changed. */
  lemma FalseDueDateRefusedOnUpdate(st: Store, idParam: string, b: TaskInput, now: Instant)
    requires Valid(st) && ClockAfter(st, now)
    requires ParseId(idParam).Some? && ParseId(idParam).value in st.records
    requires b.dueDate == FalseDate
    ensures var r := UpdateTask(st, idParam, b, now);
      && !r.outcome.Respond? && r.store == st
  {
  }

  /** `deleteTask`: removes exactly the addressed task. */
  function DeleteTask(st: Store, idParam: string): (r: Step)
    requires Valid(st)
    ensures Valid(r.store)
    ensures ParseId(idParam).None? ==> r.outcome.Raise? && r.outcome.error.name == CastErrorName && r.store == st
    ensures ParseId(idParam).Some? && ParseId(idParam).value !in st.records ==>
      r.outcome == Respond(TaskNotFound) && r.store == st
    ensures ParseId(idParam).Some? && ParseId(idParam).value in st.records ==>
      && r.outcome == Respond(Response(200, Message(DeletedMessage)))
      && r.store == Remove(st, ParseId(idParam).value)
  {
    match ParseId(idParam)
    case None => Step(Raise(CastFailure(idParam, "")), st)
    case Some(id) =>
      match Lookup(st, id)
      case None => Step(Respond(TaskNotFound), st)
      case Some(_) => Step(Respond(Response(200, Message(DeletedMessage))), Remove(st, id))
  }
}
