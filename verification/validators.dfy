/**
 * The request-body validators that guard POST and PATCH: each collects every
 * violated rule, in rule order (title, status, priority), and the request is
 * refused with 400 and the messages joined by ", " exactly when one was found.
 */
module Validators {
  import opened Wrappers
  import opened Text
  import opened Payload
  import opened Constants

  const TitleEmptyMessage: string := "Title cannot be empty"
  const Separator: string := ", "

  /** The rules a validator can report, in the order it checks them. */
  datatype Rule = TitleRequired | TitleEmpty | TitleTooLong | StatusEnum | PriorityEnum

  /** The text reported for a violated rule. */
  function Message(r: Rule): string {
    match r
    case TitleRequired => TitleRequiredMessage
    case TitleEmpty => TitleEmptyMessage
    case TitleTooLong => TitleTooLongMessage
    case StatusEnum => StatusEnumMessage
    case PriorityEnum => PriorityEnumMessage
  }

  function Messages(rs: seq<Rule>): (ms: seq<string>)
    ensures |ms| == |rs|
    ensures forall k :: 0 <= k < |rs| ==> ms[k] == Message(rs[k])
  {
    seq(|rs|, k requires 0 <= k < |rs| => Message(rs[k]))
  }

  /** `title && typeof title === "string" && title.trim() !== ""`. */
  predicate PresentTitle(v: JsValue) {
    v.Str? && !IsBlank(v.s)
  }

  /** A string title whose untrimmed length exceeds the maximum. */
  predicate TooLong(v: JsValue) {
    v.Str? && CodeUnits(v.s) > TitleMaxLength
  }

  /** `VALID_STATUSES.includes(v)`: only a string can equal a listed value. */
  predicate IsStatusValue(v: JsValue) {
    v.Str? && v.s in ValidStatuses
  }

  /** `VALID_PRIORITIES.includes(v)`. */
  predicate IsPriorityValue(v: JsValue) {
    v.Str? && v.s in ValidPriorities
  }

  /** The position of a rule in the validators' checking order; both title-presence rules come first. */
  function RuleRank(r: Rule): nat {
    match r
    case TitleRequired => 0
    case TitleEmpty => 0
    case TitleTooLong => 1
    case StatusEnum => 2
    case PriorityEnum => 3
  }

  /** No rule is reported twice and rules appear in checking order. */
  predicate InRuleOrder(errs: seq<Rule>) {
    forall i, j :: 0 <= i < j < |errs| ==> RuleRank(errs[i]) < RuleRank(errs[j])
  }

  /** The title report (at most one rule) followed by the status and priority reports, in checking order. */
  function Collect(title: Option<Rule>, statusBad: bool, priorityBad: bool): (errs: seq<Rule>)
    requires title.Some? ==> RuleRank(title.value) <= 1
    ensures TitleRequired in errs <==> title == Some(TitleRequired)
    ensures TitleEmpty in errs <==> title == Some(TitleEmpty)
    ensures TitleTooLong in errs <==> title == Some(TitleTooLong)
    ensures StatusEnum in errs <==> statusBad
    ensures PriorityEnum in errs <==> priorityBad
    ensures InRuleOrder(errs)
  {
    (if title.Some? then [title.value] else [])
      + (if statusBad then [StatusEnum] else [])
      + (if priorityBad then [PriorityEnum] else [])
  }

  /** The title check of `validateCreateTask`: required and non-blank, then at most 100 long. */
  function CreateTitleRule(title: JsValue): (r: Option<Rule>)
    ensures r == Some(TitleRequired) <==> !PresentTitle(title)
    ensures r == Some(TitleTooLong) <==> PresentTitle(title) && TooLong(title)
    ensures r == None <==> PresentTitle(title) && !TooLong(title)
  {
    if !PresentTitle(title) then Some(TitleRequired)
    else if TooLong(title) then Some(TitleTooLong)
    else None
  }

  /** The title check of `validateUpdateTask`: nothing to check when the title is `undefined`. */
  function UpdateTitleRule(title: JsValue): (r: Option<Rule>)
    ensures r == Some(TitleEmpty) <==> title != Undefined && !PresentTitle(title)
    ensures r == Some(TitleTooLong) <==> PresentTitle(title) && TooLong(title)
    ensures r == None <==> title == Undefined || (PresentTitle(title) && !TooLong(title))
  {
    if title == Undefined then None
    else if !PresentTitle(title) then Some(TitleEmpty)
    else if TooLong(title) then Some(TitleTooLong)
    else None
  }

  /** The error list `validateCreateTask` collects. */
  function CreateErrors(b: TaskInput): (errs: seq<Rule>)
    ensures TitleRequired in errs <==> !PresentTitle(b.title)
    ensures TitleTooLong in errs <==> PresentTitle(b.title) && TooLong(b.title)
    ensures StatusEnum in errs <==> Truthy(b.status) && !IsStatusValue(b.status)
    ensures PriorityEnum in errs <==> Truthy(b.priority) && !IsPriorityValue(b.priority)
    ensures TitleEmpty !in errs
    ensures InRuleOrder(errs)
  {
    Collect(CreateTitleRule(b.title),
            Truthy(b.status) && !IsStatusValue(b.status),
            Truthy(b.priority) && !IsPriorityValue(b.priority))
  }

  /** The error list `validateUpdateTask` collects: a field is checked only when it is not `undefined`. */
  function UpdateErrors(b: TaskInput): (errs: seq<Rule>)
    ensures TitleEmpty in errs <==> b.title != Undefined && !PresentTitle(b.title)
    ensures TitleTooLong in errs <==> PresentTitle(b.title) && TooLong(b.title)
    ensures StatusEnum in errs <==> b.status != Undefined && !IsStatusValue(b.status)
    ensures PriorityEnum in errs <==> b.priority != Undefined && !IsPriorityValue(b.priority)
    ensures TitleRequired !in errs
    ensures InRuleOrder(errs)
  {
    Collect(UpdateTitleRule(b.title),
            b.status != Undefined && !IsStatusValue(b.status),
            b.priority != Undefined && !IsPriorityValue(b.priority))
  }

  /** What a validator does with its list: pass to the handler, or answer 400 itself. */
  datatype Verdict = Pass | Reject(status: int, message: string)

  lemma JoinContainsAll(xs: seq<string>, sep: string)
    ensures forall k :: 0 <= k < |xs| ==> Contains(Join(xs, sep), xs[k])
  {
    forall k | 0 <= k < |xs| ensures Contains(Join(xs, sep), xs[k]) {
      JoinContainsEach(xs, sep, k);
    }
  }

  /** Accept iff the list is empty; otherwise 400 with a message naming every error, the first one leading. */
  function Decide(errs: seq<Rule>): (v: Verdict)
    ensures v.Pass? <==> errs == []
    ensures v.Reject? ==> v.status == 400 && Message(errs[0]) <= v.message
    ensures v.Reject? ==> forall k :: 0 <= k < |errs| ==> Contains(v.message, Message(errs[k]))
  {
    if |errs| > 0 then
      JoinContainsAll(Messages(errs), Separator);
      Reject(400, Join(Messages(errs), Separator))
    else Pass
  }

  /** `validateCreateTask`. */
  function ValidateCreate(b: TaskInput): (v: Verdict)
    ensures v.Pass? <==> (&& PresentTitle(b.title) && !TooLong(b.title)
                          && (Truthy(b.status) ==> IsStatusValue(b.status))
                          && (Truthy(b.priority) ==> IsPriorityValue(b.priority)))
    ensures v.Reject? ==> v.status == 400 && v.message == Join(Messages(CreateErrors(b)), Separator)
  {
    Decide(CreateErrors(b))
  }

  /** `validateUpdateTask`. */
  function ValidateUpdate(b: TaskInput): (v: Verdict)
    ensures v.Pass? <==> (&& (b.title != Undefined ==> PresentTitle(b.title) && !TooLong(b.title))
                          && (b.status != Undefined ==> IsStatusValue(b.status))
                          && (b.priority != Undefined ==> IsPriorityValue(b.priority)))
    ensures v.Reject? ==> v.status == 400 && v.message == Join(Messages(UpdateErrors(b)), Separator)
  {
    Decide(UpdateErrors(b))
  }

  /** A missing, non-string or blank title yields exactly "Title is required" for the title rule, never the length error. */
  lemma CreateMissingTitle(b: TaskInput)
    requires !PresentTitle(b.title)
    ensures CreateErrors(b)[0] == TitleRequired
    ensures TitleTooLong !in CreateErrors(b)
    ensures ValidateCreate(b).Reject?
  {
  }

  /** An update carrying no field passes, whatever else is true. */
  lemma EmptyUpdatePasses()
    ensures UpdateErrors(EmptyInput) == []
    ensures ValidateUpdate(EmptyInput) == Pass
  {
  }

  /** The empty string passes as a status or priority on create but is refused on update. */
  lemma EmptyEnumValueDiverges(b: TaskInput)
    requires b.status == Str([]) && b.priority == Str([])
    ensures StatusEnum !in CreateErrors(b) && PriorityEnum !in CreateErrors(b)
    ensures StatusEnum in UpdateErrors(b) && PriorityEnum in UpdateErrors(b)
  {
  }

  /** The title rule of the create validator, for a string title. */
  predicate ServerAcceptsTitle(s: string) {
    TitleRequired !in CreateErrors(TaskInput(Str(s), Undefined, Undefined, Undefined, NoDate))
    && TitleTooLong !in CreateErrors(TaskInput(Str(s), Undefined, Undefined, Undefined, NoDate))
  }

  /** For string titles the create title rule is: non-blank and at most 100 code units. */
  lemma ServerTitleRule(s: string)
    ensures ServerAcceptsTitle(s) <==> !IsBlank(s) && CodeUnits(s) <= TitleMaxLength
  {
  }

  /** A title the create validator accepts also passes the update validator, and vice versa. */
  lemma CreateAndUpdateAgreeOnStringTitles(b: TaskInput)
    requires b.title.Str?
    ensures (TitleRequired in CreateErrors(b)) <==> (TitleEmpty in UpdateErrors(b))
    ensures (TitleTooLong in CreateErrors(b)) <==> (TitleTooLong in UpdateErrors(b))
  {
  }
}
