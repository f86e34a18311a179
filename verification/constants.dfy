/** The application's enumerations, defaults, limits and fixed messages. */
module Constants {
  import opened Wrappers
  import opened Text

  datatype Status = Pending | InProgress | Completed
  datatype Priority = Low | Medium | High

  /** The wire string of a status. */
  function StatusName(s: Status): string {
    match s
    case Pending => "pending"
    case InProgress => "in-progress"
    case Completed => "completed"
  }

  /** The wire string of a priority. */
  function PriorityName(p: Priority): string {
    match p
    case Low => "low"
    case Medium => "medium"
    case High => "high"
  }

  /** `VALID_STATUSES`: the values of `TASK_STATUS` in declaration order. */
  const ValidStatuses: seq<string> := ["pending", "in-progress", "completed"]

  /** `VALID_PRIORITIES`: the values of `TASK_PRIORITY` in declaration order. */
  const ValidPriorities: seq<string> := ["low", "medium", "high"]

  const DefaultStatus: Status := Pending
  const DefaultPriority: Priority := Medium

  const TitleMaxLength: nat := 100
  const DefaultPageSize: nat := 6
  const MaxPageSize: nat := 100

  const SortDate: string := "date"
  const SortStatus: string := "status"
  const SortOptions: seq<string> := [SortDate, SortStatus]

  const TitleRequiredMessage: string := "Title is required"
  const TitleTooLongMessage: string := "Title must not exceed 100 characters"
  /** `Status must be one of: ${VALID_STATUSES.join(", ")}`. */
  const StatusEnumMessage: string := "Status must be one of: " + Join(ValidStatuses, ", ")
  /** `Priority must be one of: ${VALID_PRIORITIES.join(", ")}`. */
  const PriorityEnumMessage: string := "Priority must be one of: " + Join(ValidPriorities, ", ")

  /** Reads a wire string back as a status. */
  function ParseStatus(s: string): (r: Option<Status>)
    ensures r.Some? <==> s in ValidStatuses
    ensures r.Some? ==> StatusName(r.value) == s
  {
    if s == "pending" then Some(Pending)
    else if s == "in-progress" then Some(InProgress)
    else if s == "completed" then Some(Completed)
    else None
  }

  /** Reads a wire string back as a priority. */
  function ParsePriority(s: string): (r: Option<Priority>)
    ensures r.Some? <==> s in ValidPriorities
    ensures r.Some? ==> PriorityName(r.value) == s
  {
    if s == "low" then Some(Low)
    else if s == "medium" then Some(Medium)
    else if s == "high" then Some(High)
    else None
  }

  /** The status list is exactly the wire strings of the three statuses, in declaration order. */
  lemma StatusNamesRoundTrip(s: Status)
    ensures ParseStatus(StatusName(s)) == Some(s)
    ensures ValidStatuses == [StatusName(Pending), StatusName(InProgress), StatusName(Completed)]
    ensures StatusName(s) in ValidStatuses
  {
  }

  /** The priority list is exactly the wire strings of the three priorities, in declaration order. */
  lemma PriorityNamesRoundTrip(p: Priority)
    ensures ParsePriority(PriorityName(p)) == Some(p)
    ensures ValidPriorities == [PriorityName(Low), PriorityName(Medium), PriorityName(High)]
    ensures PriorityName(p) in ValidPriorities
  {
  }

  /** The defaults are members of their enumerations and the numeric limits are consistent. */
  lemma ConstantsAgree()
    ensures StatusName(DefaultStatus) in ValidStatuses && StatusName(DefaultStatus) == "pending"
    ensures PriorityName(DefaultPriority) in ValidPriorities && PriorityName(DefaultPriority) == "medium"
    ensures 1 <= DefaultPageSize <= MaxPageSize && DefaultPageSize == 6 && MaxPageSize == 100
    ensures TitleMaxLength == 100
    ensures SortOptions == ["date", "status"]
  {
  }
}
