/**
 * The task list page of the current client: the filter and page state, the
 * listing query it sends, how it takes in the answer, the page buttons, the
 * "Showing a - b of n" line, and the inline edit.
 */
module TasksPage {
  import opened Wrappers
  import opened Text
  import opened Payload
  import opened Constants
  import opened TaskModel
  import opened Listing
  import opened Http
  import opened Validators
  import opened ClientRules

  /** `pageSize`: the page asks for six tasks at a time. */
  const PageSize: int := 6

  /** At most this many numbered page buttons are shown. */
  const MaxButtons: int := 5

  const FetchFailedMessage: string := "Failed to fetch tasks. Make sure backend is running."

  /** The page's state that decides what it fetches and shows. */
  datatype View = View(
    search: string,
    filterStatus: string,
    filterPriority: string,
    sortBy: string,
    currentPage: int,
    tasks: seq<Task>,
    pagination: Option<Pagination>,
    error: string)

  /** The state on first render. */
  const Start: View := View("", "", "", SortDate, 1, [], None, "")

  /** The listing query of `fetchTasks`: trimmed search and non-empty filters and sort, always with page and limit. */
  function FetchQuery(v: View): (q: ListQuery)
    ensures q.search.Some? <==> !IsBlank(v.search)
    ensures q.search.Some? ==> q.search.value == Trim(v.search)
    ensures q.status.Some? <==> v.filterStatus != []
    ensures q.status.Some? ==> q.status.value == v.filterStatus
    ensures q.priority.Some? <==> v.filterPriority != []
    ensures q.priority.Some? ==> q.priority.value == v.filterPriority
    ensures q.sort.Some? <==> v.sortBy != []
    ensures q.sort.Some? ==> q.sort.value == v.sortBy
    ensures q.page == Given(v.currentPage) && q.limit == Given(PageSize)
  {
    ListQuery(
      if v.filterStatus != [] then Some(v.filterStatus) else None,
      if v.filterPriority != [] then Some(v.filterPriority) else None,
      if v.sortBy != [] then Some(v.sortBy) else None,
      Given(v.currentPage),
      Given(PageSize),
      if !IsBlank(v.search) then Some(Trim(v.search)) else None)
  }

  /** The server always paginates this page's query, six per page, at the page the view is on. */
  lemma FetchIsAlwaysPaged(all: seq<Task>, v: View)
    requires v.currentPage >= 1
    ensures var r := ListTasks(all, FetchQuery(v));
      && r.Paged?
      && r.pagination.limit == PageSize
      && r.pagination.currentPage == v.currentPage
      && |r.tasks| <= PageSize
  {
  }

  /**
   * How `fetchTasks` takes in the answer: `Some(response)` when the server
   * answered, `None` when the request failed.
   */
  function Loaded(v: View, answer: Option<Response>): (r: View)
    ensures r.search == v.search && r.filterStatus == v.filterStatus && r.filterPriority == v.filterPriority
    ensures r.sortBy == v.sortBy && r.currentPage == v.currentPage
    ensures r.error != [] <==> answer.None? || !Ok(answer.value.status)
    ensures answer.None? || !Ok(answer.value.status) ==>
      r.tasks == [] && r.pagination.None? && r.error == FetchFailedMessage
    ensures answer.Some? && Ok(answer.value.status) && !answer.value.body.TaskPage? && !answer.value.body.TaskArray? ==>
      r.tasks == [] && r.pagination.None? && r.error == []
    ensures answer.Some? && Ok(answer.value.status) && answer.value.body.TaskPage? ==>
      r.tasks == answer.value.body.tasks && r.pagination == Some(answer.value.body.pagination) && r.error == []
    ensures answer.Some? && Ok(answer.value.status) && answer.value.body.TaskArray? ==>
      r.tasks == answer.value.body.tasks && r.pagination.None? && r.error == []
  {
    match answer
    case None => v.(tasks := [], pagination := None, error := FetchFailedMessage)
    case Some(resp) =>
      if !Ok(resp.status) then v.(tasks := [], pagination := None, error := FetchFailedMessage)
      else
        match resp.body
        case TaskArray(ts) => v.(tasks := ts, pagination := None, error := "")
        case TaskPage(ts, p) => v.(tasks := ts, pagination := Some(p), error := "")
        case _ => v.(tasks := [], pagination := None, error := "")
  }

  /** What the user does to the filter bar and the page controls. */
  datatype Event =
    | SearchTyped(text: string)
    | StatusPicked(status: string)
    | PriorityPicked(priority: string)
    | SortPicked(sort: string)
    | ResetFilters
    | PageClicked(page: int)

  /** The view after an event, before the refetch it triggers. */
  function Apply(v: View, e: Event): (r: View)
    ensures r.tasks == v.tasks && r.pagination == v.pagination && r.error == v.error
    ensures !e.PageClicked? ==> r.currentPage == 1
    ensures e.PageClicked? ==> r == v.(currentPage := e.page)
    ensures e.ResetFilters? ==>
      r.search == [] && r.filterStatus == [] && r.filterPriority == [] && r.sortBy == SortDate
    ensures e.SearchTyped? ==> r == v.(search := e.text, currentPage := 1)
    ensures e.StatusPicked? ==> r == v.(filterStatus := e.status, currentPage := 1)
    ensures e.PriorityPicked? ==> r == v.(filterPriority := e.priority, currentPage := 1)
    ensures e.SortPicked? ==> r == v.(sortBy := e.sort, currentPage := 1)
  {
    match e
    case SearchTyped(text) => v.(search := text, currentPage := 1)
    case StatusPicked(s) => v.(filterStatus := s, currentPage := 1)
    case PriorityPicked(p) => v.(filterPriority := p, currentPage := 1)
    case SortPicked(s) => v.(sortBy := s, currentPage := 1)
    case ResetFilters => v.(search := "", filterStatus := "", filterPriority := "", sortBy := SortDate, currentPage := 1)
    case PageClicked(n) => v.(currentPage := n)
  }

  /** Reset Filters brings the query back to the one the page first sends. */
  lemma ResetRestoresFirstQuery(v: View)
    ensures FetchQuery(Apply(v, ResetFilters)) == FetchQuery(Start)
  {
  }

  /**
   * After a successful delete: step back a page when the deleted task was
   * the only one shown on a page after the first (the page change refetches),
   * otherwise stay and refetch.
   */
  function AfterDelete(v: View): (r: View)
    ensures v.pagination.Some? && |v.tasks| == 1 && v.currentPage > 1 ==> r.currentPage == v.currentPage - 1
    ensures !(v.pagination.Some? && |v.tasks| == 1 && v.currentPage > 1) ==> r == v
    ensures v.currentPage >= 1 ==> r.currentPage >= 1
  {
    if v.pagination.Some? && |v.tasks| == 1 && v.currentPage > 1 then v.(currentPage := v.currentPage - 1)
    else v
  }

  /** Stepping back after deleting the last task of the last page lands on the new last page. */
  lemma DeleteStepsBackToLastPage(all: seq<Task>, v: View, remaining: nat)
    requires v.currentPage > 1 && v.pagination.Some? && |v.tasks| == 1
    requires remaining == (v.currentPage - 1) * PageSize
    ensures AfterDelete(v).currentPage == TotalPages(remaining, PageSize)
  {
    var p := v.currentPage - 1;
    assert remaining <= p * PageSize;
    var t := TotalPages(remaining, PageSize);
    if t < p {
      MulMono(t, p - 1, PageSize);
      assert false;
    } else if t > p {
      MulMono(p, t - 1, PageSize);
      assert false;
    }
  }

  /** The `i`-th numbered button: the first pages, the last five, or two either side of the current page. */
  function ButtonPage(i: int, current: int, total: int): (p: int)
    ensures total > MaxButtons ==>
      var first := if current - 2 < 1 then 1 else if current - 2 > total - 4 then total - 4 else current - 2;
      p == first + i
    ensures MaxButtons < total && 0 <= i < MaxButtons ==> 1 <= p <= total
  {
    if total <= MaxButtons then i + 1
    else if current <= 3 then i + 1
    else if current >= total - 2 then total - 4 + i
    else current - 2 + i
  }

  /** The numbered buttons: `Array.from({ length: Math.min(5, totalPages) }, ...)`. */
  function PageWindow(current: int, total: nat): (w: seq<int>)
    ensures |w| == if total < MaxButtons then total else MaxButtons
    ensures forall i :: 0 < i < |w| ==> w[i] == w[i - 1] + 1
  {
    var n := if total < MaxButtons then total else MaxButtons;
    seq(n, i requires 0 <= i < n => ButtonPage(i, current, total))
  }

  /** With five pages or fewer every page has a button, in order. */
  lemma SmallWindowShowsAllPages(current: int, total: nat)
    requires total <= MaxButtons
    ensures forall i :: 0 <= i < |PageWindow(current, total)| ==> PageWindow(current, total)[i] == i + 1
  {
  }

  /** On a real page the buttons stay within the pages and include the current one. */
  lemma WindowInRangeAndHasCurrent(current: int, total: nat)
    requires 1 <= current <= total
    ensures var w := PageWindow(current, total);
      && (forall i :: 0 <= i < |w| ==> 1 <= w[i] <= total)
      && current in w
  {
    var w := PageWindow(current, total);
    if total <= MaxButtons || current <= 3 {
      assert w[current - 1] == current;
    } else if current >= total - 2 {
      assert w[current - total + 4] == current;
    } else {
      assert w[2] == current;
    }
  }

  /** `Showing a - b of n`: the first and last position on the current page. */
  function ShowingRange(current: int, n: nat): (r: (int, int))
    requires current >= 1
    ensures r.0 == (current - 1) * PageSize + 1
    ensures r.1 <= n && r.1 <= current * PageSize
    ensures r.1 == n || r.1 == current * PageSize
  {
    var last := if current * PageSize < n then current * PageSize else n;
    ((current - 1) * PageSize + 1, last)
  }

  /** On a page that has tasks, the range is within 1..n and counts exactly the tasks the server sent. */
  lemma ShowingRangeMatchesPage(matching: seq<Task>, current: int)
    requires 1 <= current <= TotalPages(|matching|, PageSize)
    ensures var (a, b) := ShowingRange(current, |matching|);
      var page := Paginate(matching, current, PageSize);
      && 1 <= a <= b <= |matching|
      && b - a + 1 == |page.tasks|
  {
    PageNonEmptyIff(|matching|, current, PageSize);
  }

  /** A page-control button as the page renders it. */
  datatype Button = First | Previous | Next | Last | Numbered(index: int)

  /** Whether a button can be clicked: First/Previous need a previous page, Next/Last a next one. */
  predicate Enabled(b: Button, current: int, p: Pagination) {
    match b
    case First => p.hasPrevPage
    case Previous => p.hasPrevPage
    case Next => p.hasNextPage
    case Last => p.hasNextPage
    case Numbered(i) => 0 <= i < |PageWindow(current, p.totalPages)|
  }

  /** The page a button asks for. */
  function Target(b: Button, current: int, p: Pagination): int
    requires Enabled(b, current, p)
  {
    match b
    case First => 1
    case Previous => current - 1
    case Next => current + 1
    case Last => p.totalPages
    case Numbered(i) => PageWindow(current, p.totalPages)[i]
  }

  /** On a real page with the server's metadata, every enabled button leads to a real page. */
  lemma ButtonsStayOnRealPages(matching: seq<Task>, current: int, b: Button)
    requires 1 <= current <= TotalPages(|matching|, PageSize)
    requires Enabled(b, current, Paginate(matching, current, PageSize).pagination)
    ensures var p := Paginate(matching, current, PageSize).pagination;
      1 <= Target(b, current, p) <= p.totalPages
  {
    var p := Paginate(matching, current, PageSize).pagination;
    if b.Numbered? {
      WindowInRangeAndHasCurrent(current, p.totalPages);
    }
  }

  /** The three requests a task card sends. */
  datatype Action = StatusChange | Removal | EditSave

  /** The banner for a refused request when the answer carries no `error` text. */
  function Fallback(a: Action): string {
    match a
    case StatusChange => "Failed to update task status"
    case Removal => "Failed to delete task"
    case EditSave => "Failed to update task"
  }

  /** The banner when the request itself failed. */
  function Unreachable(a: Action): string {
    match a
    case StatusChange => "Error updating task status"
    case Removal => "Error deleting task"
    case EditSave => "Error updating task"
  }

  /**
   * The error banner after a card's request went wrong: `Some(response)` for
   * a refused request, `None` when the request itself failed.
   */
  function ActionError(a: Action, answer: Option<Response>): (message: string)
    requires answer.Some? ==> !Ok(answer.value.status)
    ensures message != []
    ensures answer.Some? && answer.value.body.ErrorJson? && answer.value.body.error != [] ==>
      message == answer.value.body.error
    ensures answer.Some? && !(answer.value.body.ErrorJson? && answer.value.body.error != []) ==> message == Fallback(a)
    ensures answer.None? ==> message == Unreachable(a)
  {
    match answer
    case None => Unreachable(a)
    case Some(resp) => if resp.body.ErrorJson? && resp.body.error != [] then resp.body.error else Fallback(a)
  }

  /** An edit the update validator refuses shows the validator's own joined messages. */
  lemma RefusedEditShowsValidatorMessages(b: TaskInput)
    requires ValidateUpdate(b).Reject?
    ensures var v := ValidateUpdate(b);
      ActionError(EditSave, Some(Fail(v.status, v.message))) == v.message
  {
    var errs := UpdateErrors(b);
    assert Validators.Message(errs[0]) != [];
  }

  /** The fields `handleStartEdit` loads and the save sends. */
  datatype Edit = Edit(title: string, description: string)

  /** `handleSaveEdit`: the title check, then a PATCH of the trimmed title and description. */
  function SaveEdit(e: Edit): (r: Result<TaskInput, string>)
    ensures r.Success? <==> !IsBlank(e.title) && CodeUnits(e.title) <= TitleMaxLength
    ensures r.Failure? ==> r.error == TitleProblem(e.title).value
    ensures r.Success? ==> r.value.title == Str(Trim(e.title)) && r.value.description == Str(Trim(e.description))
    ensures r.Success? ==> r.value.status == Undefined && r.value.priority == Undefined && r.value.dueDate == NoDate
  {
    match TitleProblem(e.title)
    case Some(message) => Failure(message)
    case None => Success(TaskInput(Str(Trim(e.title)), Str(Trim(e.description)), Undefined, Undefined, NoDate))
  }

  /** Every edit the page sends passes the update validator. */
  lemma SavedEditPassesUpdate(e: Edit)
    requires SaveEdit(e).Success?
    ensures ValidateUpdate(SaveEdit(e).value).Pass?
  {
    var b := SaveEdit(e).value;
    TrimNonBlank(e.title);
    TrimCodeUnits(e.title);
    assert PresentTitle(b.title) && !TooLong(b.title);
    assert b.status == Undefined && b.priority == Undefined;
  }

  /** The PATCH of the status select carries one of its three options, which the update validator accepts. */
  lemma StatusSelectPassesUpdate(s: Status)
    ensures ValidateUpdate(TaskInput(Undefined, Undefined, Str(StatusName(s)), Undefined, NoDate)).Pass?
  {
    StatusNamesRoundTrip(s);
  }
}
