/**
 * The query plan of the task listing: filter construction, sort order,
 * the pagination switch, page/limit clamping, the page slice and the
 * pagination metadata.
 */
module Listing {
  import opened Wrappers
  import opened Text
  import opened Constants
  import opened TaskModel
  import opened TaskOrder

  /**
   * A numeric query parameter: key absent, key present with an empty value,
   * or key present with a value `parseInt` reads as `n`.
   */
  datatype NumParam = Missing | Blank | Given(n: int)

  /** The query string of `GET /tasks`; `None` is an absent key. */
  datatype ListQuery = ListQuery(
    status: Option<string>,
    priority: Option<string>,
    sort: Option<string>,
    page: NumParam,
    limit: NumParam,
    search: Option<string>)

  /** The document filter: exact status, exact priority, and a case-insensitive title pattern. */
  datatype Filter = Filter(status: Option<string>, priority: Option<string>, title: Option<string>)

  /** A query value is used only when it is truthy, i.e. present and non-empty. */
  function WhenSet(v: Option<string>): (r: Option<string>)
    ensures r.Some? <==> v.Some? && v.value != []
    ensures r.Some? ==> r.value == v.value
  {
    if v.Some? && v.value != [] then v else None
  }

  function BuildFilter(q: ListQuery): (f: Filter)
    ensures f.status.Some? <==> q.status.Some? && q.status.value != []
    ensures f.status.Some? ==> f.status.value == q.status.value
    ensures f.priority.Some? <==> q.priority.Some? && q.priority.value != []
    ensures f.priority.Some? ==> f.priority.value == q.priority.value
    ensures f.title.Some? <==> q.search.Some? && !IsBlank(q.search.value)
    ensures f.title.Some? ==> f.title.value == Trim(q.search.value) && f.title.value != []
  {
    var title := if q.search.Some? && !IsBlank(q.search.value) then Some(Trim(q.search.value)) else None;
    Filter(WhenSet(q.status), WhenSet(q.priority), title)
  }

  /** A task satisfies every predicate the filter carries. */
  predicate Matches(t: Task, f: Filter): (b: bool)
    ensures f == Filter(None, None, None) ==> b
  {
    && (f.status.Some? ==> StatusName(t.status) == f.status.value)
    && (f.priority.Some? ==> PriorityName(t.priority) == f.priority.value)
    && (f.title.Some? ==> ContainsIgnoreCase(t.title, f.title.value))
  }

  /**
   * Matching the filter a query builds: an absent or empty status or
   * priority constrains nothing, and neither does an absent or blank
   * search; otherwise the status and priority names must be equal and the
   * trimmed search must occur in the title, ignoring case.
   */
  lemma MatchesQuery(t: Task, q: ListQuery)
    ensures Matches(t, BuildFilter(q)) <==>
      && (q.status.None? || q.status.value == [] || StatusName(t.status) == q.status.value)
      && (q.priority.None? || q.priority.value == [] || PriorityName(t.priority) == q.priority.value)
      && (q.search.None? || IsBlank(q.search.value) || ContainsIgnoreCase(t.title, Trim(q.search.value)))
  {
  }

  /** The tasks of `s` that match, in their original order. */
  function Select(s: seq<Task>, f: Filter): (r: seq<Task>)
    ensures |r| <= |s|
    ensures forall x :: x in r <==> x in s && Matches(x, f)
    ensures forall x :: Matches(x, f) ==> multiset(r)[x] == multiset(s)[x]
    ensures forall x :: !Matches(x, f) ==> multiset(r)[x] == 0
  {
    if s == [] then []
    else
      assert s == [s[0]] + s[1..];
      var rest := Select(s[1..], f);
      if Matches(s[0], f) then [s[0]] + rest else rest
  }

  /** Sort "status" selects the status order; any other or absent value sorts by date. */
  function SortModeOf(sort: Option<string>): (m: SortMode)
    ensures m == ByStatus <==> sort == Some(SortStatus)
  {
    if sort == Some(SortDate) then ByDate
    else if sort == Some(SortStatus) then ByStatus
    else ByDate
  }

  /** Pagination is on exactly when the query has a `page` or a `limit` key. */
  predicate Paginated(q: ListQuery) {
    !q.page.Missing? || !q.limit.Missing?
  }

  /** `Math.max(1, parseInt(page || "1"))`. */
  function PageNumber(p: NumParam): (n: int)
    ensures n >= 1
    ensures p.Given? && p.n >= 1 ==> n == p.n
    ensures !(p.Given? && p.n >= 1) ==> n == 1
  {
    match p
    case Given(k) => if k > 1 then k else 1
    case _ => 1
  }

  /** `Math.max(1, Math.min(parseInt(limit || 6), 100))`. */
  function PageLimit(l: NumParam): (n: int)
    ensures 1 <= n <= MaxPageSize
    ensures l.Given? && 1 <= l.n <= MaxPageSize ==> n == l.n
    ensures l.Given? && l.n > MaxPageSize ==> n == MaxPageSize
    ensures l.Given? && l.n < 1 ==> n == 1
    ensures !l.Given? ==> n == DefaultPageSize
  {
    match l
    case Given(k) =>
      var m := if k < MaxPageSize then k else MaxPageSize;
      if m > 1 then m else 1
    case _ => DefaultPageSize
  }

  /** `Math.ceil(total / limit)`: the least page count whose pages hold every task. */
  function TotalPages(total: nat, limit: int): (p: nat)
    requires limit >= 1
    ensures total <= p * limit
    ensures p == 0 || (p - 1) * limit < total
  {
    var q := (total + limit - 1) / limit;
    assert q * limit + (total + limit - 1) % limit == total + limit - 1;
    q
  }

  /** The tasks the database returns after `skip(skip).limit(limit)`. */
  function Window(s: seq<Task>, skip: nat, limit: nat): (r: seq<Task>)
    ensures |r| <= limit
    ensures skip >= |s| ==> r == []
    ensures skip < |s| ==> |r| == (if skip + limit <= |s| then limit else |s| - skip)
    ensures forall k :: 0 <= k < |r| ==> r[k] == s[skip + k]
  {
    if skip >= |s| then []
    else if skip + limit <= |s| then s[skip..skip + limit]
    else s[skip..]
  }

  datatype Pagination = Pagination(
    currentPage: int,
    totalPages: nat,
    totalTasks: nat,
    limit: int,
    hasNextPage: bool,
    hasPrevPage: bool)

  /** A listing answer: the plain array, or a page with its metadata. */
  datatype Listing = Plain(tasks: seq<Task>) | Paged(tasks: seq<Task>, pagination: Pagination)

  /** Every stored task that matches the query, in the query's order. */
  function Matching(all: seq<Task>, q: ListQuery): (r: seq<Task>)
    ensures Sorted(r, SortModeOf(q.sort))
    ensures forall x :: x in r <==> x in all && Matches(x, BuildFilter(q))
    ensures multiset(r) == multiset(Select(all, BuildFilter(q)))
  {
    Sort(Select(all, BuildFilter(q)), SortModeOf(q.sort))
  }

  /** The page-`pageNum` slice of `matching` with its metadata. */
  function Paginate(matching: seq<Task>, pageNum: int, limitNum: int): (r: Listing)
    requires pageNum >= 1 && 1 <= limitNum
    ensures r.Paged?
    ensures var p := r.pagination;
      && p.totalTasks == |matching| && p.currentPage == pageNum && p.limit == limitNum
      && |r.tasks| <= limitNum
      && p.totalTasks <= p.totalPages * p.limit
      && (p.totalPages == 0 || (p.totalPages - 1) * p.limit < p.totalTasks)
      && (p.hasNextPage <==> pageNum < p.totalPages)
      && (p.hasPrevPage <==> pageNum > 1)
      && r.tasks == Window(matching, (pageNum - 1) * limitNum, limitNum)
  {
    var skip := (pageNum - 1) * limitNum;
    var totalPages := TotalPages(|matching|, limitNum);
    Paged(Window(matching, skip, limitNum),
          Pagination(pageNum, totalPages, |matching|, limitNum, pageNum < totalPages, pageNum > 1))
  }

  /** `getTasks` once the store's tasks (in natural order) are at hand. */
  function ListTasks(all: seq<Task>, q: ListQuery): (r: Listing)
    ensures r.Plain? <==> !Paginated(q)
    ensures r.Plain? ==> r.tasks == Matching(all, q)
    ensures r.Paged? ==> r == Paginate(Matching(all, q), PageNumber(q.page), PageLimit(q.limit))
    ensures r.Paged? ==> && r.pagination.totalTasks == |Select(all, BuildFilter(q))|
                         && 1 <= r.pagination.limit <= MaxPageSize && r.pagination.currentPage >= 1
  {
    var matching := Matching(all, q);
    if Paginated(q) then
      Paginate(matching, PageNumber(q.page), PageLimit(q.limit))
    else
      Plain(matching)
  }

  lemma MulStrictMono(a: int, b: int, l: int)
    requires l >= 1 && a * l < b * l
    ensures a < b
  {
  }

  lemma MulMono(a: int, b: int, l: int)
    requires l >= 1 && a <= b
    ensures a * l <= b * l
  {
    assert b * l - a * l == (b - a) * l;
  }

  /** A page holds tasks exactly when its number is at most the page count. */
  lemma PageNonEmptyIff(n: nat, page: int, limit: int)
    requires page >= 1 && limit >= 1
    ensures (page - 1) * limit < n <==> page <= TotalPages(n, limit)
  {
    var t := TotalPages(n, limit);
    if (page - 1) * limit < n {
      assert (page - 1) * limit < t * limit;
      MulStrictMono(page - 1, t, limit);
    }
    if page <= t {
      MulMono(page - 1, t - 1, limit);
    }
  }

  /** There is a next page exactly when tasks remain after this one. */
  lemma HasNextIffMoreRemain(n: nat, page: int, limit: int)
    requires page >= 1 && limit >= 1
    ensures page < TotalPages(n, limit) <==> page * limit < n
  {
    var t := TotalPages(n, limit);
    if page * limit < n {
      assert page * limit < t * limit;
      MulStrictMono(page, t, limit);
    }
    if page < t {
      MulMono(page, t - 1, limit);
    }
  }

  /** Every matching task appears on exactly the page its position predicts, and pages past the end are empty. */
  lemma PagesCoverMatches(s: seq<Task>, limit: int, k: nat)
    requires limit >= 1 && k < |s|
    ensures var page := k / limit + 1;
      && 1 <= page <= TotalPages(|s|, limit)
      && k % limit < |Window(s, (page - 1) * limit, limit)|
      && Window(s, (page - 1) * limit, limit)[k % limit] == s[k]
  {
    var page := k / limit + 1;
    var skip := (page - 1) * limit;
    assert skip + k % limit == k;
    PageNonEmptyIff(|s|, page, limit);
  }

  /** A paged listing is empty exactly when its page lies past the last one; the totals are reported regardless. */
  lemma PastLastPageIsEmpty(all: seq<Task>, q: ListQuery)
    requires Paginated(q)
    ensures var r := ListTasks(all, q);
      r.Paged? && (r.tasks == [] <==> r.pagination.currentPage > r.pagination.totalPages)
  {
    var r := ListTasks(all, q);
    var p := r.pagination;
    PageNonEmptyIff(p.totalTasks, p.currentPage, p.limit);
  }

  /** Thirteen matches six to a page: three pages of 6, 6 and 1, and an empty fourth. */
  lemma ThirteenTasksSixPerPage(s: seq<Task>)
    requires |s| == 13
    ensures TotalPages(13, 6) == 3
    ensures Window(s, 0, 6) == s[0..6]
    ensures |Window(s, 12, 6)| == 1 && Window(s, 18, 6) == []
    ensures 1 < TotalPages(13, 6) && !(3 < TotalPages(13, 6))
  {
  }
}
