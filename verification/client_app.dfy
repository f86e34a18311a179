/**
 * The earlier single-page client: the list it keeps in memory, how each
 * successful request edits that list, and the listing query it sends.
 */
module ClientApp {
  import opened Wrappers
  import opened TaskModel
  import opened Listing
  import opened ClientRules

  /** `handleAddTask`: on success the created task goes to the front of the list. */
  function AddTask(tasks: seq<Task>, status: int, created: Task): (r: seq<Task>)
    ensures Ok(status) ==> |r| == |tasks| + 1 && r[0] == created && r[1..] == tasks
    ensures !Ok(status) ==> r == tasks
  {
    if Ok(status) then [created] + tasks else tasks
  }

  /** `tasks.map(task => task._id === id ? updated : task)`. */
  function ReplaceById(tasks: seq<Task>, id: Id, updated: Task): (r: seq<Task>)
    ensures |r| == |tasks|
    ensures forall i :: 0 <= i < |tasks| && tasks[i].id == id ==> r[i] == updated
    ensures forall i :: 0 <= i < |tasks| && tasks[i].id != id ==> r[i] == tasks[i]
  {
    if tasks == [] then []
    else [if tasks[0].id == id then updated else tasks[0]] + ReplaceById(tasks[1..], id, updated)
  }

  /** `handleUpdateStatus`: on success every task with that id is replaced by the server's copy. */
  function UpdateStatus(tasks: seq<Task>, id: Id, status: int, updated: Task): (r: seq<Task>)
    ensures Ok(status) ==> r == ReplaceById(tasks, id, updated)
    ensures !Ok(status) ==> r == tasks
  {
    if Ok(status) then ReplaceById(tasks, id, updated) else tasks
  }

  /** `xs` can be obtained from `ys` by dropping elements, keeping the order. */
  predicate IsSubsequence(xs: seq<Task>, ys: seq<Task>)
    decreases |ys|
  {
    if xs == [] then true
    else if ys == [] then false
    else if xs[0] == ys[0] then IsSubsequence(xs[1..], ys[1..])
    else IsSubsequence(xs, ys[1..])
  }

  /** `tasks.filter(task => task._id !== id)`. */
  function WithoutId(tasks: seq<Task>, id: Id): (r: seq<Task>)
    ensures forall t: Task :: t in r <==> t in tasks && t.id != id
    ensures forall t: Task :: t.id != id ==> multiset(r)[t] == multiset(tasks)[t]
    ensures IsSubsequence(r, tasks)
  {
    if tasks == [] then []
    else
      var rest := WithoutId(tasks[1..], id);
      assert tasks == [tasks[0]] + tasks[1..];
      if tasks[0].id != id then
        assert ([tasks[0]] + rest)[1..] == rest;
        [tasks[0]] + rest
      else
        SubsequenceSkip(rest, tasks);
        rest
  }

  /** Dropping the head of the longer sequence keeps a subsequence. */
  lemma SubsequenceSkip(xs: seq<Task>, ys: seq<Task>)
    requires ys != [] && IsSubsequence(xs, ys[1..])
    ensures IsSubsequence(xs, ys)
    decreases |ys|, 0
  {
    if xs != [] && xs[0] == ys[0] {
      SubsequenceTail(xs, ys[1..]);
    }
  }

  /** A subsequence stays one when its head is dropped. */
  lemma SubsequenceTail(xs: seq<Task>, ys: seq<Task>)
    requires xs != [] && IsSubsequence(xs, ys)
    ensures IsSubsequence(xs[1..], ys)
    decreases |ys|, 1
  {
    if xs[0] == ys[0] {
      if xs[1..] != [] {
        SubsequenceTail(xs[1..], ys[1..]);
        SubsequenceSkip(xs[1..], ys);
      }
    } else {
      SubsequenceTail(xs, ys[1..]);
      if xs[1..] != [] {
        SubsequenceSkip(xs[1..], ys);
      }
    }
  }

  /** `handleDeleteTask`: on success every task with that id leaves the list, the rest stay in order. */
  function DeleteTask(tasks: seq<Task>, id: Id, status: int): (r: seq<Task>)
    ensures Ok(status) ==> r == WithoutId(tasks, id) && forall t :: t in r ==> t.id != id
    ensures !Ok(status) ==> r == tasks
  {
    if Ok(status) then WithoutId(tasks, id) else tasks
  }

  /** A list without tasks carrying `id` is left as it is by the filter. */
  lemma {:induction false} WithoutAbsentId(tasks: seq<Task>, id: Id)
    requires forall t :: t in tasks ==> t.id != id
    ensures WithoutId(tasks, id) == tasks
  {
    if tasks != [] {
      assert tasks[0] in tasks;
      assert forall t :: t in tasks[1..] ==> t in tasks;
      WithoutAbsentId(tasks[1..], id);
      assert tasks == [tasks[0]] + tasks[1..];
    }
  }

  /** Deleting a task just added under a new id gives back the list as it was. */
  lemma DeleteUndoesAdd(tasks: seq<Task>, status: int, created: Task)
    requires Ok(status)
    requires forall t :: t in tasks ==> t.id != created.id
    ensures DeleteTask(AddTask(tasks, status, created), created.id, status) == tasks
  {
    WithoutAbsentId(tasks, created.id);
  }

  /** Applying the same server copy twice is applying it once, and every position keeps its id. */
  lemma ReplaceByIdIdempotent(tasks: seq<Task>, updated: Task)
    ensures ReplaceById(ReplaceById(tasks, updated.id, updated), updated.id, updated)
         == ReplaceById(tasks, updated.id, updated)
    ensures forall i :: 0 <= i < |tasks| ==> ReplaceById(tasks, updated.id, updated)[i].id == tasks[i].id
  {
  }

  /** The list this client asks for: the non-empty filters and the sort, never `page` or `limit`. */
  function ListingQuery(filterStatus: string, filterPriority: string, sortBy: string): (q: ListQuery)
    ensures q.status.Some? <==> filterStatus != []
    ensures q.status.Some? ==> q.status.value == filterStatus
    ensures q.priority.Some? <==> filterPriority != []
    ensures q.priority.Some? ==> q.priority.value == filterPriority
    ensures q.sort.Some? <==> sortBy != []
    ensures q.sort.Some? ==> q.sort.value == sortBy
    ensures q.search.None?
  {
    ListQuery(
      if filterStatus != [] then Some(filterStatus) else None,
      if filterPriority != [] then Some(filterPriority) else None,
      if sortBy != [] then Some(sortBy) else None,
      Missing, Missing, None)
  }

  /** The server answers this client's query with a plain array of every matching task. */
  lemma ClientGetsPlainArray(all: seq<Task>, filterStatus: string, filterPriority: string, sortBy: string)
    ensures var q := ListingQuery(filterStatus, filterPriority, sortBy);
      ListTasks(all, q) == Plain(Matching(all, q))
  {
  }
}
