/**
 * The two listing orders: newest first, or by status ascending (as the
 * database compares the wire strings) with newest first among equal
 * statuses. Sorting is a stable insertion sort, so records the order does not
 * separate keep the store's natural order.
 */
module TaskOrder {
  import opened Text
  import opened Constants
  import opened TaskModel

  datatype SortMode = ByDate | ByStatus

  /** A status's position when wire strings are compared: "completed" < "in-progress" < "pending". */
  function StatusRank(s: Status): nat {
    match s
    case Completed => 0
    case InProgress => 1
    case Pending => 2
  }

  /** The rank order is exactly the string order of the wire names. */
  lemma StatusRankIsWireOrder(a: Status, b: Status)
    ensures StatusRank(a) < StatusRank(b) <==> LexLess(StatusName(a), StatusName(b))
    ensures StatusRank(a) == StatusRank(b) <==> a == b
  {
    LexLessIrreflexive(StatusName(a));
    assert StatusName(Completed)[0] == 'c' && StatusName(InProgress)[0] == 'i' && StatusName(Pending)[0] == 'p';
  }

  lemma {:induction false} LexLessIrreflexive(s: string)
    ensures !LexLess(s, s)
  {
    if s != [] {
      LexLessIrreflexive(s[1..]);
    }
  }

  /** `a` may be listed before `b`. */
  predicate Precedes(a: Task, b: Task, mode: SortMode): (r: bool)
    ensures mode.ByDate? ==> (r <==> a.createdAt >= b.createdAt)
    ensures a.status == b.status ==> (r <==> a.createdAt >= b.createdAt)
    ensures mode.ByStatus? && LexLess(StatusName(a.status), StatusName(b.status)) ==> r
    ensures mode.ByStatus? && LexLess(StatusName(b.status), StatusName(a.status)) ==> !r
  {
    StatusRankIsWireOrder(a.status, b.status);
    StatusRankIsWireOrder(b.status, a.status);
    match mode
    case ByDate => a.createdAt >= b.createdAt
    case ByStatus =>
      StatusRank(a.status) < StatusRank(b.status)
      || (a.status == b.status && a.createdAt >= b.createdAt)
  }

  /** Any two tasks are ordered one way or the other. */
  lemma PrecedesTotal(a: Task, b: Task, mode: SortMode)
    ensures Precedes(a, b, mode) || Precedes(b, a, mode)
  {
  }

  predicate Sorted(s: seq<Task>, mode: SortMode) {
    forall i, j :: 0 <= i < j < |s| ==> Precedes(s[i], s[j], mode)
  }

  /** Inserts `t` before the first element it precedes, keeping the sequence sorted. */
  function Insert(t: Task, s: seq<Task>, mode: SortMode): (r: seq<Task>)
    requires Sorted(s, mode)
    ensures Sorted(r, mode)
    ensures multiset(r) == multiset(s) + multiset{t}
  {
    if s == [] then [t]
    else if Precedes(t, s[0], mode) then [t] + s
    else
      var rest := Insert(t, s[1..], mode);
      HeadPrecedesInserted(t, s, rest, mode);
      SortedCons(s[0], rest, mode);
      assert s == [s[0]] + s[1..];
      [s[0]] + rest
  }

  /** When `t` does not go first, the head of `s` precedes `t` and everything after it. */
  lemma HeadPrecedesInserted(t: Task, s: seq<Task>, rest: seq<Task>, mode: SortMode)
    requires Sorted(s, mode) && s != [] && !Precedes(t, s[0], mode)
    requires multiset(rest) == multiset(s[1..]) + multiset{t}
    ensures forall x :: x in rest ==> Precedes(s[0], x, mode)
  {
    PrecedesTotal(t, s[0], mode);
    forall x | x in rest ensures Precedes(s[0], x, mode) {
      assert x in multiset(rest);
      if x != t {
        assert x in multiset(s[1..]);
        var k :| 0 <= k < |s[1..]| && s[1..][k] == x;
        assert s[k + 1] == x;
      }
    }
  }

  /** A sorted sequence stays sorted behind a task that precedes all of it. */
  lemma SortedCons(h: Task, rest: seq<Task>, mode: SortMode)
    requires Sorted(rest, mode) && forall x :: x in rest ==> Precedes(h, x, mode)
    ensures Sorted([h] + rest, mode)
  {
    var r := [h] + rest;
    forall i, j | 0 <= i < j < |r| ensures Precedes(r[i], r[j], mode) {
      if i == 0 {
        assert r[j] == rest[j - 1];
        assert r[j] in rest;
      } else {
        assert r[i] == rest[i - 1] && r[j] == rest[j - 1];
      }
    }
  }

  /** Sorts `s` into `mode` order; the result is a permutation of `s`. */
  function Sort(s: seq<Task>, mode: SortMode): (r: seq<Task>)
    ensures Sorted(r, mode)
    ensures multiset(r) == multiset(s)
    ensures |r| == |s|
  {
    if s == [] then []
    else
      assert s == [s[0]] + s[1..];
      Insert(s[0], Sort(s[1..], mode), mode)
  }

  /** Under the status order, every task of a smaller wire status comes first. */
  lemma StatusOrderGroupsByWireString(s: seq<Task>, i: nat, j: nat)
    requires Sorted(s, ByStatus) && i < |s| && j < |s|
    requires LexLess(StatusName(s[i].status), StatusName(s[j].status))
    ensures i < j
  {
    StatusRankIsWireOrder(s[i].status, s[j].status);
  }
}
