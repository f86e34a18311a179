/**
 * The task collection as the controller sees it: a map from id to task plus
 * the collection's natural (insertion) order, with insert, lookup, replace,
 * remove and count.
 */
module Store {
  import opened Wrappers
  import opened TaskModel

  datatype Store = Store(order: seq<Id>, records: map<Id, Task>)

  /** No id is listed twice. */
  predicate Distinct(s: seq<Id>) {
    forall i, j :: 0 <= i < j < |s| ==> s[i] != s[j]
  }

  /** Each record sits under its own id and is well formed. */
  ghost predicate RecordsWellFormed(records: map<Id, Task>) {
    forall id :: id in records ==> records[id].id == id && WellFormed(records[id])
  }

  /** The order lists each stored id exactly once, and every record is well formed. */
  ghost predicate Valid(st: Store) {
    && Distinct(st.order)
    && (forall id :: id in st.order <==> id in st.records)
    && RecordsWellFormed(st.records)
  }

  const Empty := Store([], map[])

  /** `countDocuments({})`. */
  function Count(st: Store): (n: nat)
    requires Valid(st)
    ensures n == |st.order|
  {
    DistinctCard(st.order, st.records);
    |st.records|
  }

  lemma {:induction false} DistinctCard(s: seq<Id>, m: map<Id, Task>)
    requires Distinct(s) && forall id :: id in s <==> id in m
    ensures |m| == |s|
  {
    if s == [] {
      assert m.Keys == {};
    } else {
      var rest := s[1..];
      var m' := m - {s[0]};
      assert Distinct(rest) by {
        forall i, j | 0 <= i < j < |rest| ensures rest[i] != rest[j] {
          assert rest[i] == s[i + 1] && rest[j] == s[j + 1];
        }
      }
      forall id ensures id in rest <==> id in m' {
        if id in rest {
          var j :| 0 <= j < |rest| && rest[j] == id;
          assert s[j + 1] == id;
        }
        if id in m' {
          assert id in s && id != s[0];
        }
      }
      DistinctCard(rest, m');
      assert m.Keys == m'.Keys + {s[0]};
    }
  }

  function Lookup(st: Store, id: Id): (r: Option<Task>)
    ensures r.Some? <==> id in st.records
    ensures r.Some? ==> r.value == st.records[id]
  {
    if id in st.records then Some(st.records[id]) else None
  }

  /** Stores a new task under a fresh id, at the end of the natural order. */
  function Insert(st: Store, t: Task): (r: Store)
    requires Valid(st) && t.id !in st.records && WellFormed(t)
    ensures Valid(r)
    ensures r.records == st.records[t.id := t]
    ensures Count(r) == Count(st) + 1
  {
    Store(st.order + [t.id], st.records[t.id := t])
  }

  /** Replaces a stored task by a new version under the same id. */
  function Replace(st: Store, t: Task): (r: Store)
    requires Valid(st) && t.id in st.records && WellFormed(t)
    ensures Valid(r)
    ensures r.records == st.records[t.id := t] && r.order == st.order
  {
    ReplaceKeepsValid(st, t);
    Store(st.order, st.records[t.id := t])
  }

  lemma ReplaceKeepsValid(st: Store, t: Task)
    requires Valid(st) && t.id in st.records && WellFormed(t)
    ensures Valid(Store(st.order, st.records[t.id := t]))
  {
    UpdateKeepsKeys(st.order, st.records, t);
    UpdateKeepsWellFormed(st.records, t);
    ValidFromParts(Store(st.order, st.records[t.id := t]));
  }

  lemma ValidFromParts(st: Store)
    requires Distinct(st.order)
    requires forall id :: id in st.order <==> id in st.records
    requires RecordsWellFormed(st.records)
    ensures Valid(st)
  {
  }

  lemma UpdateKeepsKeys(order: seq<Id>, records: map<Id, Task>, t: Task)
    requires t.id in records && forall id :: id in order <==> id in records
    ensures forall id :: id in order <==> id in records[t.id := t]
  {
    assert records[t.id := t].Keys == records.Keys;
  }

  lemma UpdateKeepsWellFormed(records: map<Id, Task>, t: Task)
    requires RecordsWellFormed(records) && WellFormed(t)
    ensures RecordsWellFormed(records[t.id := t])
  {
    var updated := records[t.id := t];
    forall id | id in updated ensures updated[id].id == id && WellFormed(updated[id]) {
      if id != t.id { assert updated[id] == records[id]; }
    }
  }

  /** The list without `id`; an absent id leaves the list as it is. */
  function RemoveId(s: seq<Id>, id: Id): (r: seq<Id>)
    ensures forall x :: x in r <==> x in s && x != id
    ensures Distinct(s) ==> Distinct(r)
    ensures id !in s ==> r == s
  {
    if s == [] then []
    else if s[0] == id then RemoveId(s[1..], id)
    else
      var rest := RemoveId(s[1..], id);
      var r := [s[0]] + rest;
      assert Distinct(s) ==> Distinct(r) by {
        if Distinct(s) {
          assert Distinct(s[1..]);
          assert s[0] !in s[1..];
          assert s[0] !in rest;
          forall i, j | 0 <= i < j < |r| ensures r[i] != r[j] {
            if i == 0 { assert r[j] in rest; } else { assert r[i] == rest[i - 1] && r[j] == rest[j - 1]; }
          }
        }
      }
      assert id !in s ==> r == s by {
        if id !in s { assert s == [s[0]] + s[1..]; }
      }
      r
  }

  /** The tail of a list without repeats has none, and lacks the head. */
  lemma DistinctTail(s: seq<Id>)
    requires Distinct(s) && s != []
    ensures Distinct(s[1..]) && s[0] !in s[1..]
  {
    forall j | 0 <= j < |s[1..]| ensures s[1..][j] != s[0] { assert s[1..][j] == s[j + 1]; }
  }

  /** Where `id` first occurs in `s`. */
  function IndexOf(s: seq<Id>, id: Id): (k: nat)
    requires id in s
    ensures k < |s| && s[k] == id && id !in s[..k]
  {
    if s[0] == id then 0 else 1 + IndexOf(s[1..], id)
  }

  /**
   * In a list without repeats, removing a listed id cuts out its one
   * occurrence: the ids before and after it keep their order.
   */
  lemma {:induction false} RemoveIdCutsOne(s: seq<Id>, id: Id)
    requires Distinct(s) && id in s
    ensures exists k :: 0 <= k < |s| && s[k] == id && RemoveId(s, id) == s[..k] + s[k + 1..]
  {
    RemoveIdCutsAt(s, id);
  }

  /** The same cut, at the first occurrence. */
  lemma {:induction false} RemoveIdCutsAt(s: seq<Id>, id: Id)
    requires Distinct(s) && id in s
    ensures RemoveId(s, id) == s[..IndexOf(s, id)] + s[IndexOf(s, id) + 1..]
  {
    DistinctTail(s);
    if s[0] == id {
      CutAtHead(s, id);
    } else {
      RemoveIdCutsAt(s[1..], id);
      CutPastHead(s, id, IndexOf(s[1..], id));
    }
  }

  /** Removing the head when it occurs nowhere else leaves the tail. */
  lemma CutAtHead(s: seq<Id>, id: Id)
    requires s != [] && s[0] == id && id !in s[1..]
    ensures RemoveId(s, id) == s[..0] + s[1..]
  {
    assert s[..0] + s[1..] == s[1..];
  }

  /** A cut in the tail is a cut one place further on in the whole list. */
  lemma CutPastHead(s: seq<Id>, id: Id, k: nat)
    requires s != [] && s[0] != id && k < |s| - 1
    requires RemoveId(s[1..], id) == s[1..][..k] + s[1..][k + 1..]
    ensures RemoveId(s, id) == s[..k + 1] + s[k + 2..]
  {
    assert RemoveId(s, id) == [s[0]] + RemoveId(s[1..], id);
    assert s == [s[0]] + s[1..];
    ConsSplice(s[0], s[1..], k);
  }

  /** Putting `h` in front commutes with cutting out position `k`. */
  lemma ConsSplice(h: Id, t: seq<Id>, k: nat)
    requires k < |t|
    ensures [h] + (t[..k] + t[k + 1..]) == ([h] + t)[..k + 1] + ([h] + t)[k + 2..]
  {
    assert ([h] + t)[..k + 1] == [h] + t[..k];
    assert ([h] + t)[k + 2..] == t[k + 1..];
  }

  /** Removes one id; every other record is kept, and so is the order of the rest. */
  function Remove(st: Store, id: Id): (r: Store)
    requires Valid(st)
    ensures Valid(r)
    ensures id !in r.records
    ensures forall x :: x != id ==> (x in r.records <==> x in st.records)
    ensures forall x :: x != id && x in st.records ==> r.records[x] == st.records[x]
    ensures id in st.records ==> Count(r) == Count(st) - 1
    ensures id !in st.records ==> r == st
    ensures id in st.records ==> r.order == RemoveId(st.order, id)
    ensures id in st.records ==>
      exists k :: 0 <= k < |st.order| && st.order[k] == id && r.order == st.order[..k] + st.order[k + 1..]
  {
    if id !in st.records then st
    else
      RemoveKeepsValid(st, id);
      RemoveIdCutsOne(st.order, id);
      Store(RemoveId(st.order, id), st.records - {id})
  }

  lemma RemoveKeepsValid(st: Store, id: Id)
    requires Valid(st) && id in st.records
    ensures Valid(Store(RemoveId(st.order, id), st.records - {id}))
    ensures |st.records - {id}| == |st.records| - 1
  {
    RemoveKeepsKeys(st.order, st.records, id);
    RemoveKeepsWellFormed(st.records, id);
  }

  lemma RemoveKeepsKeys(order: seq<Id>, records: map<Id, Task>, id: Id)
    requires id in records && forall x :: x in order <==> x in records
    ensures forall x :: x in RemoveId(order, id) <==> x in records - {id}
    ensures |records - {id}| == |records| - 1
  {
    assert (records - {id}).Keys == records.Keys - {id};
  }

  lemma RemoveKeepsWellFormed(records: map<Id, Task>, id: Id)
    requires RecordsWellFormed(records)
    ensures RecordsWellFormed(records - {id})
  {
    var rest := records - {id};
    forall x | x in rest ensures rest[x].id == x && WellFormed(rest[x]) {
      assert rest[x] == records[x];
    }
  }

  /** The stored tasks in natural order. */
  function Tasks(st: Store): (ts: seq<Task>)
    requires Valid(st)
    ensures |ts| == |st.order|
    ensures forall k :: 0 <= k < |ts| ==> ts[k] == st.records[st.order[k]]
    ensures forall t: Task :: t in ts <==> t.id in st.records && st.records[t.id] == t
  {
    var ts := seq(|st.order|, k requires 0 <= k < |st.order| => st.records[st.order[k]]);
    assert forall t: Task :: t.id in st.records && st.records[t.id] == t ==> t in ts by {
      forall t: Task | t.id in st.records && st.records[t.id] == t ensures t in ts {
        var k :| 0 <= k < |st.order| && st.order[k] == t.id;
        assert ts[k] == t;
      }
    }
    ts
  }
}
