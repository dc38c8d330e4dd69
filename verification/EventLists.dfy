/** The list discipline shared by every kernel component: a list of entries kept in ascending item
    value order by `vListInsert`, and a ring with a walking index used by `vListInsertEnd` and
    `listGET_OWNER_OF_NEXT_ENTRY`.  This module is about values; module IntrusiveList proves that
    the pointer structure behaves exactly like these values. */
module EventLists {

  /** The largest TickType_t, which is also the item value of every list's end marker. */
  const PORT_MAX_DELAY: nat := 0xFFFF_FFFF

  datatype Entry<+T> = Entry(value: nat, owner: T)

  ghost predicate Sorted<T>(s: seq<Entry<T>>) {
    forall i, j :: 0 <= i < j < |s| ==> s[i].value <= s[j].value
  }

  ghost predicate DistinctOwners<T>(s: seq<Entry<T>>) {
    forall i, j :: 0 <= i < j < |s| ==> s[i].owner != s[j].owner
  }

  ghost predicate Holds<T>(s: seq<Entry<T>>, x: T) {
    exists i :: 0 <= i < |s| && s[i].owner == x
  }

  /** Where a scan from the head stops: at the first entry whose value exceeds `v`. */
  function Position<T>(s: seq<Entry<T>>, v: nat): (p: nat)
    ensures p <= |s|
    ensures forall i :: 0 <= i < p ==> s[i].value <= v
    ensures p < |s| ==> s[p].value > v
  {
    if s == [] || s[0].value > v then 0 else 1 + Position(s[1..], v)
  }

  function SortedInsert<T>(s: seq<Entry<T>>, e: Entry<T>): (r: seq<Entry<T>>)
    ensures |r| == |s| + 1
  {
    InsertAt(s, Position(s, e.value), e)
  }

  function InsertAt<T>(s: seq<T>, p: nat, e: T): (r: seq<T>)
    requires p <= |s|
    ensures |r| == |s| + 1
    ensures forall j :: 0 <= j < |r| ==> r[j] == if j < p then s[j] else if j == p then e else s[j - 1]
  {
    s[..p] + [e] + s[p..]
  }

  function RemoveAt<T>(s: seq<T>, k: nat): (r: seq<T>)
    requires k < |s|
    ensures |r| == |s| - 1
    ensures forall j :: 0 <= j < |r| ==> r[j] == s[if j < k then j else j + 1]
  {
    s[..k] + s[k + 1..]
  }

  /** Index of the entry owned by `x`, or the length of the list. */
  function Find<T(==)>(s: seq<Entry<T>>, x: T): (k: nat)
    ensures k <= |s|
    ensures k < |s| ==> s[k].owner == x
    ensures forall i :: 0 <= i < k ==> s[i].owner != x
  {
    if s == [] || s[0].owner == x then 0 else 1 + Find(s[1..], x)
  }

  function Without<T(==)>(s: seq<Entry<T>>, x: T): (r: seq<Entry<T>>) {
    var k := Find(s, x);
    if k < |s| then RemoveAt(s, k) else s
  }

  lemma PositionUnique<T>(s: seq<Entry<T>>, v: nat, p: nat)
    requires p <= |s|
    requires forall i :: 0 <= i < p ==> s[i].value <= v
    requires p < |s| ==> s[p].value > v
    ensures p == Position(s, v)
  {
    var q := Position(s, v);
    assert !(p < q);
  }

  /** In a sorted list everything from the insertion position on is strictly larger. */
  lemma PositionSplits<T>(s: seq<Entry<T>>, v: nat, i: nat)
    requires Sorted(s) && i < |s|
    ensures i < Position(s, v) <==> s[i].value <= v
  {
    var p := Position(s, v);
    if p <= i {
      assert s[p].value <= s[i].value;
    }
  }

  /** Insertion keeps the order, and an entry goes behind every entry with an equal value, so
      equal values are served first come, first served. */
  lemma InsertKeepsOrder<T>(s: seq<Entry<T>>, e: Entry<T>)
    requires Sorted(s)
    ensures Sorted(SortedInsert(s, e))
    ensures var p := Position(s, e.value); var r := SortedInsert(s, e);
            && r[p] == e
            && (forall i :: 0 <= i < |r| && r[i].value == e.value ==> i <= p)
  {
    var p, r := Position(s, e.value), SortedInsert(s, e);
    forall i, j | 0 <= i < j < |r| ensures r[i].value <= r[j].value {
      if j == p {
        PositionSplits(s, e.value, i);
      } else if i == p {
        PositionSplits(s, e.value, j - 1);
      }
    }
    forall i | p < i < |r| ensures r[i].value > e.value {
      PositionSplits(s, e.value, i - 1);
    }
  }

  /** An entry beyond `v` does not move the place of `v`. */
  lemma InsertBeyond<T>(s: seq<Entry<T>>, e: Entry<T>, v: nat)
    requires Sorted(s) && e.value > v
    ensures Position(SortedInsert(s, e), v) == Position(s, v)
  {
    var n, p := Position(s, v), Position(s, e.value);
    if n < |s| && p <= n {
      assert s[p].value > v;
    }
    assert !(p < n);
    PositionUnique(SortedInsert(s, e), v, n);
  }

  lemma InsertOwners<T>(s: seq<Entry<T>>, e: Entry<T>, x: T)
    ensures Holds(SortedInsert(s, e), x) <==> Holds(s, x) || x == e.owner
  {
    var p, r := Position(s, e.value), SortedInsert(s, e);
    assert r[p] == e;
    if i: nat :| i < |s| && s[i].owner == x {
      assert r[if i < p then i else i + 1].owner == x;
    }
  }

  lemma InsertDistinct<T>(s: seq<Entry<T>>, e: Entry<T>)
    requires DistinctOwners(s) && !Holds(s, e.owner)
    ensures DistinctOwners(SortedInsert(s, e))
  {
    var p, r := Position(s, e.value), SortedInsert(s, e);
    forall i, j | 0 <= i < j < |r| ensures r[i].owner != r[j].owner {
      if j == p {
        assert s[i].owner != e.owner;
      } else if i == p {
        assert s[j - 1].owner != e.owner;
      }
    }
  }

  lemma RemoveOwners<T>(s: seq<Entry<T>>, x: T, y: T)
    requires DistinctOwners(s)
    ensures Holds(Without(s, x), y) <==> y != x && Holds(s, y)
  {
    var k, r := Find(s, x), Without(s, x);
    if k < |s| {
      if i: nat :| i < |s| && s[i].owner == y && y != x {
        assert r[if i < k then i else i - 1].owner == y;
      }
    }
  }

  lemma RemoveKeeps<T>(s: seq<Entry<T>>, x: T)
    requires DistinctOwners(s)
    ensures DistinctOwners(Without(s, x))
    ensures Sorted(s) ==> Sorted(Without(s, x))
  {
    var k := Find(s, x);
    if k < |s| {
      var r := RemoveAt(s, k);
      forall i, j | 0 <= i < j < |r|
        ensures r[i].owner != r[j].owner && (Sorted(s) ==> r[i].value <= r[j].value)
      {
        var i', j' := if i < k then i else i + 1, if j < k then j else j + 1;
        assert r[i] == s[i'] && r[j] == s[j'] && i' < j';
      }
    }
  }

  lemma FindUnique<T>(s: seq<Entry<T>>, x: T, k: nat)
    requires k <= |s| && (k < |s| ==> s[k].owner == x)
    requires forall i :: 0 <= i < k ==> s[i].owner != x
    ensures k == Find(s, x)
  {
    var j := Find(s, x);
    assert !(j < k) && !(k < j);
  }

  // Two lists end to end.

  lemma InsertInFront<T>(a: seq<Entry<T>>, b: seq<Entry<T>>, e: Entry<T>)
    requires forall i :: 0 <= i < |b| ==> b[i].value > e.value
    ensures SortedInsert(a + b, e) == SortedInsert(a, e) + b
  {
    hide Position, InsertAt;
    var p := Position(a, e.value);
    PositionUnique(a + b, e.value, p);
    InsertAtInFront(a, b, p, e);
  }

  lemma InsertAtInFront<T>(a: seq<T>, b: seq<T>, p: nat, e: T)
    requires p <= |a|
    ensures InsertAt(a + b, p, e) == InsertAt(a, p, e) + b
  {
    var r, q := InsertAt(a + b, p, e), InsertAt(a, p, e);
    forall i | 0 <= i < |r| ensures r[i] == (q + b)[i] {
    }
  }

  lemma InsertBehind<T>(a: seq<Entry<T>>, b: seq<Entry<T>>, e: Entry<T>)
    requires forall i :: 0 <= i < |a| ==> a[i].value <= e.value
    ensures SortedInsert(a + b, e) == a + SortedInsert(b, e)
  {
    var p := Position(b, e.value);
    PositionUnique(a + b, e.value, |a| + p);
  }

  lemma NotInBoth<T>(a: seq<Entry<T>>, b: seq<Entry<T>>, j: nat, k: nat)
    requires DistinctOwners(a + b) && j < |a| && k < |b|
    ensures a[j].owner != b[k].owner
  {
    assert (a + b)[j] == a[j] && (a + b)[|a| + k] == b[k];
  }

  lemma WithoutBoth<T>(a: seq<Entry<T>>, b: seq<Entry<T>>, x: T)
    requires DistinctOwners(a + b)
    ensures Without(a + b, x) == Without(a, x) + Without(b, x)
  {
    hide DistinctOwners, RemoveAt, Find;
    var j, k := Find(a, x), Find(b, x);
    if j < |a| {
      FindUnique(a + b, x, j);
      if k < |b| {
        NotInBoth(a, b, j, k);
      }
      RemoveAtInFront(a, b, j);
    } else {
      FindUnique(a + b, x, |a| + k);
      if k < |b| {
        RemoveAtBehind(a, b, k);
      }
    }
  }

  lemma RemoveAtInFront<T>(a: seq<T>, b: seq<T>, k: nat)
    requires k < |a|
    ensures RemoveAt(a + b, k) == RemoveAt(a, k) + b
  {
  }

  lemma RemoveAtBehind<T>(a: seq<T>, b: seq<T>, k: nat)
    requires k < |b|
    ensures RemoveAt(a + b, |a| + k) == a + RemoveAt(b, k)
  {
  }

  lemma CutAgain<T>(a: seq<T>, b: seq<T>)
    ensures (a + b)[..|a|] == a && (a + b)[|a|..] == b
  {
  }

  // ---------------------------------------------------------------- the walking index

  /** A list together with its `pxIndex`: 0 stands for the end marker and i for the i-th item. */
  datatype Ring<+T> = Ring(items: seq<Entry<T>>, at: nat) {
    ghost predicate Valid() { at <= |items| }

    function InsertEnd(e: Entry<T>): (r: Ring<T>)
      requires at <= |items|
    {
      if at == 0 then Ring(items + [e], 0) else Ring(InsertAt(items, at - 1, e), at + 1)
    }

    function Insert(e: Entry<T>): (r: Ring<T>)
      requires at <= |items|
    {
      var p := Position(items, e.value);
      Ring(InsertAt(items, p, e), if at > p then at + 1 else at)
    }

    function Remove(k: nat): (r: Ring<T>)
      requires k < |items| && at <= |items|
    {
      Ring(RemoveAt(items, k), if at > k then at - 1 else at)
    }

    function Next(): (r: Ring<T>)
      requires items != []
    {
      Ring(items, NextAt(|items|, at))
    }
  }

  function NextAt(n: nat, at: nat): nat {
    if at < n then at + 1 else 1
  }

  /** The index after `k` calls of listGET_OWNER_OF_NEXT_ENTRY on an unchanged list of n items. */
  function Walk(n: nat, at: nat, k: nat): nat {
    if k == 0 then at else NextAt(n, Walk(n, at, k - 1))
  }

  lemma {:induction false} WalkClosedForm(n: nat, at: nat, k: nat)
    requires 0 < n && at <= n && 0 < k <= n
    ensures Walk(n, at, k) == if at + k <= n then at + k else at + k - n
  {
    if k > 1 {
      WalkClosedForm(n, at, k - 1);
    } else {
      assert Walk(n, at, 0) == at;
    }
  }

  /** n successive calls return each of the n items exactly once, wherever the index starts. */
  lemma EachServedOnce(n: nat, at: nat, p: nat)
    requires 0 < n && at <= n && 1 <= p <= n
    ensures exists k :: 1 <= k <= n && Walk(n, at, k) == p
    ensures forall k, l :: 1 <= k <= n && 1 <= l <= n && Walk(n, at, k) == p == Walk(n, at, l) ==> k == l
  {
    forall k: nat | 1 <= k <= n ensures Walk(n, at, k) == if at + k <= n then at + k else at + k - n {
      WalkClosedForm(n, at, k);
    }
    var k := if at < p then p - at else p - at + n;
    assert Walk(n, at, k) == p;
  }

  /** An item added by vListInsertEnd is served after all the others: last when the index is on the
      end marker, and otherwise last but one, just before the item the index was on. */
  lemma InsertEndServedLast<T>(r: Ring<T>, e: Entry<T>, k: nat)
    requires r.Valid()
    requires 1 <= k <= |r.items| + 1
    ensures var r' := r.InsertEnd(e);
            var p := if r.at == 0 then |r'.items| else r.at;
            && r'.Valid() && r'.items[p - 1] == e
            && (Walk(|r'.items|, r'.at, k) == p <==> k == if r.at == 0 then |r'.items| else |r'.items| - 1)
            && (r.at != 0 ==> r'.items[r'.at - 1] == r.items[r.at - 1])
            && (r.at != 0 ==> (Walk(|r'.items|, r'.at, k) == r'.at <==> k == |r'.items|))
  {
    WalkClosedForm(|r.items| + 1, r.InsertEnd(e).at, k);
  }

  /** Removing any item, even the one the index is on, does not change who is served next, unless
      that very item was to be next. */
  lemma RemoveKeepsTurn<T>(r: Ring<T>, k: nat)
    requires r.Valid() && k < |r.items| && |r.items| > 1
    ensures r.Remove(k).Valid()
    ensures var n := r.Next(); var m := r.Remove(k).Next();
            n.at - 1 != k ==> m.items[m.at - 1] == n.items[n.at - 1]
  {
  }
}
