/** The kernel's circular doubly linked list (list.c, list.h), with its end marker and its walking
    index, proved against the values of module EventLists. */
module IntrusiveList {
  import opened EventLists

  class ListItem {
    var xItemValue: nat
    var pxNext: ListItem?
    var pxPrevious: ListItem?
    var pvOwner: object?
    var pxContainer: List?

    constructor (value: nat, owner: object?)
      ensures xItemValue == value && pvOwner == owner && pxContainer == null
    {
      xItemValue, pvOwner := value, owner;
      pxNext, pxPrevious, pxContainer := null, null, null;
    }
  }

  ghost predicate Distinct<T>(s: seq<T>) {
    forall i, j :: 0 <= i < j < |s| ==> s[i] != s[j]
  }

  function Succ(n: nat, i: nat): nat { if i + 1 < n then i + 1 else 0 }
  function Pred(n: nat, i: nat): nat { if i > 0 then i - 1 else if n > 0 then n - 1 else 0 }

  /** The items of `c` form a ring in both directions, except perhaps that position `a` lacks its
      successor and position `b` its predecessor. */
  ghost predicate CircularBut(c: seq<ListItem>, a: int, b: int)
    reads c
  {
    && (forall i {:trigger c[i].pxNext} :: 0 <= i < |c| && i != a ==> c[i].pxNext == c[Succ(|c|, i)])
    && (forall i {:trigger c[i].pxPrevious} :: 0 <= i < |c| && i != b ==> c[i].pxPrevious == c[Pred(|c|, i)])
  }

  ghost predicate Circular(c: seq<ListItem>)
    reads c
  {
    CircularBut(c, -1, -1)
  }

  ghost predicate Joined(a: ListItem, b: ListItem)
    reads a, b
  {
    a.pxNext == b && b.pxPrevious == a
  }

  /** Joining `x` between positions q - 1 and q of a ring makes the longer ring. */
  lemma Splice(c: seq<ListItem>, q: nat, x: ListItem)
    requires Distinct(c) && 1 <= q <= |c| && x !in c
    requires CircularBut(c, q - 1, Succ(|c|, q - 1))
    requires Joined(c[q - 1], x) && Joined(x, c[Succ(|c|, q - 1)])
    ensures Circular(InsertAt(c, q, x)) && Distinct(InsertAt(c, q, x))
  {
    hide Distinct;
    var d := InsertAt(c, q, x);
    forall i | 0 <= i < |d| ensures d[i].pxNext == d[Succ(|d|, i)] {
      SplicedNext(c, q, x, i);
    }
    forall i | 0 <= i < |d| ensures d[i].pxPrevious == d[Pred(|d|, i)] {
      SplicedPrevious(c, q, x, i);
    }
    DistinctWith(c, q, x);
  }

  lemma SplicedNext(c: seq<ListItem>, q: nat, x: ListItem, i: nat)
    requires 1 <= q <= |c| && CircularBut(c, q - 1, Succ(|c|, q - 1)) && i <= |c|
    requires Joined(c[q - 1], x) && Joined(x, c[Succ(|c|, q - 1)])
    ensures var d := InsertAt(c, q, x); d[i].pxNext == d[Succ(|d|, i)]
  {
    if i < q { assert InsertAt(c, q, x)[i] == c[i]; } else if i > q { assert InsertAt(c, q, x)[i] == c[i - 1]; }
  }

  lemma SplicedPrevious(c: seq<ListItem>, q: nat, x: ListItem, i: nat)
    requires 1 <= q <= |c| && CircularBut(c, q - 1, Succ(|c|, q - 1)) && i <= |c|
    requires Joined(c[q - 1], x) && Joined(x, c[Succ(|c|, q - 1)])
    ensures var d := InsertAt(c, q, x); d[i].pxPrevious == d[Pred(|d|, i)]
  {
    if i < q { assert InsertAt(c, q, x)[i] == c[i]; } else if i > q { assert InsertAt(c, q, x)[i] == c[i - 1]; }
  }

  lemma DistinctWith(c: seq<ListItem>, q: nat, x: ListItem)
    requires Distinct(c) && q <= |c| && x !in c
    ensures Distinct(InsertAt(c, q, x))
  {
  }

  /** Joining the neighbours of position q of a ring makes the shorter ring. */
  lemma Unsplice(c: seq<ListItem>, q: nat)
    requires Distinct(c) && 1 <= q < |c|
    requires CircularBut(c, q - 1, Succ(|c|, q))
    requires Joined(c[q - 1], c[Succ(|c|, q)])
    ensures Circular(RemoveAt(c, q)) && Distinct(RemoveAt(c, q))
  {
    var d := RemoveAt(c, q);
    forall i | 0 <= i < |d| ensures d[i].pxNext == d[Succ(|d|, i)] {
      assert d[i] == c[if i < q then i else i + 1];
    }
    forall i | 0 <= i < |d| ensures d[i].pxPrevious == d[Pred(|d|, i)] {
      assert d[i] == c[if i < q then i else i + 1];
    }
  }

  /** All but the end marker, and perhaps the one at `k`, are items of the list. */
  ghost predicate MembersBut(c: seq<ListItem>, k: int, l: List)
    reads c
  {
    forall i :: 1 <= i < |c| && i != k ==> c[i].pxContainer == l && c[i].xItemValue <= PORT_MAX_DELAY
  }

  lemma MembersAfterRemoval(c: seq<ListItem>, k: nat, l: List)
    requires 1 <= k < |c| && MembersBut(c, k, l)
    ensures MembersBut(RemoveAt(c, k), -1, l)
  {
    var d := RemoveAt(c, k);
    forall i | 1 <= i < |d| ensures d[i].pxContainer == l && d[i].xItemValue <= PORT_MAX_DELAY {
      assert d[i] == c[if i < k then i else i + 1];
    }
  }

  lemma MembersAfterInsertion(c: seq<ListItem>, q: nat, x: ListItem, l: List)
    requires 1 <= q <= |c| && MembersBut(c, -1, l) && x.pxContainer == l && x.xItemValue <= PORT_MAX_DELAY
    ensures MembersBut(InsertAt(c, q, x), -1, l)
  {
    var d := InsertAt(c, q, x);
    forall i | 1 <= i < |d| ensures d[i].pxContainer == l && d[i].xItemValue <= PORT_MAX_DELAY {
      assert i != q ==> d[i] == c[if i < q then i else i - 1];
    }
  }

  lemma Neighbours(c: seq<ListItem>, k: nat)
    requires Circular(c) && k < |c|
    ensures c[k].pxNext == c[Succ(|c|, k)] && c[k].pxPrevious == c[Pred(|c|, k)]
  {
  }

  lemma Apart<T>(c: seq<T>, i: nat, k: nat)
    requires Distinct(c) && i < |c| && k < |c|
    ensures c[i] == c[k] <==> i == k
  {
  }

  class List {
    var uxNumberOfItems: nat
    var pxIndex: ListItem
    const xListEnd: ListItem
    ghost var ring: seq<ListItem>  // the end marker, then the items from head to tail
    ghost var at: nat              // the position of pxIndex in the ring

    ghost predicate Valid()
      reads this, ring
    {
      && |ring| == uxNumberOfItems + 1 && ring[0] == xListEnd
      && at < |ring| && pxIndex == ring[at]
      && xListEnd.xItemValue == PORT_MAX_DELAY
      && Distinct(ring) && Circular(ring)
      && MembersBut(ring, -1, this)
    }

    ghost function Items(): seq<Entry<ListItem>>
      reads this, ring
      requires ring != []
    {
      Values(ring[1..])
    }

    /** The list as a value. */
    ghost function Contents(): Ring<ListItem>
      reads this, ring
      requires ring != []
    {
      Ring(Items(), at)
    }

    lemma Shape()
      requires Valid()
      ensures |ring| == uxNumberOfItems + 1 && ring[0] == xListEnd && at < |ring| && pxIndex == ring[at]
    {
      hide Distinct, CircularBut, MembersBut;
    }

    lemma NextInRing(k: nat)
      requires Valid() && k < |ring|
      ensures ring[k].pxNext == ring[Succ(|ring|, k)] && ring[k].pxPrevious == ring[Pred(|ring|, k)]
    {
      hide Distinct, CircularBut, MembersBut;
      Neighbours(ring, k);
    }

    constructor Initialise()
      ensures Valid() && fresh(xListEnd) && ring == [xListEnd] && Contents() == Ring([], 0)
    {
      var end := new ListItem(PORT_MAX_DELAY, null);
      xListEnd := end;
      pxIndex := end;
      uxNumberOfItems := 0;
      ring, at := [end], 0;
      new;
      xListEnd.pxNext := xListEnd;
      xListEnd.pxPrevious := xListEnd;
    }

    method InsertEnd(x: ListItem)
      requires Valid() && x !in ring && x.xItemValue <= PORT_MAX_DELAY
      modifies this`uxNumberOfItems, this`ring, this`at, ring`pxNext, ring`pxPrevious,
               x`pxNext, x`pxPrevious, x`pxContainer
      ensures Valid() && ring == InsertAt(old(ring), if old(at) == 0 then |old(ring)| else old(at), x)
      ensures Contents() == old(Contents()).InsertEnd(Entry(x.xItemValue, x))
    {
      hide Valid, Distinct, CircularBut, MembersBut, Values;
      Shape();
      NextInRing(at);
      ghost var was, q := Items(), if at == 0 then |ring| else at;
      Link(x, pxIndex.pxPrevious, pxIndex, q);
      ValuesInsert(old(ring), q, x, was);
    }

    method Insert(x: ListItem)
      requires Valid() && x !in ring && x.xItemValue <= PORT_MAX_DELAY
      modifies this`uxNumberOfItems, this`ring, this`at, ring`pxNext, ring`pxPrevious,
               x`pxNext, x`pxPrevious, x`pxContainer
      ensures Valid() && ring == InsertAt(old(ring), 1 + Position(old(Items()), x.xItemValue), x)
      ensures Contents() == old(Contents()).Insert(Entry(x.xItemValue, x))
    {
      hide Position, Valid, Distinct, CircularBut, InsertAt, Values;
      Shape();
      ghost var was := Items();
      var it, k := FindPlace(x.xItemValue);
      assert Items() == was;
      NextInRing(k);
      Link(x, it, it.pxNext, k + 1);
      ValuesInsert(old(ring), k + 1, x, was);
    }

    /** uxListRemove; the list is the item's own container. */
    method Remove(x: ListItem, ghost k: nat) returns (remaining: nat)
      requires Valid() && 1 <= k < |ring| && x == ring[k]
      modifies this`uxNumberOfItems, this`pxIndex, this`ring, this`at, ring`pxNext, ring`pxPrevious, x`pxContainer
      ensures Valid() && ring == RemoveAt(old(ring), k) && remaining == |ring| - 1
      ensures Contents() == old(Contents()).Remove(k - 1)
      ensures x.pxContainer == null
    {
      ghost var was := Items();
      Unlink(x, k);
      ValuesRemove(old(ring), k, was);
      remaining := uxNumberOfItems;
    }

    /** The index leaves an item that is to be removed. */
    method StepOff(x: ListItem, ghost k: nat)
      requires Valid() && 1 <= k < |ring| && x == ring[k]
      modifies this`pxIndex, this`at
      ensures Valid() && at == if old(at) == k then k - 1 else old(at)
    {
      hide Distinct, CircularBut, MembersBut;
      NextInRing(k);
      Apart(ring, at, k);
      if pxIndex == x {
        pxIndex := x.pxPrevious;
        at := k - 1;
      }
    }

    method Unlink(x: ListItem, ghost k: nat)
      requires Valid() && 1 <= k < |ring| && x == ring[k]
      modifies this`uxNumberOfItems, this`pxIndex, this`ring, this`at, x`pxContainer,
               x.pxPrevious`pxNext, x.pxNext`pxPrevious
      ensures Valid() && ring == RemoveAt(old(ring), k)
      ensures at == if old(at) >= k then old(at) - 1 else old(at)
      ensures x.pxContainer == null
    {
      hide Distinct, CircularBut, MembersBut, RemoveAt;
      ghost var c := ring;
      StepOff(x, k);
      NextInRing(k);
      ring, at := RemoveAt(c, k), if at > k then at - 1 else at;
      assert ring[0] == c[0] && pxIndex == ring[at];
      uxNumberOfItems := uxNumberOfItems - 1;
      Detach(x, c, k, this);
    }

    /** Advances the index to the next item, skipping the end marker, and returns its owner.  In an empty
        list the index stays on the end marker, and the owner of that is returned. */
    method GetOwnerOfNextEntry() returns (owner: object?)
      requires Valid()
      modifies this`pxIndex, this`at
      ensures Valid() && Contents() == if |ring| > 1 then old(Contents()).Next() else old(Contents())
      ensures owner == ring[at].pvOwner
    {
      hide Distinct, CircularBut, MembersBut;
      NextInRing(at);
      NextInRing(0);
      Apart(ring, 0, Succ(|ring|, at));
      pxIndex := pxIndex.pxNext;
      at := Succ(|ring|, at);
      if pxIndex == xListEnd {
        pxIndex := pxIndex.pxNext;
        at := Succ(|ring|, at);
      }
      owner := pxIndex.pvOwner;
    }

    /** The writes that both insertions make once the place is known. */
    method Link(x: ListItem, before: ListItem, after: ListItem, ghost q: nat)
      requires Valid() && x !in ring && x.xItemValue <= PORT_MAX_DELAY
      requires 1 <= q <= |ring| && before == ring[q - 1] && after == ring[Succ(|ring|, q - 1)]
      modifies this`uxNumberOfItems, this`ring, this`at, x`pxNext, x`pxPrevious, x`pxContainer,
               before`pxNext, after`pxPrevious
      ensures Valid() && ring == InsertAt(old(ring), q, x)
      ensures at == if old(at) >= q then old(at) + 1 else old(at)
    {
      hide Distinct, CircularBut, MembersBut;
      ghost var c := ring;
      ring, at := InsertAt(c, q, x), if at >= q then at + 1 else at;
      assert ring[0] == c[0] && pxIndex == ring[at];
      uxNumberOfItems := uxNumberOfItems + 1;
      Attach(x, before, after, c, q, this);
    }

    /** The search of vListInsert.  The end marker's value stops the scan, so it must not be
        started for that very value. */
    method FindPlace(v: nat) returns (it: ListItem, ghost k: nat)
      requires Valid() && v <= PORT_MAX_DELAY
      ensures k < |ring| && it == ring[k] && k == Position(Items(), v)
    {
      k := 0;
      it := xListEnd;
      if v == PORT_MAX_DELAY {
        it := xListEnd.pxPrevious;
        k := |ring| - 1;
      } else {
        while it.pxNext.xItemValue <= v
          invariant k < |ring| && it == ring[k]
          invariant forall i :: 1 <= i <= k ==> ring[i].xItemValue <= v
          decreases |ring| - k
        {
          k := k + 1;
          it := it.pxNext;
        }
      }
      PositionUnique(Items(), v, k);
    }
  }

  lemma ValuesInsert(c: seq<ListItem>, q: nat, x: ListItem, was: seq<Entry<ListItem>>)
    requires 1 <= q <= |c| && |was| == |c| - 1
    requires forall i :: 0 <= i < |was| ==> was[i] == Entry(c[i + 1].xItemValue, c[i + 1])
    ensures Values(InsertAt(c, q, x)[1..]) == InsertAt(was, q - 1, Entry(x.xItemValue, x))
  {
    var d := InsertAt(c, q, x);
    forall i | 0 <= i < |c| ensures Values(d[1..])[i] == InsertAt(was, q - 1, Entry(x.xItemValue, x))[i] {
      assert d[1..][i] == d[i + 1];
    }
  }

  lemma ValuesRemove(c: seq<ListItem>, q: nat, was: seq<Entry<ListItem>>)
    requires 1 <= q < |c| && |was| == |c| - 1
    requires forall i :: 0 <= i < |was| ==> was[i] == Entry(c[i + 1].xItemValue, c[i + 1])
    ensures Values(RemoveAt(c, q)[1..]) == RemoveAt(was, q - 1)
  {
    var d := RemoveAt(c, q);
    forall i | 0 <= i < |c| - 2 ensures Values(d[1..])[i] == RemoveAt(was, q - 1)[i] {
      assert d[1..][i] == d[i + 1] == c[if i + 1 < q then i + 1 else i + 2];
    }
  }

  /** The link writes of a removal, and the item forgets its container. */
  method Detach(x: ListItem, ghost c: seq<ListItem>, ghost q: nat, l: List)
    requires Distinct(c) && Circular(c) && MembersBut(c, -1, l) && 1 <= q < |c| && x == c[q]
    modifies x.pxPrevious`pxNext, x.pxNext`pxPrevious, x`pxContainer
    ensures Circular(RemoveAt(c, q)) && Distinct(RemoveAt(c, q)) && MembersBut(RemoveAt(c, q), -1, l)
    ensures x.pxContainer == null
  {
    x.pxNext.pxPrevious := x.pxPrevious;
    x.pxPrevious.pxNext := x.pxNext;
    x.pxContainer := null;
    assert x.pxPrevious == c[q - 1] && x.pxNext == c[Succ(|c|, q)];
    MembersAfterRemoval(c, q, l);
    Unsplice(c, q);
  }

  /** The link writes that both insertions make, and the item learns its container. */
  method Attach(x: ListItem, before: ListItem, after: ListItem, ghost c: seq<ListItem>, ghost q: nat, l: List)
    requires Distinct(c) && Circular(c) && MembersBut(c, -1, l) && 1 <= q <= |c| && x !in c
    requires before == c[q - 1] && after == c[Succ(|c|, q - 1)] && x.xItemValue <= PORT_MAX_DELAY
    modifies x`pxNext, x`pxPrevious, x`pxContainer, before`pxNext, after`pxPrevious
    ensures Circular(InsertAt(c, q, x)) && Distinct(InsertAt(c, q, x)) && MembersBut(InsertAt(c, q, x), -1, l)
  {
    x.pxNext := after;
    x.pxPrevious := before;
    before.pxNext := x;
    after.pxPrevious := x;
    x.pxContainer := l;
    MembersAfterInsertion(c, q, x, l);
    Splice(c, q, x);
  }

  ghost function Values(s: seq<ListItem>): (r: seq<Entry<ListItem>>)
    reads s
    ensures |r| == |s|
    ensures forall i :: 0 <= i < |s| ==> r[i] == Entry(s[i].xItemValue, s[i])
  {
    if s == [] then [] else [Entry(s[0].xItemValue, s[0])] + Values(s[1..])
  }
}
