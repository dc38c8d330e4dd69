/** Ticks that wrap, and a sorted queue kept as two lists: one for the epoch of the current tick and one for
    the next.  Timers and co-routines are kept this way. */
module WrappedLists {
  import opened EventLists

  /** The tick count is 32 bits wide. */
  const TICKS: nat := 0x1_0000_0000

  function Epoch(t: nat): nat { t / TICKS }

  function Wrap(t: nat): (w: nat)
    ensures w < TICKS
  {
    t % TICKS
  }

  function EpochEnd(t: nat): nat { Epoch(t) * TICKS + TICKS - 1 }

  lemma WrapOrder(a: nat, b: nat)
    requires Epoch(a) == Epoch(b)
    ensures a <= b <==> Wrap(a) <= Wrap(b)
  {
  }

  // ---------------------------------------------------------------- the two lists

  /** `w` is the wrapped form of `p`, whose entries all lie in one epoch. */
  ghost predicate Part<T>(w: seq<Entry<T>>, p: seq<Entry<T>>, epoch: nat) {
    |w| == |p| && forall i :: 0 <= i < |w| ==> Mirrored(w[i], p[i], epoch)
  }

  ghost predicate Mirrored<T>(w: Entry<T>, e: Entry<T>, epoch: nat) {
    w == Entry(Wrap(e.value), e.owner) && Epoch(e.value) == epoch
  }

  /** The two wrapped lists are the ideal queue cut at the end of t's epoch. */
  ghost predicate Mirrors<T>(current: seq<Entry<T>>, overflow: seq<Entry<T>>, q: seq<Entry<T>>, t: nat) {
    && |current| <= |q|
    && Part(current, q[..|current|], Epoch(t)) && Part(overflow, q[|current|..], Epoch(t) + 1)
  }

  lemma PartInsert<T>(w: seq<Entry<T>>, p: seq<Entry<T>>, epoch: nat, e: Entry<T>)
    requires Part(w, p, epoch) && Epoch(e.value) == epoch
    ensures Part(SortedInsert(w, Entry(Wrap(e.value), e.owner)), SortedInsert(p, e), epoch)
  {
    var k := Position(p, e.value);
    forall i | 0 <= i < |w| ensures w[i].value <= Wrap(e.value) <==> p[i].value <= e.value {
      assert Mirrored(w[i], p[i], epoch);
      WrapOrder(p[i].value, e.value);
    }
    PositionUnique(w, Wrap(e.value), k);
  }

  lemma PartWithout<T>(w: seq<Entry<T>>, p: seq<Entry<T>>, epoch: nat, x: T)
    requires Part(w, p, epoch)
    ensures Part(Without(w, x), Without(p, x), epoch)
  {
    hide Wrap, Epoch;
    assert forall i :: 0 <= i < |w| ==> Mirrored(w[i], p[i], epoch);
    FindUnique(w, x, Find(p, x));
  }

  lemma MirrorInsertCurrent<T>(current: seq<Entry<T>>, overflow: seq<Entry<T>>, q: seq<Entry<T>>, t: nat, e: Entry<T>)
    requires Mirrors(current, overflow, q, t) && Epoch(e.value) == Epoch(t)
    ensures Mirrors(SortedInsert(current, Entry(Wrap(e.value), e.owner)), overflow, SortedInsert(q, e), t)
  {
    var a, b := q[..|current|], q[|current|..];
    assert q == a + b;
    PartInsert(current, a, Epoch(t), e);
    forall i | 0 <= i < |b| ensures b[i].value > e.value {
      assert Mirrored(overflow[i], b[i], Epoch(t) + 1);
    }
    InsertInFront(a, b, e);
    CutAgain(SortedInsert(a, e), b);
  }

  lemma MirrorInsertOverflow<T>(current: seq<Entry<T>>, overflow: seq<Entry<T>>, q: seq<Entry<T>>, t: nat, e: Entry<T>)
    requires Mirrors(current, overflow, q, t) && Epoch(e.value) == Epoch(t) + 1
    ensures Mirrors(current, SortedInsert(overflow, Entry(Wrap(e.value), e.owner)), SortedInsert(q, e), t)
  {
    var a, b := q[..|current|], q[|current|..];
    assert q == a + b;
    PartInsert(overflow, b, Epoch(t) + 1, e);
    forall i | 0 <= i < |a| ensures a[i].value <= e.value {
      assert Mirrored(current[i], a[i], Epoch(t));
    }
    InsertBehind(a, b, e);
    CutAgain(a, SortedInsert(b, e));
  }

  lemma MirrorsWithout<T>(current: seq<Entry<T>>, overflow: seq<Entry<T>>, q: seq<Entry<T>>, t: nat, x: T)
    requires Mirrors(current, overflow, q, t) && DistinctOwners(q)
    ensures Mirrors(Without(current, x), Without(overflow, x), Without(q, x), t)
  {
    var a, b := q[..|current|], q[|current|..];
    assert q == a + b;
    PartWithout(current, a, Epoch(t), x);
    PartWithout(overflow, b, Epoch(t) + 1, x);
    WithoutBoth(a, b, x);
    CutAgain(Without(a, x), Without(b, x));
  }
}
