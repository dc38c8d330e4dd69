/** The co-routine scheduler of croutine.c with its 32-bit tick count and its two delayed lists that are
    swapped when it wraps, proved to implement the ideal scheduler of module CoRoutineService. */
module CoRoutines {
  import opened EventLists
  import opened WrappedLists
  import opened Wrappers
  import opened CoRoutineService

  // ---------------------------------------------------------------- the two delayed lists

  lemma WakeTimeWraps(tick: nat, ticks: nat)
    requires ticks < TICKS
    ensures (Wrap(tick) + ticks) % TICKS == Wrap(tick + ticks)
    ensures Wrap(tick + ticks) < Wrap(tick) ==> Epoch(tick + ticks) == Epoch(tick) + 1
    ensures Wrap(tick + ticks) >= Wrap(tick) ==> Epoch(tick + ticks) == Epoch(tick)
  {
  }

  /** The head of a non-empty list in use is the earliest of all, and is compared rightly. */
  lemma HeadMirrored(current: seq<Entry<Co>>, overflow: seq<Entry<Co>>, q: seq<Entry<Co>>, t: nat)
    requires Mirrors(current, overflow, q, t) && current != []
    ensures q != [] && q[0].owner == current[0].owner
    ensures Wrap(t) < current[0].value <==> t < q[0].value
    ensures Mirrors(current[1..], overflow, q[1..], t)
  {
    hide Wrap, Epoch;
    assert Mirrored(current[0], q[..|current|][0], Epoch(t));
    WrapOrder(q[0].value, t);
    assert q[1..][..|current| - 1] == q[..|current|][1..];
    assert q[1..][|current| - 1..] == q[|current|..];
  }

  lemma NoneMirrored(current: seq<Entry<Co>>, overflow: seq<Entry<Co>>, q: seq<Entry<Co>>, t: nat)
    requires Mirrors(current, overflow, q, t) && current == []
    ensures q == [] || t < q[0].value
  {
    if q != [] {
      assert q[|current|..] == q;
      assert Mirrored(overflow[0], q[0], Epoch(t) + 1);
    }
  }

  /** One tick more: within an epoch nothing changes, and at its end the list in use is empty. */
  lemma TickMirrored(current: seq<Entry<Co>>, overflow: seq<Entry<Co>>, q: seq<Entry<Co>>, t: nat)
    requires Mirrors(current, overflow, q, t)
    ensures Wrap(t + 1) == (Wrap(t) + 1) % TICKS
    ensures Wrap(t + 1) != 0 ==> Mirrors(current, overflow, q, t + 1)
    ensures Wrap(t + 1) == 0 && (forall i :: 0 <= i < |q| ==> t < q[i].value) ==>
            current == [] && Mirrors(overflow, [], q, t + 1)
  {
    TickWraps(t);
    hide Wrap;
    if Wrap(t + 1) == 0 && (forall i :: 0 <= i < |q| ==> t < q[i].value) {
      if current != [] {
        assert Mirrored(current[0], q[..|current|][0], Epoch(t));
        assert t < q[0].value;
        LastOfEpoch(t, q[0].value);
        assert false;
      }
      assert q[|current|..] == q == q[..|overflow|];
    }
  }

  lemma TickWraps(t: nat)
    ensures Wrap(t + 1) == (Wrap(t) + 1) % TICKS
    ensures Epoch(t + 1) == if Wrap(t + 1) == 0 then Epoch(t) + 1 else Epoch(t)
  {
  }

  lemma LastOfEpoch(t: nat, value: nat)
    requires Epoch(t + 1) == Epoch(t) + 1 && t < value
    ensures Epoch(value) != Epoch(t)
  {
  }

  // ---------------------------------------------------------------- the lists by themselves

  /** xCoRoutineTickCount, and the two lists by the pointers to them. */
  datatype DelayLists = DelayLists(count: nat, current: seq<Entry<Co>>, overflow: seq<Entry<Co>>)

  /** A tick: when the count wraps the lists are swapped, whatever is left in the one in use. */
  function Turned(l: DelayLists): DelayLists {
    var count := (l.count + 1) % TICKS;
    if count == 0 then DelayLists(0, l.overflow, l.current) else l.(count := count)
  }

  /** Whoever stands before the first entry that lies ahead is woken. */
  function Served(l: DelayLists): DelayLists {
    l.(current := l.current[Position(l.current, l.count)..])
  }

  /** A number of ticks in which nobody asks for a delay. */
  function After(l: DelayLists, ticks: nat): DelayLists {
    if ticks == 0 then l else Served(Turned(After(l, ticks - 1)))
  }

  lemma ServedHead(l: DelayLists)
    requires l.current != [] && l.current[0].value <= l.count
    ensures Served(l) == Served(l.(current := l.current[1..]))
  {
  }

  lemma NothingServed(l: DelayLists)
    requires l.current == [] || l.count < l.current[0].value
    ensures Served(l) == l
  {
  }

  /** The head of the list in use is in no other place. */
  lemma HeadInOneList(current: seq<Entry<Co>>, overflow: seq<Entry<Co>>, q: seq<Entry<Co>>, t: nat)
    requires Mirrors(current, overflow, q, t) && current != [] && DistinctOwners(q)
    ensures Without(current, current[0].owner) == current[1..] && Without(overflow, current[0].owner) == overflow
  {
    hide Wrap, Epoch;
    HeadWithout(current);
    assert Mirrored(current[0], q[..|current|][0], Epoch(t));
    forall i | 0 <= i < |overflow| ensures overflow[i].owner != current[0].owner {
      assert Mirrored(overflow[i], q[|current|..][i], Epoch(t) + 1);
    }
    FindUnique(overflow, current[0].owner, |overflow|);
  }

  lemma EpochOfEntry(current: seq<Entry<Co>>, overflow: seq<Entry<Co>>, q: seq<Entry<Co>>, t: nat, i: nat)
    requires Mirrors(current, overflow, q, t) && i < |q|
    ensures Epoch(q[i].value) == if i < |current| then Epoch(t) else Epoch(t) + 1
    ensures i < |current| ==> current[i] == Entry(Wrap(q[i].value), q[i].owner)
  {
    hide Wrap, Epoch;
    if i < |current| {
      assert Mirrored(current[i], q[..|current|][i], Epoch(t));
    } else {
      assert Mirrored(overflow[i - |current|], q[|current|..][i - |current|], Epoch(t) + 1);
    }
  }

  /** A delay of nothing puts a co-routine on the list in use, with the count itself as its wake time. */
  lemma ZeroInUse(current: seq<Entry<Co>>, overflow: seq<Entry<Co>>, q: seq<Entry<Co>>, t: nat, c: Co)
    requires Mirrors(current, overflow, q, t) && Entry(t, c) in q
    ensures Entry(Wrap(t), c) in current
  {
    hide Wrap, Epoch, Mirrors;
    var i :| 0 <= i < |q| && q[i] == Entry(t, c);
    EpochOfEntry(current, overflow, q, t, i);
  }

  lemma StaysAhead(list: seq<Entry<Co>>, v: nat, x: Entry<Co>)
    requires x in list && x.value > v
    ensures x in list[Position(list, v)..]
  {
    var i :| 0 <= i < |list| && list[i] == x;
    assert list[Position(list, v)..][i - Position(list, v)] == x;
  }

  lemma AllGone(list: seq<Entry<Co>>, v: nat)
    requires forall x :: x in list ==> x.value <= v
    ensures list[Position(list, v)..] == []
  {
    assert forall i :: 0 <= i < |list| ==> list[i] in list;
  }

  lemma AfterStep(l: DelayLists, n: nat)
    ensures After(l, 0) == l && After(l, n + 1) == Served(Turned(After(l, n)))
  {
    hide Served, Turned;
  }

  lemma NoWrap(l: DelayLists)
    requires l.count + 1 < TICKS
    ensures Turned(l) == l.(count := l.count + 1)
  {
  }

  /** As long as the count does not wrap the other list is left alone. */
  lemma {:induction false} OverflowWaits(l: DelayLists, n: nat)
    requires l.count + n < TICKS
    ensures After(l, n).count == l.count + n && After(l, n).overflow == l.overflow
  {
    hide After, Position, Turned;
    AfterStep(l, if n == 0 then 0 else n - 1);
    if n > 0 {
      OverflowWaits(l, n - 1);
      NoWrap(After(l, n - 1));
    }
  }

  /** ... and an entry of the list in use stays until the count reaches it. */
  lemma {:induction false} CurrentWaits(l: DelayLists, n: nat, x: Entry<Co>)
    requires l.count + n < TICKS && l.count + n < x.value && x in l.current
    ensures x in After(l, n).current
  {
    hide After, Position, Turned;
    AfterStep(l, if n == 0 then 0 else n - 1);
    if n > 0 {
      var before := After(l, n - 1);
      CurrentWaits(l, n - 1, x);
      OverflowWaits(l, n - 1);
      NoWrap(before);
      StaysAhead(before.current, l.count + n, x);
    }
  }

  /** Nobody comes onto it. */
  lemma {:induction false} Shrinks(l: DelayLists, n: nat, x: Entry<Co>)
    requires l.count + n < TICKS && x in After(l, n).current
    ensures x in l.current
  {
    hide After, Position, Turned;
    AfterStep(l, if n == 0 then 0 else n - 1);
    if n > 0 {
      OverflowWaits(l, n - 1);
      NoWrap(After(l, n - 1));
      Shrinks(l, n - 1, x);
    }
  }

  lemma {:induction false} AfterSum(l: DelayLists, m: nat, n: nat)
    ensures After(l, m + n) == After(After(l, m), n)
  {
    hide After, Served, Turned;
    AfterStep(l, 0);
    AfterStep(After(l, m), if n == 0 then 0 else n - 1);
    if n > 0 {
      AfterStep(l, m + n - 1);
      AfterSum(l, m, n - 1);
    }
  }

  /** The entry stands in the list that is about to be swapped out. */
  ghost predicate AtTheWrap(l: DelayLists, x: Entry<Co>) {
    l.count == TICKS - 1 && x in l.current && x.value == TICKS - 1 && forall e :: e in l.current ==> e.value < TICKS
  }

  lemma Swapped(l: DelayLists, x: Entry<Co>)
    requires l.count == TICKS - 1
    ensures Turned(l) == DelayLists(0, l.overflow, l.current)
    ensures After(l, 1).count == 0 && After(l, 1).overflow == l.current
            && After(l, 1).current == l.overflow[Position(l.overflow, 0)..]
  {
    hide After, Position;
    AfterStep(l, 0);
  }

  /** With a count of TICKS - 1 the list in use is swapped out before it is looked at again.  So a delay of nothing
      then lasts for two turns of the tick count: one on the list that is not in use, and one until the count
      is back at TICKS - 1. */
  lemma ZeroDelayAtWrap(l: DelayLists, x: Entry<Co>, n: nat)
    requires AtTheWrap(l, x) && 1 <= n <= 2 * TICKS
    ensures n <= TICKS ==> x in After(l, n).overflow
    ensures TICKS < n < 2 * TICKS ==> x in After(l, n).current
    ensures n == 2 * TICKS ==> After(l, n).current == []
  {
    hide After, Position;
    var first := After(l, 1);
    Swapped(l, x);
    if n <= TICKS {
      AfterSum(l, 1, n - 1);
      OverflowWaits(first, n - 1);
    } else {
      AfterSum(l, 1, TICKS - 1);
      OverflowWaits(first, TICKS - 1);
      AfterSum(l, TICKS, n - TICKS);
      SecondTurn(After(l, TICKS), x, n - TICKS);
    }
  }

  /** That is where the lists of the scheduler leave it: they represent a schedule in which it is due now. */
  lemma ZeroDelayStuck(current: seq<Entry<Co>>, overflow: seq<Entry<Co>>, q: seq<Entry<Co>>, t: nat, c: Co)
    requires Mirrors(current, overflow, q, t) && Entry(t, c) in q && Wrap(t) == TICKS - 1
    ensures AtTheWrap(DelayLists(Wrap(t), current, overflow), Entry(TICKS - 1, c))
  {
    ZeroInUse(current, overflow, q, t, c);
    hide Wrap, Epoch, Mirrors;
    forall e | e in current ensures e.value < TICKS {
      var i :| 0 <= i < |current| && current[i] == e;
      InUseBounded(current, overflow, q, t, i);
    }
  }

  lemma InUseBounded(current: seq<Entry<Co>>, overflow: seq<Entry<Co>>, q: seq<Entry<Co>>, t: nat, i: nat)
    requires Mirrors(current, overflow, q, t) && i < |current|
    ensures current[i].value < TICKS
  {
    EpochOfEntry(current, overflow, q, t, i);
  }

  lemma SecondTurn(l: DelayLists, x: Entry<Co>, n: nat)
    requires l.count == TICKS - 1 && x in l.overflow && x.value == TICKS - 1
    requires forall e :: e in l.overflow ==> e.value < TICKS
    requires 1 <= n <= TICKS
    ensures n < TICKS ==> x in After(l, n).current
    ensures n == TICKS ==> After(l, n).current == []
  {
    hide After, Position;
    var first := After(l, 1);
    Swapped(l, x);
    StaysAhead(l.overflow, 0, x);
    AfterSum(l, 1, n - 1);
    if n < TICKS {
      CurrentWaits(first, n - 1, x);
    } else {
      AllDue(l.overflow, first);
    }
  }

  lemma AllDue(was: seq<Entry<Co>>, l: DelayLists)
    requires l.count == 0 && l.current == was[Position(was, 0)..] && forall e :: e in was ==> e.value < TICKS
    ensures After(l, TICKS - 1).current == []
  {
    hide After, Position;
    var m := TICKS - 2;
    var before := After(l, m);
    OverflowWaits(l, m);
    AfterStep(l, m);
    NoWrap(before);
    forall e | e in before.current ensures e.value <= TICKS - 1 {
      Shrinks(l, m, e);
      assert e in was;
    }
    AllGone(before.current, TICKS - 1);
  }

  // ---------------------------------------------------------------- the scheduler

  class CoRoutineScheduler {
    var co: map<Co, Crcb>
    var pxReadyCoRoutineLists: seq<Ring<Co>>
    var pxDelayedCoRoutineList: seq<Entry<Co>>
    var pxOverflowDelayedCoRoutineList: seq<Entry<Co>>
    var xPendingReadyCoRoutineList: seq<Entry<Co>>
    var events: seq<seq<Entry<Co>>>
    var xCoRoutineTickCount: nat
    var xLastTickCount: nat
    var uxTopCoRoutineReadyPriority: nat
    var pxCurrentCoRoutine: Option<Co>
    ghost var ideal: Scheduler

    /** The lists represent the ideal scheduler. */
    ghost predicate Coupled()
      reads this
    {
      && ListsOk(ideal) && TopOk(ideal)
      && co == ideal.co && pxReadyCoRoutineLists == ideal.ready && xPendingReadyCoRoutineList == ideal.pending
      && events == ideal.events && uxTopCoRoutineReadyPriority == ideal.top && pxCurrentCoRoutine == ideal.current
      && Mirrors(pxDelayedCoRoutineList, pxOverflowDelayedCoRoutineList, ideal.delayed, ideal.tick)
      && xCoRoutineTickCount == Wrap(ideal.tick)
    }

    function Lists(): DelayLists
      reads this
    {
      DelayLists(xCoRoutineTickCount, pxDelayedCoRoutineList, pxOverflowDelayedCoRoutineList)
    }

    /** prvInitialiseCoRoutineLists. */
    constructor (priorities: nat, eventLists: nat)
      requires 0 < priorities
      ensures Coupled() && xLastTickCount == 0
      ensures ideal == Scheduler(map[], seq(priorities, _ => Ring([], 0)), [], [], seq(eventLists, _ => []), 0, 0,
              None, [])
    {
      co := map[];
      pxReadyCoRoutineLists, events := seq(priorities, _ => Ring([], 0)), seq(eventLists, _ => []);
      pxDelayedCoRoutineList, pxOverflowDelayedCoRoutineList, xPendingReadyCoRoutineList := [], [], [];
      xCoRoutineTickCount, xLastTickCount, uxTopCoRoutineReadyPriority := 0, 0, 0;
      pxCurrentCoRoutine := None;
      ideal := Scheduler(map[], seq(priorities, _ => Ring([], 0)), [], [], seq(eventLists, _ => []), 0, 0, None, []);
    }

    /** prvAddCoRoutineToReadyQueue. */
    method AddToReadyQueue(c: Co)
      requires Coupled() && c in co && co[c].generic.InHand?
      modifies this
      ensures Coupled() && ideal == AddReady(old(ideal), c) && xLastTickCount == old(xLastTickCount)
      ensures Lists() == old(Lists())
    {
      hide ListsOk, Mirrors, TopOk;
      AddReadyOk(ideal, c);
      TopAfterAdd(ideal, c);
      Added(ideal, c);
      ideal := AddReady(ideal, c);
      var p := co[c].priority;
      if p > uxTopCoRoutineReadyPriority {
        uxTopCoRoutineReadyPriority := p;
      }
      pxReadyCoRoutineLists := pxReadyCoRoutineLists[p := pxReadyCoRoutineLists[p].InsertEnd(Entry(0, c))];
      co := co[c := co[c].(generic := Ready)];
    }

    /** vCoRoutineAddToDelayedList, for the current co-routine; with an event list interrupts are disabled. */
    method AddToDelayedList(ticks: nat, list: Option<nat>)
      requires Coupled() && CurrentReady(ideal) && ticks < TICKS
      requires list.Some? ==> list.value < |events|
      modifies this
      ensures Coupled() && xLastTickCount == old(xLastTickCount)
      ensures CanSleep(old(ideal), old(ideal.current.value))
      ensures var slept := Sleep(old(ideal), old(ideal.current.value), ticks);
              ideal == if list.None? then slept else Await(slept, old(ideal.current.value), list.value)
    {
      hide ListsOk, Mirrors, TopOk, Wrap, Epoch, SortedInsert;
      var c := pxCurrentCoRoutine.value;
      UnreadyOk(ideal, c);
      TopAfterUnready(ideal, c);
      ghost var u := Unready(ideal, c);
      DelayOk(u, c, ideal.tick + ticks);
      WakeTimeWraps(ideal.tick, ticks);
      var xTimeToWake := (xCoRoutineTickCount + ticks) % TICKS;
      var p := co[c].priority;
      var r := pxReadyCoRoutineLists[p];
      pxReadyCoRoutineLists := pxReadyCoRoutineLists[p := r.Remove(Find(r.items, c))];
      if xTimeToWake < xCoRoutineTickCount {
        MirrorInsertOverflow(pxDelayedCoRoutineList, pxOverflowDelayedCoRoutineList, u.delayed, u.tick,
             Entry(u.tick + ticks, c));
        pxOverflowDelayedCoRoutineList := SortedInsert(pxOverflowDelayedCoRoutineList, Entry(xTimeToWake, c));
      } else {
        MirrorInsertCurrent(pxDelayedCoRoutineList, pxOverflowDelayedCoRoutineList, u.delayed, u.tick,
             Entry(u.tick + ticks, c));
        pxDelayedCoRoutineList := SortedInsert(pxDelayedCoRoutineList, Entry(xTimeToWake, c));
      }
      co := At(At(co, c, InHand), c, Delayed);
      ideal := Delay(u, c, ideal.tick + ticks);
      SameTop(u, ideal);
      if list.Some? {
        PlaceOnEventList(c, list.value);
      }
    }

    /** The event item goes to an event list, by priority. */
    method PlaceOnEventList(c: Co, e: nat)
      requires Coupled() && c in co && e < |events| && co[c].generic.Delayed? && co[c].event.Nowhere?
      modifies this
      ensures Coupled() && ideal == Await(old(ideal), c, e) && xLastTickCount == old(xLastTickCount)
              && Lists() == old(Lists())
    {
      hide ListsOk, Mirrors, TopOk, SortedInsert;
      var p := co[c].priority;
      AwaitOk(ideal, c, e);
      SameTop(ideal, Await(ideal, c, e));
      var value := if p <= |pxReadyCoRoutineLists| then |pxReadyCoRoutineLists| - p else 0;
      events := events[e := SortedInsert(events[e], Entry(value, c))];
      co := Waits(co, c, OnEvent(e));
      ideal := Await(ideal, c, e);
    }

    /** Takes the generic item of a delayed co-routine off its list. */
    method RemoveGeneric(c: Co)
      requires Coupled() && c in co && co[c].generic.Delayed? && co[c].event.Nowhere?
      modifies this
      ensures Coupled() && ideal == Undelay(old(ideal), c) && xLastTickCount == old(xLastTickCount)
      ensures Lists() == DelayLists(old(xCoRoutineTickCount),
                                    Without(old(pxDelayedCoRoutineList), c),
                                    Without(old(pxOverflowDelayedCoRoutineList), c))
    {
      hide ListsOk, Mirrors, TopOk, Wrap, Without;
      UndelayOk(ideal, c);
      SameTop(ideal, Undelay(ideal, c));
      assert DistinctOwners(ideal.delayed) by { DelayedDistinct(ideal); }
      MirrorsWithout(pxDelayedCoRoutineList, pxOverflowDelayedCoRoutineList, ideal.delayed, ideal.tick, c);
      pxDelayedCoRoutineList := Without(pxDelayedCoRoutineList, c);
      pxOverflowDelayedCoRoutineList := Without(pxOverflowDelayedCoRoutineList, c);
      co := At(co, c, InHand);
      ideal := Undelay(ideal, c);
    }

    /** Takes an event item off the list that its container names, if any. */
    method RemoveEventItem(c: Co)
      requires Coupled() && c in co
      modifies this
      ensures Coupled() && xLastTickCount == old(xLastTickCount) && Lists() == old(Lists())
      ensures (old(co)[c].event.OnEvent? ==> old(co)[c].event.list < |old(events)|) && ideal == Detach(old(ideal), c)
    {
      hide ListsOk, Mirrors, TopOk, Wrap, Without;
      DetachOk(ideal, c);
      SameTop(ideal, Detach(ideal, c));
      match co[c].event {
        case Nowhere =>
        case Pending =>
          xPendingReadyCoRoutineList := Without(xPendingReadyCoRoutineList, c);
          co := Waits(co, c, Nowhere);
        case OnEvent(e) =>
          events := events[e := Without(events[e], c)];
          co := Waits(co, c, Nowhere);
      }
      ideal := Detach(ideal, c);
    }

    /** prvCheckPendingReadyList, when no interrupt falls into it. */
    method CheckPendingReadyList()
      requires Coupled()
      modifies this
      ensures Coupled() && ideal == DeliverAll(old(ideal)) && xLastTickCount == old(xLastTickCount)
    {
      hide ListsOk, Mirrors, TopOk, Wrap, AddReady, Undelay, Detach;
      ghost var goal := DeliverAll(ideal);
      while xPendingReadyCoRoutineList != []
        invariant Coupled() && DeliverAll(ideal) == goal && xLastTickCount == old(xLastTickCount)
        decreases |xPendingReadyCoRoutineList|
      {
        var c := xPendingReadyCoRoutineList[0].owner;
        ghost var s := ideal;
        PendingHere(s);
        DetachOk(s, c);
        RemoveEventItem(c);
        UndelayOk(ideal, c);
        RemoveGeneric(c);
        AddToReadyQueue(c);
        assert ideal == Deliver(s);
      }
    }

    /** prvCheckDelayedList, when no interrupt falls into it; `xTaskTickCount` is what xTaskGetTickCount
        returns. */
    method CheckDelayedList(xTaskTickCount: nat)
      requires Coupled() && xLastTickCount == xCoRoutineTickCount && xTaskTickCount < TICKS
      requires Ahead(ideal, ideal.tick + 1)
      modifies this
      ensures Coupled() && xLastTickCount == xCoRoutineTickCount && Ahead(ideal, ideal.tick + 1)
      ensures ideal == Ticks(old(ideal), (xTaskTickCount + TICKS - old(xLastTickCount)) % TICKS)
      ensures xCoRoutineTickCount == xTaskTickCount
    {
      hide ListsOk, Mirrors, TopOk, Ahead, Wrap, WakeDue;
      var xPassedTicks: nat := (xTaskTickCount + TICKS - xLastTickCount) % TICKS;
      ghost var first, goal, passed := ideal.tick, Ticks(ideal, xPassedTicks), xPassedTicks;
      while xPassedTicks > 0
        invariant Coupled() && Ahead(ideal, ideal.tick + 1)
        invariant Ticks(ideal, xPassedTicks) == goal && ideal.tick + xPassedTicks == first + passed
      {
        TickOver();
        xPassedTicks := xPassedTicks - 1;
        WakeDueAhead(ideal);
        WakeExpired();
      }
      xLastTickCount := xCoRoutineTickCount;
      CaughtUp(first, passed, xTaskTickCount);
    }

    /** The inner loop of prvCheckDelayedList. */
    method WakeExpired()
      requires Coupled()
      modifies this
      ensures Coupled() && ideal == WakeDue(old(ideal)) && xLastTickCount == old(xLastTickCount)
      ensures Lists() == Served(old(Lists()))
    {
      hide ListsOk, Mirrors, TopOk, Wrap, WakeHead;
      ghost var due, served := WakeDue(ideal), Served(Lists());
      while pxDelayedCoRoutineList != []
        invariant Coupled() && WakeDue(ideal) == due && xLastTickCount == old(xLastTickCount)
                  && Served(Lists()) == served
        decreases |ideal.delayed|
      {
        var c := pxDelayedCoRoutineList[0].owner;
        HeadMirrored(pxDelayedCoRoutineList, pxOverflowDelayedCoRoutineList, ideal.delayed, ideal.tick);
        if xCoRoutineTickCount < pxDelayedCoRoutineList[0].value {
          break;
        }
        ServedHead(Lists());
        WakeOne(c);
      }
      NothingServed(Lists());
      if pxDelayedCoRoutineList == [] {
        NoneMirrored(pxDelayedCoRoutineList, pxOverflowDelayedCoRoutineList, ideal.delayed, ideal.tick);
      }
    }

    /** The count goes on by one tick, and the lists are swapped if it wraps.  They represent the ideal scheduler
        after that if nobody was due before, or if the count did not wrap. */
    method TickOver()
      requires Coupled()
      modifies this
      ensures ideal == old(ideal).(tick := old(ideal).tick + 1) && xLastTickCount == old(xLastTickCount)
      ensures old(Ahead(ideal, ideal.tick + 1)) ==> Coupled() && Ahead(ideal, ideal.tick)
      ensures xCoRoutineTickCount != 0 ==> Coupled()
      ensures Lists() == Turned(old(Lists()))
    {
      hide ListsOk, Mirrors, TopOk, Wrap;
      assert xCoRoutineTickCount < TICKS;
      TickMirrored(pxDelayedCoRoutineList, pxOverflowDelayedCoRoutineList, ideal.delayed, ideal.tick);
      TickedOk(ideal);
      xCoRoutineTickCount := (xCoRoutineTickCount + 1) % TICKS;
      if xCoRoutineTickCount == 0 {
        var pxTemp := pxDelayedCoRoutineList;
        pxDelayedCoRoutineList := pxOverflowDelayedCoRoutineList;
        pxOverflowDelayedCoRoutineList := pxTemp;
      }
      SameTop(ideal, ideal.(tick := ideal.tick + 1));
      ideal := ideal.(tick := ideal.tick + 1);
    }

    /** The head of the delayed list is due: it is taken off its lists and made ready. */
    method WakeOne(c: Co)
      requires Coupled() && pxDelayedCoRoutineList != [] && c == pxDelayedCoRoutineList[0].owner
      modifies this
      ensures Coupled() && old(ideal.delayed) != [] && ideal == WakeHead(old(ideal))
              && xLastTickCount == old(xLastTickCount)
      ensures Lists() == old(Lists()).(current := old(pxDelayedCoRoutineList)[1..])
    {
      hide ListsOk, Mirrors, TopOk, Wrap, AddReady, Undelay, Detach;
      HeadMirrored(pxDelayedCoRoutineList, pxOverflowDelayedCoRoutineList, ideal.delayed, ideal.tick);
      ghost var s := ideal;
      DelayedHere(s, 0);
      RecordedOk(s, c);
      SameTop(s, Recorded(s, c));
      ideal := Recorded(s, c);
      DetachOk(ideal, c);
      RemoveEventItem(c);
      UndelayOk(ideal, c);
      assert DistinctOwners(ideal.delayed) by { DelayedDistinct(ideal); }
      HeadInOneList(pxDelayedCoRoutineList, pxOverflowDelayedCoRoutineList, ideal.delayed, ideal.tick);
      RemoveGeneric(c);
      AddToReadyQueue(c);
    }

    /** vCoRoutineSchedule up to calling the co-routine: the one chosen is of the highest priority that has a
        ready one. */
    method Schedule(xTaskTickCount: nat)
      requires Coupled() && xLastTickCount == xCoRoutineTickCount && xTaskTickCount < TICKS
      requires Ahead(ideal, ideal.tick + 1) && ideal.current.Some?
      modifies this
      ensures Coupled() && xLastTickCount == xCoRoutineTickCount == xTaskTickCount && Ahead(ideal, ideal.tick + 1)
      ensures var t := Ticks(DeliverAll(old(ideal)), (xTaskTickCount + TICKS - old(xLastTickCount)) % TICKS);
              t.top < |t.ready| && ideal == Choose(t)
    {
      hide ListsOk, Mirrors, Ahead, DeliverAll, Ticks, Choose;
      DeliverAllAhead(ideal);
      CheckPendingReadyList();
      CheckDelayedList(xTaskTickCount);
      ghost var t := ideal;
      ChooseNext();
      SameAhead(t, ideal, t.tick + 1);
    }

    /** The search for the highest priority with a ready co-routine, and the next one in turn there. */
    method ChooseNext()
      requires Coupled()
      modifies `uxTopCoRoutineReadyPriority, `pxReadyCoRoutineLists, `pxCurrentCoRoutine, `ideal
      ensures old(ideal).top < |old(ideal).ready| && Coupled() && ideal == Choose(old(ideal))
      ensures ideal.tick == old(ideal).tick && ideal.delayed == old(ideal).delayed
    {
      hide ListsOk, Mirrors;
      ghost var t := ideal;
      ghost var goal := Highest(t.ready, t.top);
      ChooseOk(t);
      ChooseHighest(t);
      hide TopOk;
      while pxReadyCoRoutineLists[uxTopCoRoutineReadyPriority].items == []
        invariant uxTopCoRoutineReadyPriority < |t.ready| && pxReadyCoRoutineLists == t.ready
        invariant Highest(t.ready, uxTopCoRoutineReadyPriority) == goal
        invariant ideal == t && pxCurrentCoRoutine == t.current
        decreases uxTopCoRoutineReadyPriority
      {
        if uxTopCoRoutineReadyPriority == 0 {
          ideal := Choose(t);
          return;
        }
        uxTopCoRoutineReadyPriority := uxTopCoRoutineReadyPriority - 1;
      }
      var p := uxTopCoRoutineReadyPriority;
      var r := pxReadyCoRoutineLists[p].Next();
      pxReadyCoRoutineLists := pxReadyCoRoutineLists[p := r];
      pxCurrentCoRoutine := Some(r.items[r.at - 1].owner);
      ideal := Choose(t);
    }

    /** xCoRoutineRemoveFromEventList; true if the co-routine is at least as urgent as the current one. */
    method RemoveFromEventList(e: nat) returns (urgent: bool)
      requires Coupled() && e < |events| && events[e] != [] && ideal.current.Some? && ideal.current.value in co
      modifies this
      ensures Coupled() && xLastTickCount == old(xLastTickCount)
      ensures var c := old(events)[e][0].owner;
              && c in old(co) && ideal == Signal(old(ideal), e)
              && (urgent <==> old(co)[c].priority >= old(co)[old(ideal.current.value)].priority)
    {
      hide ListsOk, Mirrors, TopOk;
      SignalOk(ideal, e);
      SameTop(ideal, Signal(ideal, e));
      var h := events[e][0];
      events := events[e := events[e][1..]];
      xPendingReadyCoRoutineList := xPendingReadyCoRoutineList + [h];
      co := Waits(co, h.owner, Pending);
      ideal := Signal(ideal, e);
      urgent := co[h.owner].priority >= co[pxCurrentCoRoutine.value].priority;
    }

    /** xCoRoutineCreate, once the memory is there. */
    method Create(c: Co, priority: nat)
      requires Coupled() && c !in co
      modifies this
      ensures Coupled() && xLastTickCount == old(xLastTickCount)
      ensures old(ideal).ready != [] && CanAdd(Created(old(ideal), c, priority), c)
      ensures ideal == AddReady(Created(old(ideal), c, priority), c)
    {
      hide ListsOk, Mirrors;
      CreatedOk(ideal, c, priority);
      if pxCurrentCoRoutine.None? {
        pxCurrentCoRoutine := Some(c);
      }
      var p := if priority >= |pxReadyCoRoutineLists| then |pxReadyCoRoutineLists| - 1 else priority;
      co := co[c := Crcb(p, InHand, Nowhere)];
      ideal := Created(ideal, c, priority);
      AddReadyOk(ideal, c);
      AddToReadyQueue(c);
    }
  }

  ghost predicate CanSleep(s: Scheduler, c: Co) {
    c in s.co && s.co[c].priority < |s.ready| && var r := s.ready[s.co[c].priority];
        r.Valid() && Find(r.items, c) < |r.items|
  }

  ghost predicate CanAdd(s: Scheduler, c: Co) {
    c in s.co && s.co[c].priority < |s.ready| && s.ready[s.co[c].priority].Valid()
  }

  lemma DelayedDistinct(s: Scheduler)
    requires ListsOk(s)
    ensures DistinctOwners(s.delayed)
  {
    hide ReadyOk, EventsOk, DistinctOwners;
  }

  /** The difference of two wrapped counts is the number of ticks in between, so the count catches up. */
  lemma CaughtUp(tick: nat, passed: nat, xTaskTickCount: nat)
    requires xTaskTickCount < TICKS && passed == (xTaskTickCount + TICKS - Wrap(tick)) % TICKS
    ensures Wrap(tick + passed) == xTaskTickCount
  {
  }

  lemma {:induction false} DeliverAllAhead(s: Scheduler)
    requires ListsOk(s) && Ahead(s, s.tick + 1)
    ensures var t := DeliverAll(s); Ahead(t, t.tick + 1) && t.tick == s.tick
    decreases |s.pending|
  {
    hide ListsOk, Ahead, AddReady;
    if s.pending != [] {
      var c := s.pending[0].owner;
      PendingHere(s);
      DetachOk(s, c);
      var d := Detach(s, c);
      UndelayOk(d, c);
      var u := Undelay(d, c);
      AddReadyOk(u, c);
      Added(u, c);
      SameAhead(s, d, s.tick + 1);
      AheadWithout(d, s.tick + 1, c);
      SameAhead(d.(delayed := Without(d.delayed, c)), AddReady(u, c), s.tick + 1);
      DeliverAllAhead(Deliver(s));
    }
  }
}
