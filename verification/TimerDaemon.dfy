/** The timer daemon of timers.c: a 32-bit tick count that wraps, a current and an overflow list that
    are switched when it does, proved to implement the ideal service of module TimerService. */
module TimerDaemon {
  import opened EventLists
  import opened TimerService
  import opened WrappedLists

  // ---------------------------------------------------------------- wrapped arithmetic

  /** Unsigned 32-bit subtraction. */
  function Minus(a: nat, b: nat): nat
    requires a < TICKS && b < TICKS
  {
    (a + TICKS - b) % TICKS
  }

  datatype Placement = ProcessNow | ToCurrent | ToOverflow

  /** The comparisons of prvInsertTimerInActiveList, on wrapped values only. */
  function Decide(xNext: nat, xNow: nat, xCommand: nat, period: nat): Placement
    requires xNow < TICKS && xCommand < TICKS
  {
    if xNext <= xNow then
      if Minus(xNow, xCommand) >= period then ProcessNow else ToOverflow
    else
      if xNow < xCommand && xNext >= xCommand then ProcessNow else ToCurrent
  }

  /** Every wrapped decision equals the ideal one, for a command processed within one wrap. */
  lemma WrappedDecision(command: nat, period: nat, now: nat)
    requires 0 < period < TICKS && command <= now < command + TICKS
    ensures var next := command + period;
            && (next > now ==> Epoch(next) == Epoch(now) || Epoch(next) == Epoch(now) + 1)
            && Decide(Wrap(next), Wrap(now), Wrap(command), period) ==
               if next <= now then ProcessNow else if Epoch(next) == Epoch(now) then ToCurrent else ToOverflow
  {
    var next := command + period;
    var ec, en := Epoch(command), Epoch(now);
    assert command == ec * TICKS + Wrap(command) && now == en * TICKS + Wrap(now);
    assert next == Epoch(next) * TICKS + Wrap(next);
    assert en == ec || en == ec + 1;
    assert Epoch(next) == ec || Epoch(next) == ec + 1;
    assert Minus(Wrap(now), Wrap(command)) == now - command;
  }

  lemma DecisionByGuards(command: nat, period: nat, now: nat)
    requires 0 < period < TICKS && command <= now < command + TICKS
    ensures var next := command + period;
            var xNext, xNow, xCommand := Wrap(next), Wrap(now), Wrap(command);
            var late := if xNext <= xNow then Minus(xNow, xCommand) >= period else xNow < xCommand && xNext >= xCommand;
            && (late <==> next <= now)
            && (!late ==> Epoch(next) == Epoch(now) + if xNext <= xNow then 1 else 0)
  {
    WrappedDecision(command, period, now);
  }

  /** What the guards can see of a delay is its remainder by the width of the tick count. */
  lemma DecisionSeesRemainder(command: nat, period: nat, now: nat)
    requires 0 < period < TICKS && command <= now
    ensures Decide(Wrap(command + period), Wrap(now), Wrap(command), period) == ProcessNow
            <==> period <= (now - command) % TICKS
  {
    var seen := command + (now - command) % TICKS;
    SameWrap(command, now);
    WrappedDecision(command, period, seen);
  }

  lemma SameWrap(command: nat, now: nat)
    requires command <= now
    ensures Wrap(command + (now - command) % TICKS) == Wrap(now)
  {
  }

  /** However long a command waits, it is judged rightly exactly when it waited less than a wrap, or when its
      period has passed in the remainder too. */
  lemma RightlyJudged(command: nat, period: nat, now: nat)
    requires 0 < period < TICKS && command <= now
    ensures (Decide(Wrap(command + period), Wrap(now), Wrap(command), period) == ProcessNow
            <==> command + period <= now)
            <==> now - command < TICKS || period <= (now - command) % TICKS
  {
    DecisionSeesRemainder(command, period, now);
    ShortDelay(now - command);
    hide Decide, Wrap;
  }

  lemma ShortDelay(delay: nat)
    ensures delay < TICKS ==> delay % TICKS == delay
  {
  }

  /** After a delay of exactly one wrap the decision is wrong: the expiry is long past, yet the timer is queued
      as if it lay ahead. */
  lemma StaleCommandMisjudged(command: nat, period: nat)
    requires 0 < period < TICKS && Wrap(command) + period < TICKS
    ensures var now := command + TICKS;
            && command + period <= now
            && Decide(Wrap(command + period), Wrap(now), Wrap(command), period) == ToCurrent
  {
    assert Wrap(command + TICKS) == Wrap(command) && Wrap(command + period) == Wrap(command) + period;
  }

  // ---------------------------------------------------------------- the daemon

  /** The callbacks of a history, in the order they ran. */
  ghost function Ran(log: seq<Happening>): seq<TimerId> {
    if log == [] then []
    else Ran(log[..|log| - 1]) + if log[|log| - 1].Fired? then [log[|log| - 1].id] else []
  }

  lemma RanExtends(log: seq<Happening>, h: Happening)
    ensures Ran(log + [h]) == Ran(log) + if h.Fired? then [h.id] else []
  {
    assert (log + [h])[..|log|] == log;
  }

  /** A callback recorded since `log` is one that has run since. */
  lemma {:induction false} RanSince(log: seq<Happening>, longer: seq<Happening>, k: nat)
    requires log <= longer && |log| <= k < |longer| && longer[k].Fired?
    ensures Ran(log) <= Ran(longer) && longer[k].id in Ran(longer)[|Ran(log)|..]
    decreases |longer|
  {
    var n := |longer| - 1;
    var a, b := Ran(log), Ran(longer[..n]);
    if k < n {
      RanSince(log, longer[..n], k);
      assert Ran(longer)[|a|..] == b[|a|..] + Ran(longer)[|b|..];
    } else {
      RanPrefix(log, longer[..n]);
      assert Ran(longer)[|a|..] == b[|a|..] + [longer[k].id];
    }
  }

  lemma {:induction false} RanPrefix(log: seq<Happening>, longer: seq<Happening>)
    requires log <= longer
    ensures Ran(log) <= Ran(longer)
    decreases |longer|
  {
    if |log| < |longer| {
      RanPrefix(log, longer[..|longer| - 1]);
    } else {
      assert log == longer;
    }
  }

  lemma RanFacts(w: Wrapped, s: Service, t: nat)
    requires Represents(w, s, t)
    ensures w.callbacks == Ran(s.log)
  {
  }

  /** A poll within the epoch that finds the head of the current list expired runs its callback. */
  lemma HeadRuns(w: Wrapped, s: Service, t: nat, now: nat, z: Service)
    requires Represents(w, s, t) && Inv(s) && Acceptable(System(s, t), Poll(now)) && Epoch(t) == Epoch(now)
    requires w.current != [] && w.current[0].value <= Wrap(now)
    requires z == Step(System(s, t), Poll(now)).service
    ensures Ran(s.log) <= Ran(z.log) && w.current[0].owner in Ran(z.log)[|Ran(s.log)|..]
  {
    HeadRepresented(w, s, t);
    WrapGap(now, s.queue[0].value);
    PollServes(System(s, t), now);
    hide Represents, Inv, Step, Ran;
    RanSince(s.log, z.log, |s.log|);
  }

  lemma WrapSum(a: nat, b: nat)
    ensures (Wrap(a) + b) % TICKS == Wrap(a + b)
  {
  }

  /** What the daemon holds: wrapped tick values only. */
  datatype Wrapped = Wrapped(
    timers: map<TimerId, Timer>,
    current: seq<Entry<TimerId>>,   // the list pxCurrentTimerList points to
    overflow: seq<Entry<TimerId>>,  // the list pxOverflowTimerList points to
    xLastTime: nat,
    callbacks: seq<TimerId>         // timers whose callbacks ran, in order
  )

  /** The wrapped state `w` represents the ideal state `s` at ideal time `t`. */
  ghost predicate Represents(w: Wrapped, s: Service, t: nat) {
    && w.timers == s.timers && w.callbacks == Ran(s.log)
    && Known(s) && Sorted(s.queue)
    && Mirrors(w.current, w.overflow, s.queue, t) && w.xLastTime == Wrap(t)
  }

  lemma RepresentsFacts(w: Wrapped, s: Service, t: nat)
    requires Represents(w, s, t)
    ensures w.timers == s.timers && Known(s) && Sorted(s.queue) && w.xLastTime == Wrap(t)
    ensures forall id :: id in w.timers ==> 0 < w.timers[id].period < TICKS
  {
  }

  lemma TimerKnown(w: Wrapped, s: Service, t: nat, id: TimerId)
    requires Represents(w, s, t) && id in w.timers
    ensures w.timers == s.timers && Known(s) && 0 < w.timers[id].period < TICKS
  {
  }

  lemma SamplesKnown(w: Wrapped, s: Service, t: nat, timers: map<TimerId, Timer>)
    requires Represents(w, s, t) && s.timers.Keys == timers.Keys
    ensures w.timers.Keys == timers.Keys
  {
  }

  lemma PlaceCurrent(w: Wrapped, s: Service, t: nat, id: TimerId, next: nat)
    requires Represents(w, s, t) && id in s.timers && Epoch(next) == Epoch(t)
    ensures Represents(w.(current := SortedInsert(w.current, Entry(Wrap(next), id))), Listed(s, id, next), t)
  {
    hide Wrap, Epoch, Mirrors, Sorted, SortedInsert;
    MirrorInsertCurrent(w.current, w.overflow, s.queue, t, Entry(next, id));
    InsertKeepsOrder(s.queue, Entry(next, id));
    ListedKnown(s, id, next);
  }

  lemma PlaceOverflow(w: Wrapped, s: Service, t: nat, id: TimerId, next: nat)
    requires Represents(w, s, t) && id in s.timers && Epoch(next) == Epoch(t) + 1
    ensures Represents(w.(overflow := SortedInsert(w.overflow, Entry(Wrap(next), id))), Listed(s, id, next), t)
  {
    hide Wrap, Epoch, Mirrors, Sorted, SortedInsert;
    MirrorInsertOverflow(w.current, w.overflow, s.queue, t, Entry(next, id));
    InsertKeepsOrder(s.queue, Entry(next, id));
    ListedKnown(s, id, next);
  }

  lemma ListedKnown(s: Service, id: TimerId, due: nat)
    requires Known(s) && id in s.timers
    ensures Known(Listed(s, id, due))
  {
    var r := Listed(s, id, due);
    forall i | 0 <= i < |r.queue| ensures r.queue[i].owner in r.timers {
      var p := Position(s.queue, due);
      assert r.queue[i] == if i < p then s.queue[i] else if i == p then Entry(due, id) else s.queue[i - 1];
    }
  }

  lemma CallbackRepresented(w: Wrapped, s: Service, t: nat, id: TimerId, due: nat)
    requires Represents(w, s, t)
    ensures Represents(w.(callbacks := w.callbacks + [id]), s.(log := s.log + [Fired(id, due)]), t)
  {
    RanExtends(s.log, Fired(id, due));
  }

  /** The head of a non-empty current list is the earliest expiry of all. */
  lemma HeadRepresented(w: Wrapped, s: Service, t: nat)
    requires Represents(w, s, t) && w.current != []
    ensures s.queue != [] && s.queue[0].owner == w.current[0].owner && s.queue[0].owner in s.timers
    ensures w.timers == s.timers
    ensures w.current[0].value == Wrap(s.queue[0].value) && Epoch(s.queue[0].value) == Epoch(t)
    ensures forall i :: 0 <= i < |s.queue| ==> s.queue[0].value <= s.queue[i].value
    ensures Represents(w.(current := w.current[1..]), s.(queue := s.queue[1..]), t)
  {
    hide Wrap, Epoch;
    assert Mirrored(w.current[0], s.queue[..|w.current|][0], Epoch(t));
    assert s.queue[1..][..|w.current| - 1] == s.queue[..|w.current|][1..];
    assert s.queue[1..][|w.current| - 1..] == s.queue[|w.current|..];
    assert forall i :: 0 <= i < |s.queue[1..]| ==> s.queue[1..][i] == s.queue[i + 1];
  }

  lemma NoneCurrent(w: Wrapped, s: Service, t: nat)
    requires Represents(w, s, t) && w.current == []
    ensures forall i :: 0 <= i < |s.queue| ==> Epoch(s.queue[i].value) == Epoch(t) + 1
    ensures |w.overflow| == |s.queue|
  {
    assert s.queue[|w.current|..] == s.queue;
    forall i | 0 <= i < |s.queue| ensures Epoch(s.queue[i].value) == Epoch(t) + 1 {
      assert Mirrored(w.overflow[i], s.queue[i], Epoch(t) + 1);
    }
  }

  /** Swapping the list pointers once the current list is empty. */
  lemma SwitchRepresented(w: Wrapped, s: Service, t: nat, now: nat)
    requires Represents(w, s, t) && w.current == [] && Epoch(now) == Epoch(t) + 1
    ensures Represents(w.(current := w.overflow, overflow := [], xLastTime := Wrap(now)), s, now)
  {
    assert s.queue[|w.current|..] == s.queue == s.queue[..|w.overflow|];
  }

  lemma TimeRepresented(w: Wrapped, s: Service, t: nat, now: nat)
    requires Represents(w, s, t) && Epoch(now) == Epoch(t)
    ensures Represents(w.(xLastTime := Wrap(now)), s, now)
  {
  }

  lemma TimerRepresented(w: Wrapped, s: Service, t: nat, id: TimerId, timer: Timer, log: seq<Happening>)
    requires Represents(w, s, t) && 0 < timer.period < TICKS && Ran(log) == Ran(s.log)
    ensures Represents(w.(timers := w.timers[id := timer]), s.(timers := s.timers[id := timer], log := log), t)
  {
  }

  lemma DeletedRepresented(w: Wrapped, s: Service, t: nat, id: TimerId)
    requires Represents(w, s, t) && !Holds(s.queue, id)
    ensures Represents(w.(timers := w.timers - {id}), s.(timers := s.timers - {id}), t)
  {
  }

  /** Taking a timer off whichever list it is in. */
  lemma RemovalRepresented(w: Wrapped, s: Service, t: nat, id: TimerId)
    requires Represents(w, s, t) && DistinctOwners(s.queue)
    ensures Represents(w.(current := Without(w.current, id), overflow := Without(w.overflow, id)),
                       s.(queue := Without(s.queue, id)), t)
  {
    hide Wrap, Epoch, Sorted, DistinctOwners, Known, Mirrors;
    WithoutKnown(s, id);
    assert Mirrors(Without(w.current, id), Without(w.overflow, id), Without(s.queue, id), t) by {
      MirrorsWithout(w.current, w.overflow, s.queue, t, id);
    }
  }

  class TimerDaemon {
    var timers: map<TimerId, Timer>
    var current: seq<Entry<TimerId>>
    var overflow: seq<Entry<TimerId>>
    var xLastTime: nat
    var callbacks: seq<TimerId>
    ghost var service: Service  // the ideal state
    ghost var last: nat         // the ideal time of the last sample

    ghost function State(): Wrapped
      reads this
    {
      Wrapped(timers, current, overflow, xLastTime, callbacks)
    }

    ghost function Ideal(): System
      reads this
    {
      System(service, last)
    }

    ghost predicate Coupled()
      reads this
    {
      Represents(State(), service, last)
    }

    ghost predicate Valid()
      reads this
    {
      Coupled() && Inv(service)
    }

    constructor ()
      ensures Valid() && Ideal() == INITIAL
    {
      timers, current, overflow, xLastTime, callbacks := map[], [], [], 0, [];
      service, last := INITIAL.service, INITIAL.last;
    }

    /** Returns whether the timer has already expired; if not, it is put on a list. */
    method InsertTimerInActiveList(id: TimerId, xNextExpiryTime: nat, xTimeNow: nat, xCommandTime: nat,
                                   ghost command: nat, ghost now: nat) returns (processNow: bool)
      requires Coupled() && id in timers && Epoch(now) == Epoch(last)
      requires command <= now < command + TICKS
      requires xNextExpiryTime == Wrap(command + timers[id].period) && xTimeNow == Wrap(now)
               && xCommandTime == Wrap(command)
      modifies this`current, this`overflow, this`service
      ensures Coupled()
      ensures processNow <==> command + timers[id].period <= now
      ensures service == if processNow then old(service) else Listed(old(service), id, command + timers[id].period)
    {
      hide Wrap, Epoch, Represents, SortedInsert, Minus, Listed, Decide;
      assert id in service.timers && 0 < timers[id].period < TICKS by {
        RepresentsFacts(State(), service, last);
      }
      ghost var next := command + timers[id].period;
      DecisionByGuards(command, timers[id].period, now);
      processNow := false;
      if xNextExpiryTime <= xTimeNow {
        if Minus(xTimeNow, xCommandTime) >= timers[id].period {
          processNow := true;
        } else {
          PlaceOverflow(State(), service, last, id, next);
          overflow := SortedInsert(overflow, Entry(xNextExpiryTime, id));
          service := Listed(service, id, next);
        }
      } else {
        if xTimeNow < xCommandTime && xNextExpiryTime >= xCommandTime {
          processNow := true;
        } else {
          PlaceCurrent(State(), service, last, id, next);
          current := SortedInsert(current, Entry(xNextExpiryTime, id));
          service := Listed(service, id, next);
        }
      }
    }

    method RunCallback(id: TimerId, ghost due: nat)
      requires Coupled()
      modifies this`callbacks, this`service
      ensures Coupled() && callbacks == old(callbacks) + [id]
      ensures service == old(service).(log := old(service).log + [Fired(id, due)])
    {
      hide Represents;
      CallbackRepresented(State(), service, last, id, due);
      callbacks := callbacks + [id];
      service := service.(log := service.log + [Fired(id, due)]);
    }

    /** Returns with one callback still owed: the one for `lastDue`. */
    method ReloadTimer(id: TimerId, xExpiredTime: nat, xTimeNow: nat, ghost due: nat, ghost now: nat)
      returns (ghost lastDue: nat)
      requires Coupled() && id in timers && 0 < timers[id].period && Epoch(now) == Epoch(last)
      requires due <= now < due + TICKS && xExpiredTime == Wrap(due) && xTimeNow == Wrap(now)
      modifies this`current, this`overflow, this`service, this`callbacks
      ensures Coupled() && service.timers == old(service.timers)
      ensures var p := timers[id].period;
              && service.queue == SortedInsert(old(service.queue), Entry(NextDue(due, p, now), id))
              && service.log + [Fired(id, lastDue)] == old(service.log) + Callbacks(id, due, p, now)
    {
      hide Wrap, Epoch, Represents, SortedInsert;
      ghost var p := timers[id].period;
      ghost var was := service;
      var xExpired := xExpiredTime;
      lastDue := due;
      WrapSum(lastDue, p);
      var expired := InsertTimerInActiveList(id, (xExpired + timers[id].period) % TICKS, xTimeNow, xExpired, lastDue,
          now);
      while expired
        invariant Coupled() && service.timers == was.timers
        invariant due <= lastDue <= now && xExpired == Wrap(lastDue)
        invariant expired <==> lastDue + p <= now
        invariant service.queue == if expired then was.queue else SortedInsert(was.queue, Entry(lastDue + p, id))
        invariant service.log + Callbacks(id, lastDue, p, now) == was.log + Callbacks(id, due, p, now)
        invariant NextDue(lastDue, p, now) == NextDue(due, p, now)
        decreases now - lastDue, expired
      {
        WrapSum(lastDue, p);
        ghost var rest := Callbacks(id, lastDue + p, p, now);
        assert service.log + Callbacks(id, lastDue, p, now) == service.log + [Fired(id, lastDue)] + rest;
        xExpired := (xExpired + timers[id].period) % TICKS;
        RunCallback(id, lastDue);
        lastDue := lastDue + p;
        WrapSum(lastDue, p);
        expired := InsertTimerInActiveList(id, (xExpired + timers[id].period) % TICKS, xTimeNow, xExpired, lastDue,
            now);
      }
      assert Callbacks(id, lastDue, p, now) == [Fired(id, lastDue)];
    }

    /** What both callers do with an expired timer that is in no list: reload it or mark it idle, and
        run its callback. */
    method ServeExpired(id: TimerId, xExpiredTime: nat, xTimeNow: nat, ghost due: nat, ghost now: nat)
      requires Coupled() && id in timers && Epoch(now) == Epoch(last)
      requires due <= now < due + TICKS && xExpiredTime == Wrap(due) && xTimeNow == Wrap(now)
      modifies this`timers, this`current, this`overflow, this`service, this`callbacks
      ensures Known(old(service)) && id in old(service.timers)
      ensures Coupled() && service == Expire(old(service), id, due, now)
    {
      hide Wrap, Epoch, Represents, SortedInsert, NextDue, Callbacks;
      TimerKnown(State(), service, last, id);
      var lastDue := due;
      if timers[id].autoReload {
        lastDue := ReloadTimer(id, xExpiredTime, xTimeNow, due, now);
      } else {
        Deactivate(id);
      }
      RunCallback(id, lastDue);
    }

    method ProcessExpiredTimer(xNextExpireTime: nat, xTimeNow: nat, ghost now: nat)
      requires Coupled() && current != [] && xNextExpireTime == current[0].value
      requires Epoch(now) == Epoch(last) && xTimeNow == Wrap(now)
      requires xNextExpireTime <= xTimeNow
      modifies this`timers, this`current, this`overflow, this`service, this`callbacks
      ensures old(service.queue) != [] && old(service.queue)[0].value <= now && Known(old(service))
      ensures Coupled() && service == FireHead(old(service), now)
    {
      hide Represents, Sorted, SortedInsert, Expire;
      HeadRepresented(State(), service, last);
      TimerKnown(State(), service, last, current[0].owner);
      ghost var due := service.queue[0].value;
      WrapOrder(due, now);
      EpochSpan(due, now);
      var id := current[0].owner;
      current := current[1..];
      service := service.(queue := service.queue[1..]);
      ServeExpired(id, xNextExpireTime, xTimeNow, due, now);
    }

    /** Serves everything left in the current list, then swaps the lists. */
    method SwitchTimerLists(ghost now: nat)
      requires Coupled() && last <= now && (service.queue != [] ==> Epoch(now) == Epoch(last) + 1)
      modifies this`timers, this`current, this`overflow, this`service, this`callbacks, this`last
      ensures Represents(State().(xLastTime := Wrap(now)), service, now) && last == now
      ensures Known(old(service)) && Sorted(old(service.queue)) && service == Sample(old(service), old(last), now)
      ensures old(DistinctOwners(service.queue)) ==> AllServed(old(service), service, EpochEnd(old(last)))
    {
      ghost var was, start, end := service, last, EpochEnd(last);
      EndOfEpoch(last);
      RepresentsFacts(State(), service, last);
      ListsEmpty(State(), service, last);
      if DistinctOwners(was.queue) { DrainServesAll(was, end); }
      while current != []
        invariant Coupled() && Known(service) && Sorted(service.queue) && last == start
        invariant Drain(service, end) == Drain(was, end)
        invariant was.queue == [] ==> service == was && current == [] && overflow == []
        decreases Position(service.queue, end)
      {
        HeadRepresented(State(), service, last);
        WrapSmall(current[0].value, service.queue[0].value);
        FireHeadFewerDue(service, end);
        ProcessExpiredTimer(current[0].value, TICKS - 1, end);
        RepresentsFacts(State(), service, last);
      }
      if was.queue == [] {
        EmptyRepresented(State(), service, last, now);
        NothingToDrain(was, last, now);
      } else {
        NoneCurrent(State(), service, last);
        if service.queue != [] { EpochsOrdered(last, service.queue[0].value); }
        SwitchRepresented(State(), service, last, now);
      }
      current, overflow := overflow, [];
      last := now;
    }

    method SampleTimeNow(xTickCount: nat, ghost now: nat) returns (xTimeNow: nat, listsWereSwitched: bool)
      requires Coupled() && xTickCount == Wrap(now) && InTime(Ideal(), now)
      modifies this`timers, this`current, this`overflow, this`service, this`callbacks, this`xLastTime, this`last
      ensures Known(old(service)) && Sorted(old(service.queue)) && service == Sample(old(service), old(last), now)
      ensures Coupled() && last == now && xTimeNow == Wrap(now)
      ensures listsWereSwitched <==> Wrap(now) < Wrap(old(last))
      ensures old(service.queue) != [] ==> (listsWereSwitched <==> Epoch(old(last)) < Epoch(now))
      ensures !listsWereSwitched ==> current == old(current) && overflow == old(overflow)
    {
      RepresentsFacts(State(), service, last);
      ListsEmpty(State(), service, last);
      if service.queue == [] {
        EmptyRepresented(State(), service, last, now);
        NothingToDrain(service, last, now);
      } else {
        NextEpoch(last, now);
      }
      hide Wrap, Epoch, Represents, Sorted, Sample;
      xTimeNow := xTickCount;
      if xTimeNow < xLastTime {
        SwitchTimerLists(now);
        listsWereSwitched := true;
      } else {
        if service.queue != [] {
          SampleWithin(service, last, now);
          TimeRepresented(State(), service, last, now);
        }
        listsWereSwitched := false;
        last := now;
      }
      xLastTime := xTimeNow;
    }

    method GetNextExpireTime() returns (xNextExpireTime: nat, listWasEmpty: bool)
      ensures listWasEmpty <==> current == []
      ensures xNextExpireTime == if current == [] then 0 else current[0].value
    {
      listWasEmpty := |current| == 0;
      if !listWasEmpty {
        xNextExpireTime := current[0].value;
      } else {
        xNextExpireTime := 0;
      }
    }

    /** One round of the daemon.  If it blocks, it is for a time that ends no later than the earliest
        expiry, and nothing is due. */
    method ProcessTimerOrBlockTask(xNextExpireTime: nat, listWasEmpty: bool, xTickCount: nat, ghost now: nat)
      returns (block: Block)
      requires Valid() && (listWasEmpty <==> current == [])
      requires xNextExpireTime == if current == [] then 0 else current[0].value
      requires xTickCount == Wrap(now) && InTime(Ideal(), now)
      modifies this
      ensures Valid() && Ideal() == Step(old(Ideal()), Poll(now))
      ensures block.Sleep? <==>
              Wrap(old(last)) <= Wrap(now) && forall i :: 0 <= i < |old(service.queue)| ==>
                  now < old(service.queue)[i].value
      ensures block.Sleep? ==>
              && (forall i :: 0 <= i < |service.queue| ==> now + block.ticks <= service.queue[i].value)
              && (block.ticks == 0 ==> Wrap(now) == 0)
              && (block.indefinitely <==> service.queue == [])
              && block.ticks < TICKS && Wrap(now + block.ticks) == if current == [] then 0 else current[0].value
      ensures old(xLastTime) <= xTickCount && old(current) != [] && old(current)[0].value <= xTickCount ==>
              && block.Continue? && old(callbacks) <= callbacks
              && old(current)[0].owner in callbacks[|old(callbacks)|..]
      ensures xTickCount < old(xLastTime) ==>
              block.Continue? && AllServed(old(service), service, EpochEnd(old(last)))
    {
      hide Wrap, Epoch, Represents, Sorted, InvBut, FireHead, Drain, Minus, Known, DistinctOwners, Holds, Ran,
        AllServed;
      RepresentsFacts(State(), service, last);
      ListsEmpty(State(), service, last);
      if service.queue == [] {
        NothingToDrain(service, last, now);
        NothingToServe(service, EpochEnd(last));
      } else {
        NextEpoch(last, now);
        InvFacts(service, {});
        DrainServesAll(service, EpochEnd(last));
      }
      StepInv(Ideal(), Poll(now));
      ghost var was, start := State(), Ideal();
      if xLastTime <= xTickCount && current != [] && current[0].value <= xTickCount {
        HeadRuns(was, service, last, now, Step(start, Poll(now)).service);
      }
      RanFacts(was, service, last);
      if current != [] {
        HeadRepresented(State(), service, last);
        WrapGap(now, service.queue[0].value);
      } else {
        NoneCurrent(State(), service, last);
        WrapToEnd(now, service.queue);
      }
      var xTimeNow, switched := SampleTimeNow(xTickCount, now);
      if !switched {
        if !listWasEmpty && xNextExpireTime <= xTimeNow {
          ProcessExpiredTimer(xNextExpireTime, xTimeNow, now);
          block := Continue;
        } else {
          var empty := listWasEmpty;
          if empty {
            empty := |overflow| == 0;
          }
          MinusReaches(xNextExpireTime, now);
          block := Sleep(Minus(xNextExpireTime, xTimeNow), empty);
        }
      } else {
        block := Continue;
      }
      RanFacts(State(), service, last);
    }

    method Deactivate(id: TimerId)
      requires Coupled() && id in timers
      modifies this`timers, this`service
      ensures Coupled() && id in old(service.timers)
      ensures service == old(service).(timers := old(service.timers)[id := old(service.timers)[id].(active := false)])
    {
      hide Represents;
      TimerKnown(State(), service, last, id);
      TimerRepresented(State(), service, last, id, timers[id].(active := false), service.log);
      timers := timers[id := timers[id].(active := false)];
      service := service.(timers := timers);
    }

    method Begin(id: TimerId, period: nat, ghost at: nat)
      requires Coupled() && id in timers && 0 < period < TICKS
      modifies this`timers, this`service
      ensures Coupled() && id in old(service.timers) && id in timers && timers[id].period == period
      ensures service == Begun(old(service), id, at, period)
    {
      hide Represents, Ran, Known;
      TimerKnown(State(), service, last, id);
      RanExtends(service.log, Started(id, at, period));
      TimerRepresented(State(), service, last, id, timers[id].(active := true, period := period),
                       service.log + [Started(id, at, period)]);
      timers := timers[id := timers[id].(active := true, period := period)];
      service := Begun(service, id, at, period);
    }

    method StartTimer(id: TimerId, xMessageValue: nat, xTimeNow: nat, ghost issued: nat, ghost now: nat)
      requires Coupled() && id in timers && now == last && issued <= now < issued + TICKS
      requires xMessageValue == Wrap(issued) && xTimeNow == Wrap(now)
      modifies this`timers, this`current, this`overflow, this`service, this`callbacks
      ensures Known(old(service)) && id in old(service.timers)
      ensures Coupled() && service == Restart(old(service), id, issued, now)
    {
      hide Wrap, Epoch, Represents, Listed, Expire, Begun;
      TimerKnown(State(), service, last, id);
      ghost var p := timers[id].period;
      Begin(id, timers[id].period, issued);
      WrapSum(issued, p);
      var expired := InsertTimerInActiveList(id, (xMessageValue + timers[id].period) % TICKS, xTimeNow, xMessageValue,
          issued, now);
      if expired {
        ServeExpired(id, (xMessageValue + timers[id].period) % TICKS, xTimeNow, issued + p, now);
      }
    }

    method RestartWithPeriod(id: TimerId, newPeriod: nat, xTimeNow: nat, ghost now: nat)
      requires Coupled() && id in timers && now == last && 0 < newPeriod < TICKS && xTimeNow == Wrap(now)
      modifies this`timers, this`current, this`overflow, this`service
      ensures id in old(service.timers)
      ensures Coupled() && service == Listed(Begun(old(service), id, now, newPeriod), id, now + newPeriod)
    {
      hide Wrap, Epoch, Represents, Listed, Begun;
      Begin(id, newPeriod, now);
      WrapSum(now, newPeriod);
      var expired := InsertTimerInActiveList(id, (xTimeNow + timers[id].period) % TICKS, xTimeNow, xTimeNow, now, now);
    }

    method TakeOff(id: TimerId)
      requires Coupled() && DistinctOwners(service.queue)
      modifies this`current, this`overflow, this`service
      ensures Coupled() && service == old(service).(queue := Without(old(service.queue), id))
    {
      hide Represents, Without;
      RemovalRepresented(State(), service, last, id);
      current, overflow := Without(current, id), Without(overflow, id);
      service := service.(queue := Without(service.queue, id));
    }

    /** The switch over the command identifier. */
    method Dispatch(m: Message, xTimeNow: nat, ghost issued: nat, ghost now: nat)
      requires Coupled() && m.id in timers && now == last && xTimeNow == Wrap(now) && !Holds(service.queue, m.id)
      requires var c := Meaning(m.xMessageID, issued, m.xMessageValue);
               && (c.Start? ==> m.xMessageValue == Wrap(issued) && issued <= now < issued + TICKS)
               && (c.ChangePeriod? ==> 0 < c.newPeriod < TICKS)
      modifies this`timers, this`current, this`overflow, this`service, this`callbacks
      ensures Known(old(service)) && m.id in old(service.timers)
      ensures Coupled()
      ensures service == Execute(old(service), m.id, Meaning(m.xMessageID, issued, m.xMessageValue), now)
    {
      hide Wrap, Represents, Restart, Listed, Begun;
      var id := m.id;
      TimerKnown(State(), service, last, id);
      if m.xMessageID == 1 || m.xMessageID == 2 || m.xMessageID == 6 || m.xMessageID == 7 {
        StartTimer(id, m.xMessageValue, xTimeNow, issued, now);
      } else if m.xMessageID == 3 || m.xMessageID == 8 {
        Deactivate(id);
      } else if m.xMessageID == 4 || m.xMessageID == 9 {
        RestartWithPeriod(id, m.xMessageValue, xTimeNow, now);
      } else if m.xMessageID == 5 {
        if !timers[id].isStatic {
          DeletedRepresented(State(), service, last, id);
          timers := timers - {id};
          service := service.(timers := service.timers - {id});
        } else {
          Deactivate(id);
        }
      }
    }

    /** The body of the loop over received commands.  `issued` is the ideal time of a start's time stamp. */
    method ProcessCommand(m: Message, ghost issued: nat, ghost now: nat)
      requires Valid() && m.xTickCount == Wrap(now)
      requires Acceptable(Ideal(), Process(m.id, Meaning(m.xMessageID, issued, m.xMessageValue), now))
      requires Meaning(m.xMessageID, issued, m.xMessageValue).Start? ==> m.xMessageValue == Wrap(issued)
      modifies this
      ensures Coupled()
      ensures Valid() <==> !Stranding(old(Ideal()), Process(m.id, Meaning(m.xMessageID, issued, m.xMessageValue), now))
      ensures Ideal() == Step(old(Ideal()), Process(m.id, Meaning(m.xMessageID, issued, m.xMessageValue), now))
      ensures m.id in old(timers) && timers == service.timers
      ensures m.xMessageID in {1, 2, 6, 7} ==> StartedFrom(old(service), service, m.id, issued, now)
      ensures m.xMessageID in {3, 8} ==>
              && m.id in timers && timers[m.id] == old(timers)[m.id].(active := false) && !Holds(service.queue, m.id)
      ensures m.xMessageID in {4, 9} ==>
              && m.id in timers && timers[m.id] == old(timers)[m.id].(active := true, period := m.xMessageValue)
              && Entry(now + m.xMessageValue, m.id) in service.queue
      ensures m.xMessageID == 5 ==>
              && !Holds(service.queue, m.id)
              && if old(timers)[m.id].isStatic
                 then m.id in timers && timers[m.id] == old(timers)[m.id].(active := false)
                 else m.id !in timers
    {
      hide Wrap, Epoch, Represents, InvBut, Known, Without, Sample, Execute, Sorted, DistinctOwners, Holds;
      ghost var c := Meaning(m.xMessageID, issued, m.xMessageValue);
      ghost var taken := service.(queue := Without(service.queue, m.id));
      WithoutEmpty(service.queue, m.id);
      StepInv(Ideal(), Process(m.id, c, now));
      CommandMeans(Ideal(), m.id, c, now);
      RepresentsFacts(State(), service, last);
      InvFacts(service, {});
      WithoutKnown(service, m.id);
      TakenOff(service, m.id);
      SampleInv(taken, last, now);
      TakeOff(m.id);
      var xTimeNow, switched := SampleTimeNow(m.xTickCount, now);
      SamplesKnown(State(), service, last, taken.timers);
      HoleFree(service, m.id);
      Dispatch(m, xTimeNow, issued, now);
      RepresentsFacts(State(), service, last);
    }

    /** Empties the command queue.  `evs` names the ideal event of each message. */
    method ProcessReceivedCommands(queued: seq<Message>, ghost evs: seq<Event>)
      requires Valid() && |evs| == |queued|
      requires forall i :: 0 <= i < |queued| ==> Asks(queued[i], evs[i])
      requires AllEnabled(Ideal(), evs)
      modifies this
      ensures Valid() && Run(old(Ideal()), evs, Ideal())
    {
      hide Enabled, Step, Represents, InvBut, Meaning;
      ghost var start := Ideal();
      var k := 0;
      while k < |queued|
        invariant k <= |queued|
        invariant Valid() && Run(start, evs[..k], Ideal()) && AllEnabled(Ideal(), evs[k..])
      {
        var m, rest := queued[k], evs[k..];
        assert Asks(m, evs[k]) && rest[0] == evs[k] && rest[1..] == evs[k + 1..];
        ghost var ev := evs[k];
        RunExtends(start, evs[..k], Ideal(), ev);
        assert evs[..k + 1] == evs[..k] + [ev];
        EnabledFacts(Ideal(), ev);
        StepInv(Ideal(), ev);
        if m.xMessageID < 0 {
          PendedStep(Ideal(), ev);
        }
        if m.xMessageID >= 0 {
          ghost var issued := if ev.command.Start? then ev.command.issued else 0;
          MeaningKept(m, ev, issued);
          ProcessCommand(m, issued, ev.now);
        }
        k := k + 1;
      }
      assert evs[..k] == evs;
    }

    method SetReloadMode(id: TimerId, autoReload: bool)
      requires Valid() && id in timers
      modifies this`timers, this`service
      ensures Enabled(old(Ideal()), Event.SetReloadMode(id, autoReload))
      ensures Valid() && Ideal() == Step(old(Ideal()), Event.SetReloadMode(id, autoReload))
      ensures timers == old(timers)[id := old(timers)[id].(autoReload := autoReload)]
    {
      TimerKnown(State(), service, last, id);
      StepInv(Ideal(), Event.SetReloadMode(id, autoReload));
      hide Represents, InvBut;
      TimerRepresented(State(), service, last, id, timers[id].(autoReload := autoReload), service.log);
      timers := timers[id := timers[id].(autoReload := autoReload)];
      service := service.(timers := timers);
    }

    method Create(id: TimerId, period: nat, autoReload: bool, isStatic: bool)
      requires Valid() && Enabled(Ideal(), Event.Create(id, period, autoReload, isStatic))
      modifies this`timers, this`service
      ensures Valid() && Ideal() == Step(old(Ideal()), Event.Create(id, period, autoReload, isStatic))
      ensures timers == old(timers)[id := Timer(period, autoReload, false, isStatic)]
    {
      RepresentsFacts(State(), service, last);
      StepInv(Ideal(), Event.Create(id, period, autoReload, isStatic));
      hide Represents, InvBut;
      TimerRepresented(State(), service, last, id, Timer(period, autoReload, false, isStatic), service.log);
      timers := timers[id := Timer(period, autoReload, false, isStatic)];
      service := service.(timers := timers);
    }
  }

  /** Message `m` carries the ideal event `ev`. */
  ghost predicate Asks(m: Message, ev: Event) {
    if m.xMessageID < 0 then ev.Pended?
    else
      && ev.Process? && m.id == ev.id && m.xTickCount == Wrap(ev.now)
      && ev.command == Meaning(m.xMessageID, if ev.command.Start? then ev.command.issued else 0, m.xMessageValue)
      && (ev.command.Start? ==> m.xMessageValue == Wrap(ev.command.issued))
  }

  lemma EnabledFacts(y: System, ev: Event)
    requires Enabled(y, ev)
    ensures Acceptable(y, ev) && !Stranding(y, ev)
  {
  }

  lemma WithoutEmpty(q: seq<Entry<TimerId>>, id: TimerId)
    ensures q == [] ==> Without(q, id) == []
  {
  }

  lemma PendedStep(y: System, ev: Event)
    requires Inv(y.service) && ev.Pended?
    ensures Acceptable(y, ev) && Step(y, ev) == y
  {
  }

  lemma MeaningKept(m: Message, ev: Event, issued: nat)
    requires Asks(m, ev) && m.xMessageID >= 0 && ev.Process?
    requires issued == if ev.command.Start? then ev.command.issued else 0
    ensures Meaning(m.xMessageID, issued, m.xMessageValue) == ev.command
    ensures ev.Process? && ev == Process(m.id, ev.command, ev.now) && m.xTickCount == Wrap(ev.now)
    ensures ev.command.Start? ==> m.xMessageValue == Wrap(issued)
  {
  }

  ghost predicate AllEnabled(y: System, evs: seq<Event>)
    decreases |evs|
  {
    evs == [] || (Inv(y.service) && Enabled(y, evs[0]) && AllEnabled(Step(y, evs[0]), evs[1..]))
  }

  datatype Message = Message(xMessageID: int, id: TimerId, xMessageValue: nat, xTickCount: nat)

  /** The command identifiers of timers.h. */
  function Meaning(xMessageID: int, issued: nat, value: nat): Command {
    if xMessageID == 1 || xMessageID == 2 || xMessageID == 6 || xMessageID == 7 then Start(issued)
    else if xMessageID == 3 || xMessageID == 8 then Stop
    else if xMessageID == 4 || xMessageID == 9 then ChangePeriod(value)
    else if xMessageID == 5 then Delete
    else Other
  }

  /** Without an active timer both lists are empty, and then they represent any time. */
  lemma ListsEmpty(w: Wrapped, s: Service, t: nat)
    requires Represents(w, s, t)
    ensures s.queue == [] <==> w.current == [] && w.overflow == []
  {
  }

  lemma EmptyRepresented(w: Wrapped, s: Service, t: nat, now: nat)
    requires Represents(w, s, t) && s.queue == []
    ensures Represents(w.(xLastTime := Wrap(now)), s, now)
  {
  }

  lemma NothingToDrain(s: Service, last: nat, now: nat)
    requires Known(s) && Sorted(s.queue) && s.queue == [] && last <= now
    ensures Sample(s, last, now) == s
  {
  }

  lemma NothingToServe(s: Service, end: nat)
    requires Known(s) && s.queue == []
    ensures AllServed(s, s, end)
  {
  }

  lemma SampleWithin(s: Service, last: nat, now: nat)
    requires Known(s) && Sorted(s.queue) && last <= now && Epoch(last) == Epoch(now)
    ensures Sample(s, last, now) == s
  {
  }

  /** Every entry due by the end was served, and exactly those ahead and the auto-reload timers are listed. */
  ghost predicate AllServed(s: Service, r: Service, end: nat)
    requires Known(s)
  {
    && s.log <= r.log
    && (forall i :: 0 <= i < |s.queue| && s.queue[i].value <= end ==>
       Fired(s.queue[i].owner, s.queue[i].value) in r.log)
    && (forall x :: Holds(r.queue, x) <==> Survivor(s, end, x))
  }

  lemma DrainServesAll(s: Service, end: nat)
    requires Known(s) && Sorted(s.queue) && DistinctOwners(s.queue)
    ensures AllServed(s, Drain(s, end), end)
  {
    hide Sorted, Known, DistinctOwners, Survivor, Holds;
    DrainKeepsLog(s, end);
    forall i | 0 <= i < |s.queue| && s.queue[i].value <= end
      ensures Fired(s.queue[i].owner, s.queue[i].value) in Drain(s, end).log {
      DrainFires(s, end, s.queue[i]);
    }
    forall x ensures Holds(Drain(s, end).queue, x) <==> Survivor(s, end, x) {
      DrainSurvivors(s, end, x);
    }
  }

  /** What the daemon asks of vQueueWaitForMessageRestricted. */
  datatype Block = Continue | Sleep(ticks: nat, indefinitely: bool)

  lemma WrapGap(now: nat, due: nat)
    ensures Epoch(now) == Epoch(due) ==> (Wrap(due) <= Wrap(now) <==> due <= now)
    ensures Epoch(now) == Epoch(due) && now <= due ==> Minus(Wrap(due), Wrap(now)) == due - now
  {
  }

  lemma MinusReaches(xTime: nat, now: nat)
    requires xTime < TICKS
    ensures Minus(xTime, Wrap(now)) < TICKS && Wrap(now + Minus(xTime, Wrap(now))) == xTime
  {
  }

  lemma WrapToEnd(now: nat, q: seq<Entry<TimerId>>)
    ensures Minus(0, Wrap(now)) == 0 ==> Wrap(now) == 0
    ensures forall i :: 0 <= i < |q| && Epoch(q[i].value) == Epoch(now) + 1 ==> now + Minus(0, Wrap(now)) <= q[i].value
  {
  }

  lemma EpochSpan(a: nat, b: nat)
    requires Epoch(a) == Epoch(b)
    ensures b < a + TICKS
  {
  }

  lemma NextEpoch(last: nat, now: nat)
    requires last <= now < last + TICKS
    ensures Wrap(now) < Wrap(last) <==> Epoch(now) == Epoch(last) + 1
    ensures Wrap(now) >= Wrap(last) <==> Epoch(now) == Epoch(last)
  {
  }

  lemma EndOfEpoch(t: nat)
    ensures Epoch(EpochEnd(t)) == Epoch(t) && Wrap(EpochEnd(t)) == TICKS - 1
  {
  }

  lemma WrapSmall(w: nat, v: nat)
    requires w == Wrap(v)
    ensures w <= TICKS - 1
  {
  }
}
