/** Software timers as an ideal service: an unbounded clock, one list of expiry times, and a history
    of what happened.  This is the reference that module TimerDaemon is proved to implement with a
    32-bit tick count that wraps and two lists that are switched. */
module TimerService {
  import opened Arithmetic
  import opened EventLists
  import opened WrappedLists

  type TimerId = nat

  datatype Timer = Timer(period: nat, autoReload: bool, active: bool, isStatic: bool)

  /** What a history records: a (re)start counted from time `at`, a callback for the expiry `due`. */
  datatype Happening =
    | Started(id: TimerId, at: nat, period: nat)
    | Fired(id: TimerId, due: nat)

  datatype Service = Service(
    timers: map<TimerId, Timer>,
    queue: seq<Entry<TimerId>>,     // active timers, each with its expiry time
    log: seq<Happening>
  )

  // ---------------------------------------------------------------- operations

  /** The callbacks of an auto-reload timer that expired at `due` and is served at `limit`. */
  function Callbacks(id: TimerId, due: nat, period: nat, limit: nat): seq<Happening>
    requires 0 < period
    decreases limit + 1 - due
  {
    if due > limit then [] else [Fired(id, due)] + Callbacks(id, due + period, period, limit)
  }

  /** The first expiry that lies after `limit`. */
  function NextDue(due: nat, period: nat, limit: nat): (r: nat)
    requires 0 < period
    ensures r > limit && r >= due && (due <= limit ==> r <= limit + period)
    decreases limit + 1 - due
  {
    if due > limit then due else NextDue(due + period, period, limit)
  }

  /** Exact catch-up: a timer that expired at `due` and is served at `limit` runs its callback
      1 + floor((limit - due) / period) times, once for each missed expiry and in order, and is
      queued again for the expiry after the last one it ran for. */
  lemma {:induction false} CatchUpExact(id: TimerId, due: nat, period: nat, limit: nat)
    requires 0 < period && due <= limit
    ensures var c := Callbacks(id, due, period, limit);
            && |c| == 1 + (limit - due) / period
            && NextDue(due, period, limit) == due + |c| * period
            && forall i :: 0 <= i < |c| ==> c[i] == Fired(id, due + i * period)
    decreases limit - due
  {
    var c, rest := Callbacks(id, due, period, limit), Callbacks(id, due + period, period, limit);
    if due + period <= limit {
      CatchUpExact(id, due + period, period, limit);
      QuotientStep(limit - due, period);
      forall i | 0 <= i < |c| ensures c[i] == Fired(id, due + i * period) {
        if i > 0 {
          assert c[i] == rest[i - 1];
          TimesNext(i - 1, period);
        }
      }
      TimesNext(|rest|, period);
    } else {
      assert rest == [];
      SmallQuotient(limit - due, period);
    }
  }

  /** Timer `id`, in no list, expired at `due` and is served at `limit`. */
  function Expire(s: Service, id: TimerId, due: nat, limit: nat): Service
    requires id in s.timers && 0 < s.timers[id].period && due <= limit
  {
    var t := s.timers[id];
    if t.autoReload then
      Service(s.timers, SortedInsert(s.queue, Entry(NextDue(due, t.period, limit), id)),
              s.log + Callbacks(id, due, t.period, limit))
    else
      Service(s.timers[id := t.(active := false)], s.queue, s.log + [Fired(id, due)])
  }

  ghost predicate Known(s: Service) {
    && (forall i :: 0 <= i < |s.queue| ==> s.queue[i].owner in s.timers)
    && (forall id :: id in s.timers ==> 0 < s.timers[id].period < TICKS)
  }

  /** Serves the earliest timer. */
  ghost function FireHead(s: Service, limit: nat): Service
    requires Known(s) && s.queue != [] && s.queue[0].value <= limit
  {
    Expire(s.(queue := s.queue[1..]), s.queue[0].owner, s.queue[0].value, limit)
  }

  /** What is true of the service whenever no operation is under way. */
  ghost predicate Inv(s: Service) {
    InvBut(s, {})
  }

  /** The same while the timers in `hole` are in the hands of the command being processed. */
  ghost predicate InvBut(s: Service, hole: set<TimerId>) {
    && Known(s) && Sorted(s.queue) && DistinctOwners(s.queue) && Punctual(s)
    && ActiveExact(s, hole)
    && (forall id :: id in hole ==> !Holds(s.queue, id))
  }

  /** The ACTIVE status is set exactly for the timers in a list. */
  ghost predicate ActiveExact(s: Service, hole: set<TimerId>) {
    forall id :: id in s.timers && id !in hole ==> (s.timers[id].active <==> Holds(s.queue, id))
  }

  // ---------------------------------------------------------------- history

  /** The last time `id` was started or fired. */
  ghost function LastTime(log: seq<Happening>, id: TimerId): nat {
    if log == [] then 0
    else var h := log[|log| - 1];
      if h.id == id then (if h.Started? then h.at else h.due) else LastTime(log[..|log| - 1], id)
  }

  /** The period `id` was last started with. */
  ghost function LastPeriod(log: seq<Happening>, id: TimerId): nat {
    if log == [] then 0
    else var h := log[|log| - 1];
      if h.id == id && h.Started? then h.period else LastPeriod(log[..|log| - 1], id)
  }

  /** Every callback came exactly one period after the start or the callback before it. */
  ghost predicate PunctualLog(log: seq<Happening>) {
    forall k :: 0 <= k < |log| ==> PunctualAt(log, k)
  }

  ghost predicate PunctualAt(log: seq<Happening>, k: nat)
    requires k < |log|
  {
    log[k].Fired? ==> log[k].due == LastTime(log[..k], log[k].id) + LastPeriod(log[..k], log[k].id)
  }

  ghost predicate Punctual(s: Service) {
    && PunctualLog(s.log)
    && (forall i :: 0 <= i < |s.queue| ==> OnTime(s, s.queue[i].owner, s.queue[i].value))
  }

  ghost predicate OnTime(s: Service, id: TimerId, due: nat) {
    && id in s.timers
    && s.timers[id].period == LastPeriod(s.log, id)
    && due == LastTime(s.log, id) + LastPeriod(s.log, id)
  }

  /** The history after one more event. */
  lemma LogExtends(log: seq<Happening>, h: Happening, other: TimerId)
    requires PunctualLog(log)
    requires h.Fired? ==> h.due == LastTime(log, h.id) + LastPeriod(log, h.id)
    ensures var log' := log + [h];
            && PunctualLog(log')
            && LastPeriod(log', other) == (if other == h.id && h.Started? then h.period else LastPeriod(log, other))
            && LastTime(log', other) ==
               if other != h.id then LastTime(log, other) else if h.Started? then h.at else h.due
  {
    var log' := log + [h];
    assert log'[..|log|] == log;
    forall k | 0 <= k < |log'| ensures PunctualAt(log', k) {
      if k < |log| {
        assert log'[..k] == log[..k] && PunctualAt(log, k);
      }
    }
  }

  lemma {:induction false} CallbacksExtend(log: seq<Happening>, id: TimerId, due: nat, period: nat, limit: nat,
        other: TimerId)
    requires PunctualLog(log) && 0 < period == LastPeriod(log, id) && due == LastTime(log, id) + period
    ensures var log' := log + Callbacks(id, due, period, limit);
            && PunctualLog(log')
            && LastPeriod(log', other) == LastPeriod(log, other)
            && LastTime(log', other) == if other == id then NextDue(due, period, limit) - period
               else LastTime(log, other)
    decreases limit + 1 - due
  {
    if due > limit {
      assert log + Callbacks(id, due, period, limit) == log;
    } else {
      var log1 := log + [Fired(id, due)];
      LogExtends(log, Fired(id, due), other);
      LogExtends(log, Fired(id, due), id);
      CallbacksExtend(log1, id, due + period, period, limit, other);
      assert log + Callbacks(id, due, period, limit) == log1 + Callbacks(id, due + period, period, limit);
    }
  }

  lemma ExpirePunctual(s: Service, id: TimerId, due: nat, limit: nat)
    requires Known(s) && Punctual(s) && id in s.timers && due <= limit
    requires !Holds(s.queue, id) && OnTime(s, id, due)
    ensures Punctual(Expire(s, id, due, limit))
  {
    var t, r := s.timers[id], Expire(s, id, due, limit);
    forall i | 0 <= i < |s.queue| ensures OnTime(r, s.queue[i].owner, s.queue[i].value) {
      assert s.queue[i].owner != id;
      CallbacksExtend(s.log, id, due, t.period, limit, s.queue[i].owner);
      LogExtends(s.log, Fired(id, due), s.queue[i].owner);
    }
    CallbacksExtend(s.log, id, due, t.period, limit, id);
    LogExtends(s.log, Fired(id, due), id);
    if t.autoReload {
      assert OnTime(r, id, NextDue(due, t.period, limit));
    }
  }

  lemma ExpireLists(s: Service, id: TimerId, due: nat, limit: nat)
    requires Known(s) && Sorted(s.queue) && DistinctOwners(s.queue)
    requires id in s.timers && !Holds(s.queue, id) && due <= limit
    ensures var r := Expire(s, id, due, limit);
            && Known(r) && Sorted(r.queue) && DistinctOwners(r.queue)
            && forall x :: Holds(r.queue, x) <==> Holds(s.queue, x) || (x == id && s.timers[id].autoReload)
  {
    var t, r := s.timers[id], Expire(s, id, due, limit);
    if t.autoReload {
      var e := Entry(NextDue(due, t.period, limit), id);
      InsertKeepsOrder(s.queue, e);
      InsertDistinct(s.queue, e);
      forall x ensures Holds(r.queue, x) <==> Holds(s.queue, x) || x == id {
        InsertOwners(s.queue, e, x);
      }
    }
  }

  lemma ExpireInv(s: Service, id: TimerId, due: nat, limit: nat, hole: set<TimerId>)
    requires InvBut(s, hole + {id}) && id !in hole
    requires id in s.timers && s.timers[id].active && due <= limit && OnTime(s, id, due)
    ensures InvBut(Expire(s, id, due, limit), hole)
  {
    ExpirePunctual(s, id, due, limit);
    ExpireLists(s, id, due, limit);
  }

  lemma FireHeadInv(s: Service, limit: nat, hole: set<TimerId>)
    requires InvBut(s, hole) && s.queue != [] && s.queue[0].value <= limit
    ensures InvBut(FireHead(s, limit), hole)
  {
    var e, rest := s.queue[0], s.(queue := s.queue[1..]);
    WithoutHead(s.queue);
    assert OnTime(s, e.owner, e.value);
    assert Holds(s.queue, e.owner);
    forall i | 0 <= i < |rest.queue| ensures OnTime(rest, rest.queue[i].owner, rest.queue[i].value) {
      assert rest.queue[i] == s.queue[i + 1];
      assert OnTime(s, s.queue[i + 1].owner, s.queue[i + 1].value);
    }
    ExpireInv(rest, e.owner, e.value, limit, hole);
  }

  lemma WithoutHead(q: seq<Entry<TimerId>>)
    requires q != [] && DistinctOwners(q)
    ensures !Holds(q[1..], q[0].owner) && DistinctOwners(q[1..])
    ensures forall x :: x != q[0].owner ==> (Holds(q[1..], x) <==> Holds(q, x))
  {
    forall x | x != q[0].owner && Holds(q, x) ensures Holds(q[1..], x) {
      var i :| 0 <= i < |q| && q[i].owner == x;
      assert q[1..][i - 1].owner == x;
    }
  }

  // ---------------------------------------------------------------- sampling the time

  /** Serving the head takes one due entry out of the queue and puts none back. */
  lemma FireHeadFewerDue(s: Service, limit: nat)
    requires Known(s) && Sorted(s.queue) && s.queue != [] && s.queue[0].value <= limit
    ensures var r := FireHead(s, limit);
            && Known(r) && Sorted(r.queue) && Position(r.queue, limit) == Position(s.queue, limit) - 1
  {
    var id, due := s.queue[0].owner, s.queue[0].value;
    var t := s.timers[id];
    var next := if t.autoReload then NextDue(due, t.period, limit) else limit + 1;
    MovedBeyond(s.queue, Entry(next, id), limit);
  }

  lemma MovedBeyond(q: seq<Entry<TimerId>>, e: Entry<TimerId>, limit: nat)
    requires Sorted(q) && q != [] && q[0].value <= limit < e.value
    ensures Sorted(q[1..]) && Sorted(SortedInsert(q[1..], e))
    ensures Position(q[1..], limit) == Position(q, limit) - 1
    ensures Position(SortedInsert(q[1..], e), limit) == Position(q, limit) - 1
    ensures forall i :: 0 <= i <= |q[1..]| ==> SortedInsert(q[1..], e)[i] == e || SortedInsert(q[1..], e)[i] in q
  {
    TailSorted(q);
    assert Position(q[1..], limit) == Position(q, limit) - 1;
    hide Position, Sorted, SortedInsert;
    InsertKeepsOrder(q[1..], e);
    InsertBeyond(q[1..], e, limit);
    InsertedAround(q[1..], e);
    forall i | 0 <= i <= |q[1..]| ensures SortedInsert(q[1..], e)[i] == e || SortedInsert(q[1..], e)[i] in q {
      assert SortedInsert(q[1..], e)[i] in SortedInsert(q[1..], e);
    }
  }

  lemma TailSorted(q: seq<Entry<TimerId>>)
    requires Sorted(q) && q != []
    ensures Sorted(q[1..])
  {
    assert forall i :: 0 <= i < |q[1..]| ==> q[1..][i] == q[i + 1];
  }

  /** Serves every timer due at `limit`, earliest first. */
  ghost function Drain(s: Service, limit: nat): (r: Service)
    requires Known(s) && Sorted(s.queue)
    ensures Known(r) && Sorted(r.queue)
    ensures forall i :: 0 <= i < |r.queue| ==> r.queue[i].value > limit
    decreases Position(s.queue, limit)
  {
    if s.queue == [] || s.queue[0].value > limit then s
    else
      FireHeadFewerDue(s, limit);
      Drain(FireHead(s, limit), limit)
  }

  lemma {:induction false} DrainInv(s: Service, limit: nat, hole: set<TimerId>)
    requires InvBut(s, hole)
    ensures InvBut(Drain(s, limit), hole)
    ensures Drain(s, limit).timers.Keys == s.timers.Keys
    decreases Position(s.queue, limit)
  {
    if s.queue != [] && s.queue[0].value <= limit {
      FireHeadFewerDue(s, limit);
      FireHeadInv(s, limit, hole);
      DrainInv(FireHead(s, limit), limit, hole);
    }
  }

  /** Whether an entry is to survive: it lies ahead, or its timer reloads itself. */
  ghost predicate Survives(s: Service, i: nat, limit: nat)
    requires Known(s) && i < |s.queue|
  {
    s.queue[i].value > limit || s.timers[s.queue[i].owner].autoReload
  }

  /** Serving the head records its callback and leaves every other entry where it is. */
  lemma FireHeadServes(s: Service, limit: nat)
    requires Known(s) && Sorted(s.queue) && DistinctOwners(s.queue) && s.queue != [] && s.queue[0].value <= limit
    ensures var r, e := FireHead(s, limit), s.queue[0];
            && Known(r) && s.log <= r.log && Fired(e.owner, e.value) in r.log
            && Sorted(r.queue) && DistinctOwners(r.queue)
            && (forall i :: 1 <= i < |s.queue| ==> s.queue[i] in r.queue)
            && (forall i :: 0 <= i < |r.queue| ==>
                  r.queue[i] in s.queue[1..] || (r.queue[i].owner == e.owner && r.queue[i].value > limit))
            && (Holds(r.queue, e.owner) <==> s.timers[e.owner].autoReload)
            && (forall x :: x in s.timers ==> x in r.timers && r.timers[x].autoReload == s.timers[x].autoReload)
  {
    var rest, e := s.(queue := s.queue[1..]), s.queue[0];
    var t, r := s.timers[e.owner], FireHead(s, limit);
    WithoutHead(s.queue);
    assert forall i :: 0 <= i < |rest.queue| ==> rest.queue[i] == s.queue[i + 1];
    ExpireLists(rest, e.owner, e.value, limit);
    ExpireRecords(rest, e.owner, e.value, limit);
    hide Sorted, DistinctOwners;
    if t.autoReload {
      var n := Entry(NextDue(e.value, t.period, limit), e.owner);
      InsertedAround(rest.queue, n);
      forall i | 1 <= i < |s.queue| ensures s.queue[i] in r.queue {
        assert rest.queue[i - 1] == s.queue[i];
      }
    }
  }

  lemma InsertedAround(q: seq<Entry<TimerId>>, e: Entry<TimerId>)
    ensures forall x :: x in SortedInsert(q, e) <==> x in q || x == e
  {
    var p := Position(q, e.value);
    assert q == q[..p] + q[p..];
  }

  lemma ExpireRecords(s: Service, id: TimerId, due: nat, limit: nat)
    requires id in s.timers && 0 < s.timers[id].period && due <= limit
    ensures var r := Expire(s, id, due, limit);
            && s.log < r.log && r.log[|s.log|] == Fired(id, due)
            && (forall x :: x in s.timers ==> x in r.timers && r.timers[x].autoReload == s.timers[x].autoReload)
  {
    var t, r := s.timers[id], Expire(s, id, due, limit);
    if t.autoReload {
      assert Callbacks(id, due, t.period, limit)[0] == Fired(id, due);
      assert r.log[|s.log|] == Fired(id, due);
    } else {
      assert r.log[|s.log|] == Fired(id, due);
    }
  }

  /** Draining loses nothing: every entry that is due has its callback run, and the history before stays. */
  lemma {:induction false} DrainFires(s: Service, limit: nat, e: Entry<TimerId>)
    requires Known(s) && Sorted(s.queue) && DistinctOwners(s.queue) && e in s.queue && e.value <= limit
    ensures Fired(e.owner, e.value) in Drain(s, limit).log && s.log <= Drain(s, limit).log
    decreases Position(s.queue, limit)
  {
    HeadFirst(s.queue, e);
    hide Sorted, DistinctOwners, Known, FireHead, Position;
    var r := FireHead(s, limit);
    FireHeadFewerDue(s, limit);
    FireHeadServes(s, limit);
    DrainKeepsLog(r, limit);
    if e != s.queue[0] {
      DrainFires(r, limit, e);
    } else {
      LogHolds(r.log, Drain(s, limit).log, Fired(e.owner, e.value));
    }
  }

  lemma HeadFirst(q: seq<Entry<TimerId>>, e: Entry<TimerId>)
    requires Sorted(q) && e in q
    ensures q[0].value <= e.value
  {
  }

  lemma LogHolds(log: seq<Happening>, longer: seq<Happening>, h: Happening)
    requires log <= longer && h in log
    ensures h in longer
  {
  }

  lemma {:induction false} DrainKeepsLog(s: Service, limit: nat)
    requires Known(s) && Sorted(s.queue) && DistinctOwners(s.queue)
    ensures s.log <= Drain(s, limit).log
    decreases Position(s.queue, limit)
  {
    hide Sorted, DistinctOwners, Known, FireHead;
    if s.queue != [] && s.queue[0].value <= limit {
      FireHeadFewerDue(s, limit);
      FireHeadServes(s, limit);
      DrainKeepsLog(FireHead(s, limit), limit);
    }
  }

  /** Listed afterwards are exactly the timers whose entry lay ahead and the auto-reload timers. */
  lemma {:induction false} DrainSurvivors(s: Service, limit: nat, x: TimerId)
    requires Known(s) && Sorted(s.queue) && DistinctOwners(s.queue)
    ensures Holds(Drain(s, limit).queue, x) <==> Survivor(s, limit, x)
    decreases Position(s.queue, limit)
  {
    if s.queue != [] && s.queue[0].value <= limit {
      var r := FireHead(s, limit);
      FireHeadFewerDue(s, limit);
      FireHeadServes(s, limit);
      DrainSurvivors(r, limit, x);
      HeadSurvives(s, limit, x);
    } else {
      AllAhead(s, limit, x);
    }
  }

  ghost predicate Survivor(s: Service, limit: nat, x: TimerId)
    requires Known(s)
  {
    exists i :: 0 <= i < |s.queue| && s.queue[i].owner == x && Survives(s, i, limit)
  }

  lemma AllAhead(s: Service, limit: nat, x: TimerId)
    requires Known(s) && Sorted(s.queue) && (s.queue == [] || s.queue[0].value > limit)
    ensures Holds(s.queue, x) <==> Survivor(s, limit, x)
  {
    forall i | 0 <= i < |s.queue| ensures Survives(s, i, limit) {
      assert s.queue[0].value <= s.queue[i].value;
    }
  }

  /** Serving the head does not change who survives. */
  lemma HeadSurvives(s: Service, limit: nat, x: TimerId)
    requires Known(s) && Sorted(s.queue) && DistinctOwners(s.queue) && s.queue != [] && s.queue[0].value <= limit
    requires Known(FireHead(s, limit))
    ensures Survivor(FireHead(s, limit), limit, x) <==> Survivor(s, limit, x)
  {
    FireHeadServes(s, limit);
    hide FireHead, Sorted, Known, DistinctOwners;
    var r := FireHead(s, limit);
    assert |s.queue| > 0 ==> s.queue[0].owner in s.timers by { HeadKnown(s); }
    if Survivor(s, limit, x) { SurvivesOn(s, r, limit, x); }
    if Survivor(r, limit, x) { SurvivedFrom(s, r, limit, x); }
  }

  lemma HeadKnown(s: Service)
    requires Known(s) && s.queue != []
    ensures s.queue[0].owner in s.timers
  {
  }

  lemma SurvivesOn(s: Service, r: Service, limit: nat, x: TimerId)
    requires Known(s) && Known(r) && s.queue != [] && s.queue[0].value <= limit && Survivor(s, limit, x)
    requires forall i :: 1 <= i < |s.queue| ==> s.queue[i] in r.queue
    requires Holds(r.queue, s.queue[0].owner) <==> s.timers[s.queue[0].owner].autoReload
    requires forall y :: y in s.timers ==> y in r.timers && r.timers[y].autoReload == s.timers[y].autoReload
    ensures Survivor(r, limit, x)
  {
    var i :| 0 <= i < |s.queue| && s.queue[i].owner == x && Survives(s, i, limit);
    if i == 0 {
      var j :| 0 <= j < |r.queue| && r.queue[j].owner == x;
      assert Survives(r, j, limit);
    } else {
      var j :| 0 <= j < |r.queue| && r.queue[j] == s.queue[i];
      assert Survives(r, j, limit);
    }
  }

  lemma SurvivedFrom(s: Service, r: Service, limit: nat, x: TimerId)
    requires Known(s) && Known(r) && s.queue != [] && Survivor(r, limit, x)
    requires forall i :: 0 <= i < |r.queue| ==> r.queue[i] in s.queue[1..] || r.queue[i].owner == s.queue[0].owner
    requires Holds(r.queue, s.queue[0].owner) <==> s.timers[s.queue[0].owner].autoReload
    requires forall y :: y in s.timers ==> y in r.timers && r.timers[y].autoReload == s.timers[y].autoReload
    ensures Survivor(s, limit, x)
  {
    var j :| 0 <= j < |r.queue| && r.queue[j].owner == x && Survives(r, j, limit);
    if x == s.queue[0].owner {
      assert Holds(r.queue, x);
      assert Survives(s, 0, limit);
    } else {
      var i :| 0 <= i < |s.queue[1..]| && s.queue[1..][i] == r.queue[j];
      assert s.queue[i + 1] == r.queue[j] && Survives(s, i + 1, limit);
    }
  }

  /** Looking at the clock: when the tick count has wrapped since the last look, everything that
      expired in the ended epoch is served up to the end of that epoch. */
  ghost function Sample(s: Service, last: nat, now: nat): (r: Service)
    requires Known(s) && Sorted(s.queue) && last <= now
    ensures Known(r) && Sorted(r.queue)
  {
    if Epoch(last) < Epoch(now) then Drain(s, EpochEnd(last)) else s
  }

  // ---------------------------------------------------------------- the daemon's steps

  datatype Command =
    | Start(issued: nat)               // start or reset, from a task or an interrupt
    | Stop
    | ChangePeriod(newPeriod: nat)
    | Delete
    | Other                            // an identifier the daemon does not know

  datatype System = System(service: Service, last: nat)

  datatype Event =
    | Poll(now: nat)                                   // prvProcessTimerOrBlockTask
    | Process(id: TimerId, command: Command, now: nat) // one command of prvProcessReceivedCommands
    | SetReloadMode(id: TimerId, reload: bool)
    | Create(id: TimerId, period: nat, reload: bool, fixed: bool)
    | Pended                                           // a pended function call

  /** The clock is looked at within one wrap while a timer is active; an idle daemon may sleep longer. */
  ghost predicate InTime(y: System, now: nat) {
    y.last <= now && (y.service.queue != [] ==> now < y.last + TICKS)
  }

  ghost predicate Acceptable(y: System, ev: Event) {
    match ev
    case Poll(now) => InTime(y, now)
    case Process(id, c, now) =>
      && InTime(y, now) && id in y.service.timers
      && (c.Start? ==> c.issued <= now < c.issued + TICKS)
      && (c.ChangePeriod? ==> 0 < c.newPeriod < TICKS)
    case Pended => true
    case SetReloadMode(id, _) => id in y.service.timers
    case Create(id, period, _, _) => id !in y.service.timers && 0 < period < TICKS
  }

  /** A command the daemon does not know, for an active timer. */
  ghost predicate Stranding(y: System, ev: Event) {
    ev.Process? && ev.command.Other? && ev.id in y.service.timers && y.service.timers[ev.id].active
  }

  ghost predicate Enabled(y: System, ev: Event) {
    Acceptable(y, ev) && !Stranding(y, ev)
  }

  ghost function Listed(s: Service, id: TimerId, due: nat): Service {
    s.(queue := SortedInsert(s.queue, Entry(due, id)))
  }

  ghost function Restart(s: Service, id: TimerId, issued: nat, now: nat): Service
    requires Known(s) && id in s.timers && issued <= now
  {
    if issued + s.timers[id].period <= now then
      Expire(Begun(s, id, issued, s.timers[id].period), id, issued + s.timers[id].period, now)
    else
      Listed(Begun(s, id, issued, s.timers[id].period), id, issued + s.timers[id].period)
  }

  ghost function Execute(s: Service, id: TimerId, c: Command, now: nat): Service
    requires Known(s) && id in s.timers && (c.Start? ==> c.issued <= now)
  {
    var t := s.timers[id];
    match c
    case Start(issued) => Restart(s, id, issued, now)
    case Stop => s.(timers := s.timers[id := t.(active := false)])
    case ChangePeriod(p) => Listed(Begun(s, id, now, p), id, now + p)
    case Delete =>
      s.(timers := if t.isStatic then s.timers[id := t.(active := false)] else s.timers - {id})
    case Other => s
  }

  lemma InvFacts(s: Service, hole: set<TimerId>)
    requires InvBut(s, hole)
    ensures Known(s) && Sorted(s.queue) && DistinctOwners(s.queue)
  {
  }

  lemma WithoutKnown(s: Service, id: TimerId)
    requires Known(s) && Sorted(s.queue) && DistinctOwners(s.queue)
    ensures var r := s.(queue := Without(s.queue, id));
            Known(r) && Sorted(r.queue) && DistinctOwners(r.queue) && !Holds(r.queue, id)
  {
    RemoveKeeps(s.queue, id);
    RemoveOwners(s.queue, id, id);
  }

  ghost function Step(y: System, ev: Event): System
    requires Inv(y.service) && Acceptable(y, ev)
  {
    var s := y.service;
    match ev
    case Poll(now) =>
      if Epoch(y.last) < Epoch(now) then System(Sample(s, y.last, now), now)
      else System(if s.queue != [] && s.queue[0].value <= now then FireHead(s, now) else s, now)
    case Process(id, c, now) =>
      WithoutKnown(s, id);
      var r := Sample(s.(queue := Without(s.queue, id)), y.last, now);
      SampleInv(s.(queue := Without(s.queue, id)), y.last, now);
      System(Execute(r, id, c, now), now)
    case SetReloadMode(id, b) => y.(service := s.(timers := s.timers[id := s.timers[id].(autoReload := b)]))
    case Create(id, p, b, f) => y.(service := s.(timers := s.timers[id := Timer(p, b, false, f)]))
    case Pended => y
  }

  lemma {:induction false} DrainKeys(s: Service, limit: nat)
    requires Known(s) && Sorted(s.queue)
    ensures Drain(s, limit).timers.Keys == s.timers.Keys
    decreases Position(s.queue, limit)
  {
    if s.queue != [] && s.queue[0].value <= limit {
      FireHeadFewerDue(s, limit);
      DrainKeys(FireHead(s, limit), limit);
    }
  }

  /** After a look at the clock no expiry of an ended epoch is listed any more: each of them was served.  It may
      be looked at while a command has a timer in hand. */
  lemma SampleServes(s: Service, last: nat, now: nat, i: nat)
    requires Known(s) && Sorted(s.queue) && DistinctOwners(s.queue)
    requires last <= now && Epoch(last) < Epoch(now) && i < |s.queue| && s.queue[i].value <= EpochEnd(last)
    ensures var r := Sample(s, last, now);
            && s.log <= r.log && Fired(s.queue[i].owner, s.queue[i].value) in r.log
            && (forall j :: 0 <= j < |r.queue| ==> r.queue[j].value > EpochEnd(last))
            && (Holds(r.queue, s.queue[i].owner) <==> s.timers[s.queue[i].owner].autoReload)
  {
    hide Sorted, DistinctOwners, Epoch, EpochEnd;
    var x := s.queue[i].owner;
    DrainFires(s, EpochEnd(last), s.queue[i]);
    DrainSurvivors(s, EpochEnd(last), x);
    OnlyEntry(s, EpochEnd(last), i);
  }

  lemma OnlyEntry(s: Service, limit: nat, i: nat)
    requires Known(s) && DistinctOwners(s.queue) && i < |s.queue|
    ensures Survivor(s, limit, s.queue[i].owner) <==> Survives(s, i, limit)
  {
  }

  lemma SampleInv(s: Service, last: nat, now: nat)
    requires Known(s) && Sorted(s.queue) && last <= now
    ensures Sample(s, last, now).timers.Keys == s.timers.Keys
    ensures forall hole :: InvBut(s, hole) ==> InvBut(Sample(s, last, now), hole)
  {
    DrainKeys(s, EpochEnd(last));
    forall hole | InvBut(s, hole) ensures InvBut(Sample(s, last, now), hole) {
      DrainInv(s, EpochEnd(last), hole);
    }
  }

  /** Between being taken off its list and being put back, the commanded timer is the only one
      whose ACTIVE status may disagree with the lists. */
  lemma TakenOff(s: Service, id: TimerId)
    requires Inv(s)
    ensures InvBut(s.(queue := Without(s.queue, id)), {id})
  {
    var q, r := s.queue, s.(queue := Without(s.queue, id));
    WithoutKnown(s, id);
    forall x | x in s.timers && x != id ensures s.timers[x].active <==> Holds(r.queue, x) {
      RemoveOwners(q, id, x);
    }
    forall i | 0 <= i < |r.queue| ensures OnTime(r, r.queue[i].owner, r.queue[i].value) {
      var k := Find(q, id);
      var j := if i < k then i else i + 1;
      assert r.queue[i] == q[j] && OnTime(s, q[j].owner, q[j].value);
    }
  }

  /** The record of a (re)start of `id`. */
  ghost function Begun(s: Service, id: TimerId, at: nat, period: nat): Service
    requires id in s.timers
  {
    Service(s.timers[id := s.timers[id].(active := true, period := period)], s.queue, s.log + [Started(id, at, period)])
  }

  lemma BegunInv(s: Service, id: TimerId, at: nat, period: nat)
    requires InvBut(s, {id}) && id in s.timers && 0 < period < TICKS
    ensures InvBut(Begun(s, id, at, period), {id}) && OnTime(Begun(s, id, at, period), id, at + period)
  {
    var u := Begun(s, id, at, period);
    LogExtends(s.log, Started(id, at, period), id);
    forall i | 0 <= i < |s.queue| ensures OnTime(u, s.queue[i].owner, s.queue[i].value) {
      LogExtends(s.log, Started(id, at, period), s.queue[i].owner);
      assert s.queue[i].owner != id;
      assert OnTime(s, s.queue[i].owner, s.queue[i].value);
    }
  }

  lemma ListedInv(u: Service, id: TimerId, due: nat)
    requires InvBut(u, {id}) && OnTime(u, id, due) && u.timers[id].active
    ensures Inv(Listed(u, id, due))
  {
    var e, v := Entry(due, id), Listed(u, id, due);
    InsertKeepsOrder(u.queue, e);
    InsertDistinct(u.queue, e);
    forall x ensures Holds(v.queue, x) <==> Holds(u.queue, x) || x == id {
      InsertOwners(u.queue, e, x);
    }
    ListedPunctual(u, id, due);
  }

  lemma ListedPunctual(u: Service, id: TimerId, due: nat)
    requires Known(u) && Punctual(u) && OnTime(u, id, due)
    ensures Known(Listed(u, id, due)) && Punctual(Listed(u, id, due))
  {
    var v := Listed(u, id, due);
    forall i | 0 <= i < |v.queue| ensures OnTime(v, v.queue[i].owner, v.queue[i].value) {
      var p := Position(u.queue, due);
      if i != p {
        var j := if i < p then i else i - 1;
        assert v.queue[i] == u.queue[j] && OnTime(u, u.queue[j].owner, u.queue[j].value);
      }
    }
  }

  lemma StartExpiredInv(s: Service, id: TimerId, issued: nat, now: nat)
    requires InvBut(s, {id}) && id in s.timers && issued + s.timers[id].period <= now
    ensures Inv(Restart(s, id, issued, now))
  {
    hide Expire, Listed;
    var p := s.timers[id].period;
    BegunInv(s, id, issued, p);
    ExpireOnly(Begun(s, id, issued, p), id, issued + p, now);
  }

  lemma StartListedInv(s: Service, id: TimerId, issued: nat, now: nat)
    requires InvBut(s, {id}) && id in s.timers && issued <= now < issued + s.timers[id].period
    ensures Inv(Restart(s, id, issued, now))
  {
    hide Expire, Listed;
    var p := s.timers[id].period;
    BegunInv(s, id, issued, p);
    ListedInv(Begun(s, id, issued, p), id, issued + p);
  }

  lemma ExpireOnly(u: Service, id: TimerId, due: nat, limit: nat)
    requires InvBut(u, {id}) && id in u.timers && u.timers[id].active && due <= limit && OnTime(u, id, due)
    ensures Inv(Expire(u, id, due, limit))
  {
    assert {} + {id} == {id};
    ExpireInv(u, id, due, limit, {});
  }

  /** Every command settles the timer it is about, but for one the daemon does not know. */
  lemma ExecuteInv(s: Service, id: TimerId, c: Command, now: nat)
    requires InvBut(s, {id}) && id in s.timers
    requires c.Start? ==> c.issued <= now
    requires c.ChangePeriod? ==> 0 < c.newPeriod < TICKS
    ensures Inv(Execute(s, id, c, now)) <==> !(c.Other? && s.timers[id].active)
  {
    hide Restart, Listed;
    match c
    case Start(issued) =>
      if issued + s.timers[id].period <= now {
        StartExpiredInv(s, id, issued, now);
      } else {
        StartListedInv(s, id, issued, now);
      }
    case ChangePeriod(p) =>
      BegunInv(s, id, now, p);
      ListedInv(Begun(s, id, now, p), id, now + p);
    case Stop => IdleInv(s, Execute(s, id, c, now), id);
    case Delete => IdleInv(s, Execute(s, id, c, now), id);
    case Other => UnknownCommandStrands(s, id, now);
  }

  /** A command with an unknown identifier takes the timer off its list and leaves its status alone, so
      afterwards a timer that was active claims to be active and is in no list. */
  lemma UnknownCommandStrands(s: Service, id: TimerId, now: nat)
    requires InvBut(s, {id}) && id in s.timers
    ensures Inv(Execute(s, id, Other, now)) <==> !s.timers[id].active
  {
    if !s.timers[id].active {
      IdleInv(s, s, id);
    } else {
      assert !Holds(s.queue, id);
    }
  }

  lemma IdleInv(s: Service, r: Service, id: TimerId)
    requires InvBut(s, {id}) && id in s.timers
    requires r.queue == s.queue && r.log == s.log && Known(r)
    requires r.timers - {id} == s.timers - {id}
    requires id in r.timers ==> !r.timers[id].active
    ensures Inv(r)
  {
    forall x | x in r.timers && x != id ensures x in s.timers && r.timers[x] == s.timers[x] {
      assert x in (r.timers - {id}) && (r.timers - {id})[x] == r.timers[x];
      assert x in (s.timers - {id});
    }
    forall i | 0 <= i < |s.queue| ensures OnTime(r, s.queue[i].owner, s.queue[i].value) {
      assert s.queue[i].owner != id;
      assert OnTime(s, s.queue[i].owner, s.queue[i].value);
    }
  }

  /** A timer in no list is left alone while the list is drained. */
  lemma {:induction false} DrainSpares(s: Service, limit: nat, x: TimerId)
    requires Known(s) && Sorted(s.queue) && DistinctOwners(s.queue) && x in s.timers && !Holds(s.queue, x)
    ensures var r := Drain(s, limit); x in r.timers && r.timers[x] == s.timers[x]
    decreases Position(s.queue, limit)
  {
    if s.queue != [] && s.queue[0].value <= limit {
      FireHeadFewerDue(s, limit);
      FireHeadServes(s, limit);
      HeadSpares(s, limit, x);
      DrainSpares(FireHead(s, limit), limit, x);
    }
  }

  lemma HeadSpares(s: Service, limit: nat, x: TimerId)
    requires Known(s) && Sorted(s.queue) && DistinctOwners(s.queue) && x in s.timers && !Holds(s.queue, x)
    requires s.queue != [] && s.queue[0].value <= limit
    ensures var r := FireHead(s, limit); x in r.timers && r.timers[x] == s.timers[x] && !Holds(r.queue, x)
  {
    WithoutHead(s.queue);
    ExpireLists(s.(queue := s.queue[1..]), s.queue[0].owner, s.queue[0].value, limit);
  }

  /** Every event keeps the invariant, but for an unknown command to an active timer, which breaks it. */
  lemma StepInv(y: System, ev: Event)
    requires Inv(y.service) && Acceptable(y, ev)
    ensures Inv(Step(y, ev).service) <==> !Stranding(y, ev)
  {
    var s := y.service;
    match ev
    case Poll(now) =>
      SampleInv(s, y.last, now);
      if s.queue != [] && s.queue[0].value <= now {
        FireHeadInv(s, now, {});
      }
    case Process(id, c, now) =>
      ProcessInv(y, id, c, now);
    case Pended =>
    case SetReloadMode(id, b) =>
      var r := Step(y, ev).service;
      forall i | 0 <= i < |s.queue| ensures OnTime(r, s.queue[i].owner, s.queue[i].value) {
        assert OnTime(s, s.queue[i].owner, s.queue[i].value);
      }
    case Create(id, p, b, f) =>
      var r := Step(y, ev).service;
      forall i | 0 <= i < |s.queue| ensures OnTime(r, s.queue[i].owner, s.queue[i].value) {
        assert OnTime(s, s.queue[i].owner, s.queue[i].value);
      }
  }

  // ---------------------------------------------------------------- what a poll serves

  /** A poll that finds the earliest expiry reached runs its callback, leaves one expiry fewer that has been
      reached, and touches no other. */
  lemma PollServes(y: System, now: nat)
    requires Inv(y.service) && Acceptable(y, Poll(now)) && Epoch(y.last) == Epoch(now)
    requires y.service.queue != [] && y.service.queue[0].value <= now
    ensures var s, z := y.service, Step(y, Poll(now)).service;
            var e := s.queue[0];
            && s.log < z.log && z.log[|s.log|] == Fired(e.owner, e.value)
            && Position(z.queue, now) == Position(s.queue, now) - 1
            && (Holds(z.queue, e.owner) <==> s.timers[e.owner].autoReload)
            && (forall i :: 1 <= i < |s.queue| ==> s.queue[i] in z.queue)
  {
    var s := y.service;
    InvFacts(s, {});
    FireHeadFewerDue(s, now);
    FireHeadServes(s, now);
    ExpireRecords(s.(queue := s.queue[1..]), s.queue[0].owner, s.queue[0].value, now);
  }

  /** A poll that finds nothing reached changes nothing. */
  lemma PollIdle(y: System, now: nat)
    requires Inv(y.service) && Acceptable(y, Poll(now)) && Epoch(y.last) == Epoch(now)
    requires forall i :: 0 <= i < |y.service.queue| ==> now < y.service.queue[i].value
    ensures Step(y, Poll(now)) == System(y.service, now)
  {
  }

  /** No callback is taken back, and an expiry that was reached is served or still listed. */
  lemma PollKeeps(y: System, now: nat, e: Entry<TimerId>)
    requires Inv(y.service) && Acceptable(y, Poll(now)) && e in y.service.queue && e.value <= now
    ensures var z := Step(y, Poll(now)).service;
            && (Fired(e.owner, e.value) in z.log || e in z.queue)
            && (Epoch(y.last) < Epoch(now) && e.value <= EpochEnd(y.last) ==> Fired(e.owner, e.value) in z.log)
  {
    var s := y.service;
    InvFacts(s, {});
    EpochsOrdered(y.last, now);
    HeadFirst(s.queue, e);
    hide Inv, Known, Sorted, DistinctOwners, Epoch, EpochEnd, FireHead;
    if Epoch(y.last) < Epoch(now) {
      if e.value <= EpochEnd(y.last) {
        DrainFires(s, EpochEnd(y.last), e);
      } else {
        DrainKeepsAhead(s, EpochEnd(y.last), e);
      }
    } else {
      FireHeadServes(s, now);
    }
  }

  lemma PollKeepsLog(y: System, now: nat)
    requires Inv(y.service) && Acceptable(y, Poll(now))
    ensures y.service.log <= Step(y, Poll(now)).service.log
  {
    var s := y.service;
    InvFacts(s, {});
    hide Inv, Known, Sorted, DistinctOwners, Epoch, EpochEnd, FireHead;
    DrainKeepsLog(s, EpochEnd(y.last));
    if s.queue != [] && s.queue[0].value <= now {
      FireHeadServes(s, now);
    }
  }

  /** Draining leaves alone what lies ahead. */
  lemma {:induction false} DrainKeepsAhead(s: Service, limit: nat, e: Entry<TimerId>)
    requires Known(s) && Sorted(s.queue) && DistinctOwners(s.queue) && e in s.queue && e.value > limit
    ensures e in Drain(s, limit).queue
    decreases Position(s.queue, limit)
  {
    hide Sorted, DistinctOwners, Known, FireHead, Position;
    if s.queue != [] && s.queue[0].value <= limit {
      FireHeadFewerDue(s, limit);
      FireHeadServes(s, limit);
      DrainKeepsAhead(FireHead(s, limit), limit, e);
    }
  }

  ghost predicate AllPolls(evs: seq<Event>, now: nat) {
    forall i :: 0 <= i < |evs| ==> evs[i] == Poll(now)
  }

  ghost predicate NothingReached(s: Service, now: nat) {
    forall i :: 0 <= i < |s.queue| ==> now < s.queue[i].value
  }

  /** Polled until nothing is left to serve, the daemon has run the callback of every expiry that the clock had
      reached. */
  lemma {:induction false} PollsServeAll(y: System, evs: seq<Event>, z: System, now: nat, e: Entry<TimerId>)
    requires Run(y, evs, z) && AllPolls(evs, now) && NothingReached(z.service, now)
    requires e in y.service.queue && e.value <= now
    ensures Fired(e.owner, e.value) in z.service.log && y.service.log <= z.service.log
    decreases |evs|
  {
    hide Inv, Step, Acceptable;
    if evs != [] {
      var y1, h := Step(y, evs[0]), Fired(e.owner, e.value);
      PollKeeps(y, now, e);
      PollKeepsLog(y, now);
      PollsKeepLog(y1, evs[1..], z, now);
      if e in y1.service.queue {
        PollsServeAll(y1, evs[1..], z, now, e);
      } else {
        LogHolds(y1.service.log, z.service.log, h);
      }
    }
  }

  lemma {:induction false} PollsKeepLog(y: System, evs: seq<Event>, z: System, now: nat)
    requires Run(y, evs, z) && AllPolls(evs, now)
    ensures y.service.log <= z.service.log
    decreases |evs|
  {
    hide Inv, Step, Acceptable;
    if evs != [] {
      PollKeepsLog(y, now);
      PollsKeepLog(Step(y, evs[0]), evs[1..], z, now);
    }
  }

  lemma PollAt(y: System, now: nat)
    requires Inv(y.service) && Acceptable(y, Poll(now))
    ensures Enabled(y, Poll(now)) && Acceptable(Step(y, Poll(now)), Poll(now)) && Step(y, Poll(now)).last == now
    ensures Epoch(y.last) <= Epoch(now)
  {
    hide Inv, FireHead;
    EpochsOrdered(y.last, now);
  }

  lemma HeadBeyond(s: Service, now: nat)
    requires Sorted(s.queue) && (s.queue == [] || s.queue[0].value > now)
    ensures NothingReached(s, now) && Position(s.queue, now) == 0
  {
  }

  /** And polling does get there: within an epoch it takes as many polls as expiries were reached, and one more
      when the epoch has changed. */
  lemma {:induction false} PollsEnd(y: System, now: nat) returns (evs: seq<Event>, z: System)
    requires Inv(y.service) && Acceptable(y, Poll(now))
    ensures Run(y, evs, z) && AllPolls(evs, now) && NothingReached(z.service, now)
    ensures Epoch(y.last) == Epoch(now) ==> |evs| == Position(y.service.queue, now)
    decreases Epoch(now) - Epoch(y.last), Position(y.service.queue, now)
  {
    hide InvBut, Known, DistinctOwners, Step, Epoch, Sorted, NothingReached, Acceptable;
    var s := y.service;
    PollAt(y, now);
    InvFacts(s, {});
    if Epoch(y.last) == Epoch(now) && (s.queue == [] || s.queue[0].value > now) {
      HeadBeyond(s, now);
      evs, z := [], y;
    } else {
      var y1 := Step(y, Poll(now));
      StepInv(y, Poll(now));
      if Epoch(y.last) == Epoch(now) {
        PollServes(y, now);
      }
      evs, z := PollsEnd(y1, now);
      assert ([Poll(now)] + evs)[1..] == evs;
      evs := [Poll(now)] + evs;
    }
  }

  // ---------------------------------------------------------------- what a command does

  /** What each command makes of its timer, whenever it is processed: a start counts from the time stamp it
      carries, a new period from the time it is processed. */
  lemma CommandMeans(y: System, id: TimerId, c: Command, now: nat)
    requires Inv(y.service) && Acceptable(y, Process(id, c, now))
    ensures var s, z := y.service, Step(y, Process(id, c, now)).service;
            var t := s.timers[id];
            && s.log <= z.log
            && match c
               case Start(issued) => StartedFrom(s, z, id, issued, now)
               case ChangePeriod(p) =>
                 && id in z.timers && z.timers[id] == t.(active := true, period := p)
                 && Entry(now + p, id) in z.queue
                 && |s.log| < |z.log| && z.log[|z.log| - 1] == Started(id, now, p)
               case Stop => id in z.timers && z.timers[id] == t.(active := false) && !Holds(z.queue, id)
               case Delete =>
                 && (if t.isStatic then id in z.timers && z.timers[id] == t.(active := false) else id !in z.timers)
                 && !Holds(z.queue, id)
               case Other => id in z.timers && z.timers[id] == t && !Holds(z.queue, id)
  {
    var s := y.service;
    TakenOff(s, id);
    var t := s.(queue := Without(s.queue, id));
    InvFacts(t, {id});
    HoleFree(t, id);
    SampleInv(t, y.last, now);
    SampleSpares(t, y.last, now, id);
    var r := Sample(t, y.last, now);
    HoleFree(r, id);
    hide Inv, InvBut, Known, Sorted, DistinctOwners, Without, Sample, Restart, Listed;
    match c
    case Start(issued) => RestartMeans(r, id, issued, now); StartedLater(s, r, Execute(r, id, c, now), id, issued, now);
    case ChangePeriod(p) => ListedHolds(Begun(r, id, now, p), id, now + p);
    case Stop =>
    case Delete =>
    case Other =>
  }

  /** From here on `id` runs from time `issued` with the period it had: the first callback after the start is for
      one period later; if that is past it has been run, with all that followed, and else it is listed. */
  ghost predicate StartedFrom(s: Service, z: Service, id: TimerId, issued: nat, now: nat)
    requires id in s.timers
  {
    exists k: nat :: |s.log| <= k && StartedAt(s.timers[id], z, id, issued, now, k)
  }

  ghost predicate StartedAt(t: Timer, z: Service, id: TimerId, issued: nat, now: nat, k: nat) {
    var due := issued + t.period;
    && k < |z.log| && z.log[k] == Started(id, issued, t.period)
    && (due <= now ==> k + 1 < |z.log| && z.log[k + 1] == Fired(id, due))
    && (due > now ==> k + 1 == |z.log| && Entry(due, id) in z.queue && id in z.timers
                      && z.timers[id] == t.(active := true))
  }

  lemma StartedLater(s: Service, r: Service, z: Service, id: TimerId, issued: nat, now: nat)
    requires id in s.timers && id in r.timers && s.timers[id] == r.timers[id] && s.log <= r.log
    requires StartedFrom(r, z, id, issued, now)
    ensures StartedFrom(s, z, id, issued, now)
  {
    var k: nat :| |r.log| <= k && StartedAt(r.timers[id], z, id, issued, now, k);
  }

  lemma RestartMeans(r: Service, id: TimerId, issued: nat, now: nat)
    requires Known(r) && id in r.timers && issued <= now
    ensures StartedFrom(r, Restart(r, id, issued, now), id, issued, now)
    ensures r.log <= Restart(r, id, issued, now).log
  {
    hide Expire, SortedInsert;
    var p, z := r.timers[id].period, Restart(r, id, issued, now);
    var u := Begun(r, id, issued, p);
    assert u.log[|r.log|] == Started(id, issued, p);
    if issued + p <= now {
      ExpireRecords(u, id, issued + p, now);
      assert z.log[|r.log|] == u.log[|r.log|];
    } else {
      ListedHolds(u, id, issued + p);
    }
    assert StartedAt(r.timers[id], z, id, issued, now, |r.log|);
  }

  lemma ListedHolds(u: Service, id: TimerId, due: nat)
    ensures Entry(due, id) in Listed(u, id, due).queue
  {
    InsertedAround(u.queue, Entry(due, id));
  }

  lemma SampleSpares(s: Service, last: nat, now: nat, id: TimerId)
    requires Known(s) && Sorted(s.queue) && DistinctOwners(s.queue) && id in s.timers && !Holds(s.queue, id)
    requires last <= now
    ensures var r := Sample(s, last, now); id in r.timers && r.timers[id] == s.timers[id] && s.log <= r.log
  {
    DrainSpares(s, EpochEnd(last), id);
    DrainKeepsLog(s, EpochEnd(last));
  }

  lemma ProcessInv(y: System, id: TimerId, c: Command, now: nat)
    requires Inv(y.service) && Acceptable(y, Process(id, c, now))
    ensures Inv(Step(y, Process(id, c, now)).service) <==> !Stranding(y, Process(id, c, now))
  {
    var s := y.service;
    TakenOff(s, id);
    var t := s.(queue := Without(s.queue, id));
    InvFacts(t, {id});
    assert !Holds(t.queue, id) by { HoleFree(t, id); }
    SampleInv(t, y.last, now);
    DrainSpares(t, EpochEnd(y.last), id);
    hide InvBut, Known, Sorted, DistinctOwners, Without, Epoch, EpochEnd, Drain;
    ExecuteInv(Sample(t, y.last, now), id, c, now);
  }

  lemma HoleFree(s: Service, id: TimerId)
    requires InvBut(s, {id})
    ensures !Holds(s.queue, id)
  {
  }

  // ---------------------------------------------------------------- whole runs

  /** No callback has run before its time. */
  ghost predicate NothingEarly(log: seq<Happening>, t: nat) {
    forall k :: 0 <= k < |log| && log[k].Fired? ==> log[k].due <= t
  }

  lemma {:induction false} CallbacksNotEarly(id: TimerId, due: nat, period: nat, limit: nat)
    requires 0 < period
    ensures NothingEarly(Callbacks(id, due, period, limit), limit)
    decreases limit + 1 - due
  {
    if due <= limit {
      CallbacksNotEarly(id, due + period, period, limit);
    }
  }

  lemma ExpireNotEarly(s: Service, id: TimerId, due: nat, limit: nat)
    requires id in s.timers && 0 < s.timers[id].period && due <= limit && NothingEarly(s.log, limit)
    ensures NothingEarly(Expire(s, id, due, limit).log, limit)
  {
    CallbacksNotEarly(id, due, s.timers[id].period, limit);
  }

  lemma {:induction false} DrainNotEarly(s: Service, limit: nat)
    requires Known(s) && Sorted(s.queue) && NothingEarly(s.log, limit)
    ensures NothingEarly(Drain(s, limit).log, limit)
    decreases Position(s.queue, limit)
  {
    if s.queue != [] && s.queue[0].value <= limit {
      FireHeadFewerDue(s, limit);
      ExpireNotEarly(s.(queue := s.queue[1..]), s.queue[0].owner, s.queue[0].value, limit);
      DrainNotEarly(FireHead(s, limit), limit);
    }
  }

  lemma EpochsOrdered(last: nat, now: nat)
    ensures last <= EpochEnd(last)
    ensures Epoch(last) < Epoch(now) ==> EpochEnd(last) < now
    ensures last <= now ==> Epoch(last) <= Epoch(now)
  {
  }

  lemma SampleNotEarly(s: Service, last: nat, now: nat)
    requires Known(s) && Sorted(s.queue) && last <= now && NothingEarly(s.log, last)
    ensures NothingEarly(Sample(s, last, now).log, now)
  {
    EpochsOrdered(last, now);
    DrainNotEarly(s, EpochEnd(last));
  }

  ghost predicate Good(y: System) {
    Inv(y.service) && NothingEarly(y.service.log, y.last)
  }

  lemma ExecuteNotEarly(s: Service, id: TimerId, c: Command, now: nat)
    requires Known(s) && id in s.timers && (c.Start? ==> c.issued <= now) && NothingEarly(s.log, now)
    ensures NothingEarly(Execute(s, id, c, now).log, now)
  {
    hide Expire;
    if c.Start? && c.issued + s.timers[id].period <= now {
      var p := s.timers[id].period;
      assert NothingEarly(Begun(s, id, c.issued, p).log, now);
      ExpireNotEarly(Begun(s, id, c.issued, p), id, c.issued + p, now);
    }
  }

  lemma StepNotEarly(y: System, ev: Event)
    requires Good(y) && Acceptable(y, ev)
    ensures NothingEarly(Step(y, ev).service.log, Step(y, ev).last)
  {
    hide Execute, Expire;
    var s := y.service;
    match ev
    case Poll(now) =>
      SampleNotEarly(s, y.last, now);
      if s.queue != [] && s.queue[0].value <= now {
        ExpireNotEarly(s.(queue := s.queue[1..]), s.queue[0].owner, s.queue[0].value, now);
      }
    case Process(id, c, now) =>
      WithoutKnown(s, id);
      var t := s.(queue := Without(s.queue, id));
      SampleNotEarly(t, y.last, now);
      SampleInv(t, y.last, now);
      ExecuteNotEarly(Sample(t, y.last, now), id, c, now);
    case SetReloadMode(_, _) =>
    case Create(_, _, _, _) =>
    case Pended =>
  }

  const INITIAL := System(Service(map[], [], []), 0)

  ghost predicate Run(y: System, evs: seq<Event>, z: System)
    decreases |evs|
  {
    if evs == [] then z == y
    else Inv(y.service) && Enabled(y, evs[0]) && Run(Step(y, evs[0]), evs[1..], z)
  }

  lemma {:induction false} RunExtends(y: System, evs: seq<Event>, z: System, ev: Event)
    requires Run(y, evs, z) && Inv(z.service) && Enabled(z, ev)
    ensures Run(y, evs + [ev], Step(z, ev))
    decreases |evs|
  {
    if evs == [] {
      assert ([ev])[1..] == [];
    } else {
      assert (evs + [ev])[0] == evs[0] && (evs + [ev])[1..] == evs[1..] + [ev];
      RunExtends(Step(y, evs[0]), evs[1..], z, ev);
    }
  }

  /** Over every run: the list is sorted by expiry, so its head is the earliest of all active timers;
      ACTIVE is set exactly for listed timers; every callback, past and pending, is one period after
      the one before it or after the start; none has run early. */
  lemma {:induction false} RunsAreGood(y: System, evs: seq<Event>, z: System)
    requires Good(y) && Run(y, evs, z)
    ensures Good(z)
    decreases |evs|
  {
    if evs != [] {
      StepInv(y, evs[0]);
      StepNotEarly(y, evs[0]);
      RunsAreGood(Step(y, evs[0]), evs[1..], z);
    }
  }

  lemma FromTheStart(evs: seq<Event>, z: System)
    requires Run(INITIAL, evs, z)
    ensures Good(z)
  {
    RunsAreGood(INITIAL, evs, z);
  }

  /** A one-shot timer is created and started; then a command the daemon does not know names it.  It says it is
      active from then on, and is in no list. */
  lemma StrandedTimer()
    ensures var evs := [Create(0, 5, false, false), Process(0, Start(0), 0)];
            exists y :: Run(INITIAL, evs, y) && Acceptable(y, Process(0, Other, 0)) && Inv(y.service)
                && Holds(y.service.queue, 0)
              && var z := Step(y, Process(0, Other, 0)).service;
                 0 in z.timers && z.timers[0].active && !Holds(z.queue, 0) && !Inv(z)
  {
    hide Inv, Step, Acceptable;
    var e1, e2, e3 := Create(0, 5, false, false), Process(0, Start(0), 0), Process(0, Other, 0);
    var x := CreatedOnce();
    StartedOnce(x);
    StepInv(x, e2);
    var y := Step(x, e2);
    NamedOnce(y);
    StepInv(y, e3);
    TwoEvents(x, y, e1, e2);
  }

  lemma CreatedOnce() returns (x: System)
    ensures Inv(INITIAL.service) && Enabled(INITIAL, Create(0, 5, false, false))
            && x == Step(INITIAL, Create(0, 5, false, false))
    ensures Inv(x.service) && x.service == Service(map[0 := Timer(5, false, false, false)], [], []) && x.last == 0
  {
    StepInv(INITIAL, Create(0, 5, false, false));
    x := Step(INITIAL, Create(0, 5, false, false));
  }

  lemma TwoEvents(x: System, y: System, e1: Event, e2: Event)
    requires Inv(INITIAL.service) && Enabled(INITIAL, e1) && x == Step(INITIAL, e1)
    requires Inv(x.service) && Enabled(x, e2) && y == Step(x, e2)
    ensures Run(INITIAL, [e1, e2], y)
  {
    hide Inv, Step, Enabled;
    assert [e1, e2][1..] == [e2] && [e2][1..] == [];
    assert Run(y, [], y);
    assert Run(x, [e2], y);
  }

  lemma NamedOnce(y: System)
    requires Inv(y.service) && y.service.timers == map[0 := Timer(5, false, true, false)]
    requires y.service.queue == [Entry(5, 0)] && y.last == 0
    ensures Acceptable(y, Process(0, Other, 0)) && Stranding(y, Process(0, Other, 0))
    ensures var z := Step(y, Process(0, Other, 0)).service; z.timers == y.service.timers && !Holds(z.queue, 0)
  {
    InvFacts(y.service, {});
    WithoutKnown(y.service, 0);
    hide Inv, Without;
  }

  lemma StartedOnce(x: System)
    requires Inv(x.service) && x.service == Service(map[0 := Timer(5, false, false, false)], [], []) && x.last == 0
    ensures Acceptable(x, Process(0, Start(0), 0))
    ensures var y := Step(x, Process(0, Start(0), 0));
            && y.service.timers == map[0 := Timer(5, false, true, false)] && y.service.queue == [Entry(5, 0)]
            && y.last == 0
            && Holds(y.service.queue, 0)
  {
    var e := Process(0, Start(0), 0);
    var s := x.service;
    assert Without(s.queue, 0) == [];
    var y := Step(x, e);
    assert SortedInsert<TimerId>([], Entry(5, 0)) == [Entry(5, 0)];
    assert y.service == Listed(Begun(s, 0, 0, 5), 0, 5);
    assert y.service.queue[0].owner == 0;
  }

  ghost function FiredCount(log: seq<Happening>, id: TimerId): nat {
    if log == [] then 0
    else FiredCount(log[..|log| - 1], id) + if log[|log| - 1].Fired? && log[|log| - 1].id == id then 1 else 0
  }

  ghost predicate NotRestarted(log: seq<Happening>, a: nat, b: nat, id: TimerId)
    requires a <= b <= |log|
  {
    forall k :: a <= k < b ==> !(log[k].Started? && log[k].id == id)
  }

  /** The n-th callback after a start at time t with period p is for time t + n * p: over a whole
      run there is no drift, no loss and no repetition, however late the daemon ran. */
  lemma {:induction false} NoDrift(log: seq<Happening>, a: nat, b: nat, id: TimerId)
    requires PunctualLog(log) && a < b <= |log| && NotRestarted(log, a + 1, b, id)
    requires log[a].Started? && log[a].id == id
    ensures var n := FiredCount(log[a + 1..b], id);
            && LastPeriod(log[..b], id) == log[a].period
            && LastTime(log[..b], id) == log[a].at + n * log[a].period
            && (b < |log| && log[b].Fired? && log[b].id == id ==> log[b].due == log[a].at + (n + 1) * log[a].period)
    decreases b
  {
    var h, n := log[b - 1], FiredCount(log[a + 1..b], id);
    assert log[..b][..b - 1] == log[..b - 1];
    if b == a + 1 {
      assert log[a + 1..b] == [];
    } else {
      assert log[a + 1..b][..b - a - 2] == log[a + 1..b - 1];
      NoDrift(log, a, b - 1, id);
      assert PunctualAt(log, b - 1);
      TimesNext(FiredCount(log[a + 1..b - 1], id), log[a].period);
    }
    if b < |log| && log[b].Fired? && log[b].id == id {
      assert PunctualAt(log, b);
      TimesNext(n, log[a].period);
    }
  }
}
