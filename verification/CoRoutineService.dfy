/** The co-routine scheduler (croutine.c) over an ideal tick count that never wraps, as the small steps that
    interrupts may fall between.  Module CoRoutines proves that the wrapped lists implement it. */
module CoRoutineService {
  import opened EventLists
  import opened WrappedLists
  import opened Wrappers

  type Co = nat

  /** The list that holds the generic item of a co-routine, and its event item: their pxContainer. */
  datatype GenericPlace = Ready | Delayed | InHand
  datatype EventPlace = Nowhere | Pending | OnEvent(list: nat)

  datatype Crcb = Crcb(priority: nat, generic: GenericPlace, event: EventPlace)

  /** A co-routine whose delay ran out: when it was due, and the tick at which it was readied. */
  datatype Woken = Woken(co: Co, due: nat, at: nat)

  datatype Scheduler = Scheduler(
    co: map<Co, Crcb>,
    ready: seq<Ring<Co>>,               // pxReadyCoRoutineLists, by priority
    delayed: seq<Entry<Co>>,            // by ideal wake time
    pending: seq<Entry<Co>>,            // xPendingReadyCoRoutineList
    events: seq<seq<Entry<Co>>>,        // the event lists of queues, in priority order
    tick: nat,                          // xCoRoutineTickCount
    top: nat,                           // uxTopCoRoutineReadyPriority
    current: Option<Co>,                // pxCurrentCoRoutine
    woken: seq<Woken>
  )

  // ---------------------------------------------------------------- the steps

  function At(co: map<Co, Crcb>, c: Co, g: GenericPlace): map<Co, Crcb>
    requires c in co
  {
    co[c := co[c].(generic := g)]
  }

  function Waits(co: map<Co, Crcb>, c: Co, e: EventPlace): map<Co, Crcb>
    requires c in co
  {
    co[c := co[c].(event := e)]
  }

  /** prvAddCoRoutineToReadyQueue.  The value of a ready item is never looked at. */
  function AddReady(s: Scheduler, c: Co): Scheduler
    requires c in s.co && s.co[c].priority < |s.ready| && s.ready[s.co[c].priority].Valid()
  {
    var p := s.co[c].priority;
    s.(top := if p > s.top then p else s.top,
       ready := s.ready[p := s.ready[p].InsertEnd(Entry(0, c))],
       co := At(s.co, c, Ready))
  }

  /** Takes a co-routine off its ready list. */
  function Unready(s: Scheduler, c: Co): Scheduler
    requires c in s.co && s.co[c].priority < |s.ready|
    requires var r := s.ready[s.co[c].priority]; r.Valid() && Find(r.items, c) < |r.items|
  {
    var p := s.co[c].priority;
    s.(ready := s.ready[p := s.ready[p].Remove(Find(s.ready[p].items, c))], co := At(s.co, c, InHand))
  }

  /** Puts a co-routine in hand on the delayed list. */
  function Delay(s: Scheduler, c: Co, wake: nat): Scheduler
    requires c in s.co
  {
    s.(delayed := SortedInsert(s.delayed, Entry(wake, c)), co := At(s.co, c, Delayed))
  }

  function Undelay(s: Scheduler, c: Co): Scheduler
    requires c in s.co
  {
    s.(delayed := Without(s.delayed, c), co := At(s.co, c, InHand))
  }

  /** Event lists are in priority order, the highest first. */
  function EventValue(s: Scheduler, c: Co): nat
    requires c in s.co
  {
    if s.co[c].priority <= |s.ready| then |s.ready| - s.co[c].priority else 0
  }

  function Await(s: Scheduler, c: Co, e: nat): Scheduler
    requires c in s.co && e < |s.events|
  {
    s.(events := s.events[e := SortedInsert(s.events[e], Entry(EventValue(s, c), c))], co := Waits(s.co, c, OnEvent(e)))
  }

  /** Takes the event item of a co-routine off whatever list it is on. */
  function Detach(s: Scheduler, c: Co): Scheduler
    requires c in s.co && (s.co[c].event.OnEvent? ==> s.co[c].event.list < |s.events|)
  {
    match s.co[c].event
    case Nowhere => s
    case Pending => s.(pending := Without(s.pending, c), co := Waits(s.co, c, Nowhere))
    case OnEvent(e) => s.(events := s.events[e := Without(s.events[e], c)], co := Waits(s.co, c, Nowhere))
  }

  /** xCoRoutineRemoveFromEventList: the head of an event list goes to the end of the pending list. */
  function Signal(s: Scheduler, e: nat): Scheduler
    requires e < |s.events| && s.events[e] != [] && s.events[e][0].owner in s.co
  {
    var h := s.events[e][0];
    s.(events := s.events[e := s.events[e][1..]], pending := s.pending + [h], co := Waits(s.co, h.owner, Pending))
  }

  /** The search of vCoRoutineSchedule, from a priority downwards. */
  function Highest(ready: seq<Ring<Co>>, top: nat): (p: nat)
    requires top < |ready|
    ensures p <= top
    ensures ready[p].items == [] ==> p == 0
    ensures forall q :: p < q <= top ==> ready[q].items == []
  {
    if ready[top].items != [] || top == 0 then top else Highest(ready, top - 1)
  }

  /** The search, and the next co-routine of the list found. */
  function Choose(s: Scheduler): Scheduler
    requires s.top < |s.ready|
  {
    var p := Highest(s.ready, s.top);
    if s.ready[p].items == [] then s.(top := p)
    else
      var r := s.ready[p].Next();
      s.(top := p, ready := s.ready[p := r], current := Some(r.items[r.at - 1].owner))
  }

  // ---------------------------------------------------------------- lists and containers

  ghost predicate Members(list: seq<Entry<Co>>, cs: set<Co>) {
    DistinctOwners(list) && forall c :: Holds(list, c) <==> c in cs
  }

  ghost function AtReady(co: map<Co, Crcb>, p: nat): set<Co> {
    set c | c in co && co[c].generic.Ready? && co[c].priority == p
  }

  ghost function AtDelayed(co: map<Co, Crcb>): set<Co> {
    set c | c in co && co[c].generic.Delayed?
  }

  ghost function AtPending(co: map<Co, Crcb>): set<Co> {
    set c | c in co && co[c].event.Pending?
  }

  ghost function AtEvent(co: map<Co, Crcb>, e: nat): set<Co> {
    set c | c in co && co[c].event == OnEvent(e)
  }

  ghost predicate ReadyOk(ready: seq<Ring<Co>>, co: map<Co, Crcb>) {
    && (forall p :: 0 <= p < |ready| ==> ready[p].Valid() && Members(ready[p].items, AtReady(co, p)))
    && (forall c :: c in co ==> co[c].priority < |ready|)
  }

  ghost predicate EventsOk(events: seq<seq<Entry<Co>>>, co: map<Co, Crcb>) {
    && (forall e :: 0 <= e < |events| ==> Members(events[e], AtEvent(co, e)) && Sorted(events[e]))
    && (forall c :: c in co && co[c].event.OnEvent? ==> co[c].event.list < |events|)
  }

  /** Each item is in exactly the list its container says, once; who awaits an event is delayed too. */
  ghost predicate ListsOk(s: Scheduler) {
    && ReadyOk(s.ready, s.co) && EventsOk(s.events, s.co)
    && Members(s.delayed, AtDelayed(s.co)) && Sorted(s.delayed)
    && Members(s.pending, AtPending(s.co))
    && (forall c :: c in s.co && !s.co[c].event.Nowhere? ==> s.co[c].generic.Delayed?)
  }

  lemma MembersInsert(list: seq<Entry<Co>>, cs: set<Co>, e: Entry<Co>)
    requires Members(list, cs) && e.owner !in cs
    ensures Members(SortedInsert(list, e), cs + {e.owner})
  {
    InsertDistinct(list, e);
    forall c ensures Holds(SortedInsert(list, e), c) <==> c in cs + {e.owner} {
      InsertOwners(list, e, c);
    }
  }

  lemma MembersWithout(list: seq<Entry<Co>>, cs: set<Co>, x: Co)
    requires Members(list, cs)
    ensures Members(Without(list, x), cs - {x})
    ensures Sorted(list) ==> Sorted(Without(list, x))
  {
    RemoveKeeps(list, x);
    forall c ensures Holds(Without(list, x), c) <==> c in cs - {x} {
      RemoveOwners(list, x, c);
    }
  }

  lemma MembersAt(list: seq<Entry<Co>>, cs: set<Co>, k: nat, e: Entry<Co>)
    requires Members(list, cs) && e.owner !in cs && k <= |list|
    ensures Members(InsertAt(list, k, e), cs + {e.owner})
  {
    var r := InsertAt(list, k, e);
    assert r[k] == e;
    forall c ensures Holds(r, c) <==> c in cs + {e.owner} {
      if i: nat :| i < |list| && list[i].owner == c {
        assert r[if i < k then i else i + 1].owner == c;
      }
    }
    forall i, j | 0 <= i < j < |r| ensures r[i].owner != r[j].owner {
      if i == k { assert Holds(list, r[j].owner); } else if j == k { assert Holds(list, r[i].owner); }
    }
  }

  lemma HeadWithout(list: seq<Entry<Co>>)
    requires list != []
    ensures Without(list, list[0].owner) == list[1..]
  {
    FindUnique(list, list[0].owner, 0);
  }

  // Each list after one container has changed.

  lemma GenericMoved(co: map<Co, Crcb>, c: Co, g: GenericPlace)
    requires c in co
    ensures var co' := At(co, c, g);
            && AtDelayed(co') == (if g.Delayed? then AtDelayed(co) + {c} else AtDelayed(co) - {c})
            && AtPending(co') == AtPending(co)
            && (forall e :: AtEvent(co', e) == AtEvent(co, e))
            && (forall p :: AtReady(co', p) == if p != co[c].priority then AtReady(co, p)
                                              else if g.Ready? then AtReady(co, p) + {c} else AtReady(co, p) - {c})
  {
  }

  lemma EventMoved(co: map<Co, Crcb>, c: Co, v: EventPlace)
    requires c in co
    ensures var co' := Waits(co, c, v);
            && AtDelayed(co') == AtDelayed(co)
            && AtPending(co') == (if v.Pending? then AtPending(co) + {c} else AtPending(co) - {c})
            && (forall e :: AtEvent(co', e) == if v == OnEvent(e) then AtEvent(co, e) + {c} else AtEvent(co, e) - {c})
            && (forall p :: AtReady(co', p) == AtReady(co, p))
  {
  }

  // ---------------------------------------------------------------- every step keeps the lists

  lemma AddReadyOk(s: Scheduler, c: Co)
    requires ListsOk(s) && c in s.co && s.co[c].generic.InHand?
    ensures s.co[c].priority < |s.ready| && s.ready[s.co[c].priority].Valid() && ListsOk(AddReady(s, c))
  {
    hide Members, AtReady, AtDelayed, AtPending, AtEvent, Sorted, InsertAt, At;
    var p, t := s.co[c].priority, AddReady(s, c);
    var r := s.ready[p];
    GenericMoved(s.co, c, Ready);
    assert c !in AtReady(s.co, p) && c !in AtDelayed(s.co) by { NotThere(s.co, c); }
    MembersAt(r.items, AtReady(s.co, p), if r.at == 0 then |r.items| else r.at - 1, Entry(0, c));
    assert r.InsertEnd(Entry(0, c)).items
           == InsertAt(r.items, if r.at == 0 then |r.items| else r.at - 1, Entry(0, c)) by {
      AtTheEnd(r.items, Entry(0, c));
    }
    assert AtDelayed(t.co) == AtDelayed(s.co);
    OthersKept(s.co, t.co, c, Ready);
  }

  lemma AtTheEnd(items: seq<Entry<Co>>, e: Entry<Co>)
    ensures InsertAt(items, |items|, e) == items + [e]
  {
  }

  lemma NotThere(co: map<Co, Crcb>, c: Co)
    requires c in co
    ensures !co[c].generic.Ready? ==> c !in AtReady(co, co[c].priority)
    ensures !co[c].generic.Delayed? ==> c !in AtDelayed(co)
    ensures !co[c].event.Pending? ==> c !in AtPending(co)
    ensures forall e :: co[c].event != OnEvent(e) ==> c !in AtEvent(co, e)
  {
  }

  lemma OthersKept(co: map<Co, Crcb>, co': map<Co, Crcb>, c: Co, g: GenericPlace)
    requires c in co && co' == At(co, c, g)
    ensures forall x :: x in co' <==> x in co
    ensures forall x :: x in co ==> co'[x].priority == co[x].priority && co'[x].event == co[x].event
    ensures forall x :: x in co && x != c ==> co'[x] == co[x]
    ensures co'[c].generic == g
  {
  }

  lemma UnreadyOk(s: Scheduler, c: Co)
    requires ListsOk(s) && c in s.co && s.co[c].generic.Ready?
    ensures s.co[c].priority < |s.ready| && s.ready[s.co[c].priority].Valid()
    ensures var items := s.ready[s.co[c].priority].items; Find(items, c) < |items|
    ensures ListsOk(Unready(s, c)) && Unready(s, c).co[c].generic.InHand?
  {
    assert Holds(s.ready[s.co[c].priority].items, c);
    hide Members, AtReady, AtDelayed, AtPending, AtEvent, Sorted, At, RemoveAt;
    var p, t := s.co[c].priority, Unready(s, c);
    GenericMoved(s.co, c, InHand);
    assert c !in AtDelayed(s.co) by { NotThere(s.co, c); }
    MembersWithout(s.ready[p].items, AtReady(s.co, p), c);
    assert AtDelayed(t.co) == AtDelayed(s.co);
    OthersKept(s.co, t.co, c, InHand);
  }

  lemma DelayOk(s: Scheduler, c: Co, wake: nat)
    requires ListsOk(s) && c in s.co && s.co[c].generic.InHand?
    ensures ListsOk(Delay(s, c, wake))
  {
    hide Members, AtReady, AtDelayed, AtPending, AtEvent, Sorted, At;
    var t := Delay(s, c, wake);
    GenericMoved(s.co, c, Delayed);
    assert c !in AtDelayed(s.co) && c !in AtReady(s.co, s.co[c].priority) by { NotThere(s.co, c); }
    assert AtReady(s.co, s.co[c].priority) - {c} == AtReady(s.co, s.co[c].priority);
    MembersInsert(s.delayed, AtDelayed(s.co), Entry(wake, c));
    InsertKeepsOrder(s.delayed, Entry(wake, c));
    OthersKept(s.co, t.co, c, Delayed);
  }

  /** A delayed co-routine that awaits no event any more is taken off the delayed list. */
  lemma UndelayOk(s: Scheduler, c: Co)
    requires ListsOk(s) && c in s.co && s.co[c].generic.Delayed? && s.co[c].event.Nowhere?
    ensures ListsOk(Undelay(s, c)) && c in Undelay(s, c).co && Undelay(s, c).co[c].generic.InHand?
  {
    hide Members, AtReady, AtDelayed, AtPending, AtEvent, Sorted, At;
    var t := Undelay(s, c);
    GenericMoved(s.co, c, InHand);
    assert c !in AtReady(s.co, s.co[c].priority) by { NotThere(s.co, c); }
    assert AtReady(s.co, s.co[c].priority) - {c} == AtReady(s.co, s.co[c].priority);
    MembersWithout(s.delayed, AtDelayed(s.co), c);
    OthersKept(s.co, t.co, c, InHand);
  }

  lemma EventsKept(co: map<Co, Crcb>, co': map<Co, Crcb>, c: Co, v: EventPlace)
    requires c in co && co' == Waits(co, c, v)
    ensures forall x :: x in co' <==> x in co
    ensures forall x :: x in co ==> co'[x].priority == co[x].priority && co'[x].generic == co[x].generic
    ensures forall x :: x in co && x != c ==> co'[x] == co[x]
    ensures co'[c].event == v
  {
  }

  lemma AwaitOk(s: Scheduler, c: Co, e: nat)
    requires ListsOk(s) && c in s.co && e < |s.events| && s.co[c].generic.Delayed? && s.co[c].event.Nowhere?
    ensures ListsOk(Await(s, c, e))
  {
    hide Members, AtReady, AtDelayed, AtPending, AtEvent, Sorted, Waits;
    var t, entry := Await(s, c, e), Entry(EventValue(s, c), c);
    EventMoved(s.co, c, OnEvent(e));
    NotThere(s.co, c);
    MembersInsert(s.events[e], AtEvent(s.co, e), entry);
    InsertKeepsOrder(s.events[e], entry);
    EventsKept(s.co, t.co, c, OnEvent(e));
    forall x | 0 <= x < |t.events| ensures Members(t.events[x], AtEvent(t.co, x)) && Sorted(t.events[x]) {
      if x != e { assert AtEvent(s.co, x) - {c} == AtEvent(s.co, x); }
    }
    assert AtPending(s.co) - {c} == AtPending(s.co);
  }

  lemma DetachOk(s: Scheduler, c: Co)
    requires ListsOk(s) && c in s.co
    ensures s.co[c].event.OnEvent? ==> s.co[c].event.list < |s.events|
    ensures ListsOk(Detach(s, c)) && c in Detach(s, c).co && Detach(s, c).co[c] == s.co[c].(event := Nowhere)
  {
    hide Members, AtReady, AtDelayed, AtPending, AtEvent, Sorted, Waits;
    if !s.co[c].event.Nowhere? {
      var t, v := Detach(s, c), s.co[c].event;
      EventMoved(s.co, c, Nowhere);
      NotThere(s.co, c);
      EventsKept(s.co, t.co, c, Nowhere);
      MembersWithout(s.pending, AtPending(s.co), c);
      forall x | 0 <= x < |t.events| ensures Members(t.events[x], AtEvent(t.co, x)) && Sorted(t.events[x]) {
        MembersWithout(s.events[x], AtEvent(s.co, x), c);
        if v != OnEvent(x) { assert AtEvent(s.co, x) - {c} == AtEvent(s.co, x); }
      }
      if !v.Pending? { assert AtPending(s.co) - {c} == AtPending(s.co); }
    }
  }

  /** What an interrupt signals is neither lost nor queued twice. */
  lemma SignalOk(s: Scheduler, e: nat)
    requires ListsOk(s) && e < |s.events| && s.events[e] != []
    ensures s.events[e][0].owner in s.co && s.co[s.events[e][0].owner].event == OnEvent(e)
    ensures ListsOk(Signal(s, e))
  {
    var h := s.events[e][0];
    assert Holds(s.events[e], h.owner) && h.owner in AtEvent(s.co, e);
    hide Members, AtReady, AtDelayed, AtPending, Sorted, Waits;
    var t := Signal(s, e);
    EventMoved(s.co, h.owner, Pending);
    NotThere(s.co, h.owner);
    EventsKept(s.co, t.co, h.owner, Pending);
    HeadWithout(s.events[e]);
    MembersAt(s.pending, AtPending(s.co), |s.pending|, h);
    AtTheEnd(s.pending, h);
    forall x | 0 <= x < |t.events| ensures Members(t.events[x], AtEvent(t.co, x)) && Sorted(t.events[x]) {
      MembersWithout(s.events[x], AtEvent(s.co, x), h.owner);
      if x != e { assert AtEvent(s.co, x) - {h.owner} == AtEvent(s.co, x); }
    }
  }

  lemma ChooseOk(s: Scheduler)
    requires ListsOk(s) && s.top < |s.ready|
    ensures ListsOk(Choose(s))
  {
    hide Members, AtReady, AtDelayed, AtPending, AtEvent, Sorted;
  }

  // ---------------------------------------------------------------- interleavings

  /** Where vCoRoutineSchedule is when an interrupt may fall. */
  datatype Pc =
    | Running                            // a co-routine runs, or nobody does
    | CheckingPending
    | Moving(c: Co)                      // off the pending list, not yet ready
    | Ticking(left: nat)
    | Inspecting(left: nat)              // about to look at the head of the delayed list
    | Removing(left: nat, c: Co)         // about to disable interrupts and take the head off its lists
    | Adding(left: nat, c: Co)           // off its lists, not yet ready
    | Choosing

  datatype System = System(s: Scheduler, pc: Pc)

  datatype Event =
    | Create(c: Co, priority: nat)
    | Begin                              // vCoRoutineSchedule is called
    | TakePending
    | Sample(passed: nat)                // the pending list is empty; the ticks passed are read
    | Move | NextTick | Inspect | Remove | Add | Select
    | DelaySelf(ticks: nat)              // crDELAY
    | Block(ticks: nat, e: nat)          // waiting for an event, with a time-out
    | Interrupt(e: nat)                  // xCoRoutineRemoveFromEventList

  ghost predicate CurrentReady(s: Scheduler) {
    s.current.Some? && s.current.value in s.co && s.co[s.current.value].generic.Ready?
        && s.co[s.current.value].event.Nowhere?
  }

  /** Callers see to it that a delay is positive (croutine.h:310-315, queue.c:2499). */
  ghost predicate Enabled(y: System, e: Event) {
    match e
    case Create(c, _) => y.pc.Running? && c !in y.s.co && y.s.ready != []
    case Begin => y.pc.Running? && y.s.current.Some?
    case TakePending => y.pc.CheckingPending? && y.s.pending != []
    case Sample(_) => y.pc.CheckingPending? && y.s.pending == []
    case Move => y.pc.Moving?
    case NextTick => y.pc.Ticking?
    case Inspect => y.pc.Inspecting?
    case Remove => y.pc.Removing?
    case Add => y.pc.Adding?
    case Select => y.pc.Choosing?
    case DelaySelf(ticks) => y.pc.Running? && CurrentReady(y.s) && 0 < ticks < TICKS
    case Block(ticks, e) => y.pc.Running? && CurrentReady(y.s) && 0 < ticks < TICKS && e < |y.s.events|
    case Interrupt(e) => e < |y.s.events| && y.s.events[e] != []
  }

  /** vCoRoutineAddToDelayedList for the current co-routine. */
  function Sleep(s: Scheduler, c: Co, ticks: nat): Scheduler
    requires c in s.co && s.co[c].priority < |s.ready|
    requires var r := s.ready[s.co[c].priority]; r.Valid() && Find(r.items, c) < |r.items|
  {
    Delay(Unready(s, c), c, s.tick + ticks)
  }

  function Created(s: Scheduler, c: Co, priority: nat): Scheduler
    requires s.ready != []
  {
    var p := if priority >= |s.ready| then |s.ready| - 1 else priority;
    s.(co := s.co[c := Crcb(p, InHand, Nowhere)], current := if s.current.None? then Some(c) else s.current)
  }

  function Recorded(s: Scheduler, c: Co): Scheduler
    requires s.delayed != []
  {
    s.(woken := s.woken + [Woken(c, s.delayed[0].value, s.tick)])
  }

  // ---------------------------------------------------------------- the invariant

  /** While a tick is worked off, an entry may be due at that tick; otherwise all lie ahead. */
  predicate WithinTick(pc: Pc) {
    pc.Inspecting? || pc.Removing? || pc.Adding?
  }

  ghost predicate Ahead(s: Scheduler, first: nat) {
    forall i :: 0 <= i < |s.delayed| ==> first <= s.delayed[i].value < s.tick + TICKS
  }

  ghost predicate TopOk(s: Scheduler) {
    s.top < |s.ready| && forall p :: 0 <= p < |s.ready| && s.ready[p].items != [] ==> p <= s.top
  }

  ghost predicate HandsOk(y: System) {
    && (forall c :: c in y.s.co && y.s.co[c].generic.InHand? ==> y.pc.Adding? && y.pc.c == c)
    && (y.pc.Adding? ==> y.pc.c in y.s.co && y.s.co[y.pc.c] == Crcb(y.s.co[y.pc.c].priority, InHand, Nowhere))
    && (y.pc.Moving? ==> y.pc.c in y.s.co && y.s.co[y.pc.c] == Crcb(y.s.co[y.pc.c].priority, Delayed, Nowhere))
    && (y.pc.Removing? ==> y.s.delayed != [] && y.s.delayed[0].owner == y.pc.c && y.s.delayed[0].value <= y.s.tick)
  }

  ghost predicate OnTime(woken: seq<Woken>) {
    forall i :: 0 <= i < |woken| ==> woken[i].due == woken[i].at
  }

  ghost predicate Inv(y: System) {
    && ListsOk(y.s) && TopOk(y.s) && HandsOk(y) && OnTime(y.s.woken)
    && Ahead(y.s, if WithinTick(y.pc) then y.s.tick else y.s.tick + 1)
  }

  lemma CreatedOk(s: Scheduler, c: Co, priority: nat)
    requires ListsOk(s) && c !in s.co && s.ready != []
    ensures var t := Created(s, c, priority); ListsOk(t) && t.co[c].generic.InHand?
  {
    hide Members, Sorted;
    var t := Created(s, c, priority);
    forall p ensures AtReady(t.co, p) == AtReady(s.co, p) {}
    forall e ensures AtEvent(t.co, e) == AtEvent(s.co, e) {}
    assert AtDelayed(t.co) == AtDelayed(s.co) && AtPending(t.co) == AtPending(s.co);
  }

  lemma DelayedHere(s: Scheduler, i: nat)
    requires ListsOk(s) && i < |s.delayed|
    ensures s.delayed[i].owner in s.co && s.co[s.delayed[i].owner].generic.Delayed?
  {
    assert Holds(s.delayed, s.delayed[i].owner);
    hide ReadyOk, EventsOk, Sorted, AtPending;
    assert s.delayed[i].owner in AtDelayed(s.co);
  }

  lemma PendingHere(s: Scheduler)
    requires ListsOk(s) && s.pending != []
    ensures var c := s.pending[0].owner; c in s.co && s.co[c].event.Pending? && s.co[c].generic.Delayed?
    ensures Without(s.pending, s.pending[0].owner) == s.pending[1..]
  {
    assert Holds(s.pending, s.pending[0].owner);
    hide ReadyOk, EventsOk, Sorted, AtDelayed;
    assert s.pending[0].owner in AtPending(s.co);
    HeadWithout(s.pending);
  }

  ghost function Step(y: System, e: Event): System
    requires Inv(y) && Enabled(y, e)
  {
    var s := y.s;
    match e
    case Create(c, priority) =>
      CreatedOk(s, c, priority);
      AddReadyOk(Created(s, c, priority), c);
      y.(s := AddReady(Created(s, c, priority), c))
    case Begin => y.(pc := CheckingPending)
    case TakePending =>
      PendingHere(s);
      DetachOk(s, s.pending[0].owner);
      System(Detach(s, s.pending[0].owner), Moving(s.pending[0].owner))
    case Sample(passed) => y.(pc := Ticking(passed))
    case Move =>
      UndelayOk(s, y.pc.c);
      AddReadyOk(Undelay(s, y.pc.c), y.pc.c);
      System(AddReady(Undelay(s, y.pc.c), y.pc.c), CheckingPending)
    case NextTick =>
      if y.pc.left == 0 then y.(pc := Choosing) else System(s.(tick := s.tick + 1), Inspecting(y.pc.left - 1))
    case Inspect =>
      if s.delayed == [] || s.tick < s.delayed[0].value then y.(pc := Ticking(y.pc.left))
      else y.(pc := Removing(y.pc.left, s.delayed[0].owner))
    case Remove =>
      DelayedHere(s, 0);
      DetachOk(Recorded(s, y.pc.c), y.pc.c);
      System(Undelay(Detach(Recorded(s, y.pc.c), y.pc.c), y.pc.c), Adding(y.pc.left, y.pc.c))
    case Add =>
      AddReadyOk(s, y.pc.c);
      System(AddReady(s, y.pc.c), Inspecting(y.pc.left))
    case Select => System(Choose(s), Running)
    case DelaySelf(ticks) =>
      UnreadyOk(s, s.current.value);
      y.(s := Sleep(s, s.current.value, ticks))
    case Block(ticks, e) =>
      UnreadyOk(s, s.current.value);
      y.(s := Await(Sleep(s, s.current.value, ticks), s.current.value, e))
    case Interrupt(e) =>
      SignalOk(s, e);
      y.(s := Signal(s, e))
  }

  // Each part of the invariant.

  lemma TopAfterAdd(s: Scheduler, c: Co)
    requires ListsOk(s) && TopOk(s) && c in s.co && s.co[c].generic.InHand?
    ensures s.co[c].priority < |s.ready| && s.ready[s.co[c].priority].Valid() && TopOk(AddReady(s, c))
  {
    hide Members, EventsOk, Sorted;
  }

  lemma TopAfterUnready(s: Scheduler, c: Co)
    requires TopOk(s) && c in s.co && s.co[c].priority < |s.ready|
    requires var r := s.ready[s.co[c].priority]; r.Valid() && Find(r.items, c) < |r.items|
    ensures TopOk(Unready(s, c))
  {
  }

  /** The search finds the highest priority that has a ready co-routine, and its next one is chosen. */
  lemma ChooseHighest(s: Scheduler)
    requires TopOk(s)
    ensures TopOk(Choose(s)) && Choose(s).delayed == s.delayed && Choose(s).co == s.co
    ensures var t := Choose(s); forall p :: 0 <= p < |s.ready| && s.ready[p].items != [] ==>
              && p <= t.top && s.ready[t.top].items != []
              && t.current == Some(s.ready[t.top].items[NextAt(|s.ready[t.top].items|, s.ready[t.top].at) - 1].owner)
  {
  }

  lemma AheadWithout(s: Scheduler, first: nat, c: Co)
    requires Ahead(s, first)
    ensures Ahead(s.(delayed := Without(s.delayed, c)), first)
  {
    var k, r := Find(s.delayed, c), Without(s.delayed, c);
    forall i | 0 <= i < |r| ensures first <= r[i].value < s.tick + TICKS {
      assert r[i] == s.delayed[if i < k then i else i + 1];
    }
  }

  lemma AheadInsert(s: Scheduler, first: nat, e: Entry<Co>)
    requires Ahead(s, first)
    ensures Ahead(s.(delayed := SortedInsert(s.delayed, e)), first) <==> first <= e.value < s.tick + TICKS
  {
    var r, p := SortedInsert(s.delayed, e), Position(s.delayed, e.value);
    assert r[p] == e;
    if first <= e.value < s.tick + TICKS {
      forall i | 0 <= i < |r| ensures first <= r[i].value < s.tick + TICKS {
        assert r[i] == if i < p then s.delayed[i] else if i == p then e else s.delayed[i - 1];
      }
    }
  }

  lemma CreateInv(y: System, e: Event)
    requires Inv(y) && Enabled(y, e) && e.Create?
    ensures Inv(Step(y, e))
  {
    hide ListsOk, AddReady, OnTime;
    var t := Created(y.s, e.c, e.priority);
    CreatedOk(y.s, e.c, e.priority);
    AddReadyOk(t, e.c);
    TopAfterAdd(t, e.c);
    Added(t, e.c);
  }

  /** What readying a co-routine leaves alone. */
  lemma Added(s: Scheduler, c: Co)
    requires c in s.co && s.co[c].priority < |s.ready| && s.ready[s.co[c].priority].Valid()
    ensures var t := AddReady(s, c);
            && t.delayed == s.delayed && t.tick == s.tick && t.woken == s.woken && t.co == At(s.co, c, Ready)
            && t.pending == s.pending && t.events == s.events && t.current == s.current
  {
  }

  lemma TakePendingInv(y: System)
    requires Inv(y) && Enabled(y, TakePending)
    ensures Inv(Step(y, TakePending))
  {
    hide ListsOk, Ahead, OnTime, TopOk, Members;
    var s, c := y.s, y.s.pending[0].owner;
    PendingHere(s);
    DetachOk(s, c);
    EventsKept(s.co, Detach(s, c).co, c, Nowhere);
    SameAhead(s, Detach(s, c), s.tick + 1);
    SameTop(s, Detach(s, c));
  }

  lemma MoveInv(y: System)
    requires Inv(y) && Enabled(y, Move)
    ensures Inv(Step(y, Move))
  {
    hide ListsOk, OnTime, AddReady, Ahead;
    var s, c := y.s, y.pc.c;
    UndelayOk(s, c);
    AheadWithout(s, s.tick + 1, c);
    var t := Undelay(s, c);
    assert TopOk(t);
    hide TopOk;
    AddReadyOk(t, c);
    TopAfterAdd(t, c);
    Added(t, c);
    SameAhead(t, AddReady(t, c), s.tick + 1);
    SameAhead(s.(delayed := Without(s.delayed, c)), t, s.tick + 1);
  }

  lemma SameAhead(s: Scheduler, t: Scheduler, first: nat)
    requires s.delayed == t.delayed && s.tick == t.tick
    ensures Ahead(s, first) <==> Ahead(t, first)
  {
  }

  lemma RemoveInv(y: System)
    requires Inv(y) && Enabled(y, Remove)
    ensures Inv(Step(y, Remove))
  {
    hide ListsOk, Without, Ahead;
    var s, c := y.s, y.pc.c;
    DelayedHere(s, 0);
    assert s.delayed[0].value == s.tick by { Due(s, c); }
    var r := Recorded(s, c);
    assert ListsOk(r) by { RecordedOk(s, c); }
    DetachOk(r, c);
    var d := Detach(r, c);
    UndelayOk(d, c);
    SameAhead(s, d, s.tick);
    AheadWithout(d, s.tick, c);
    SameAhead(d.(delayed := Without(d.delayed, c)), Undelay(d, c), s.tick);
  }

  lemma Due(s: Scheduler, c: Co)
    requires s.delayed != [] && s.delayed[0].value <= s.tick && Ahead(s, s.tick)
    ensures s.delayed[0].value == s.tick
  {
  }

  lemma RecordedOk(s: Scheduler, c: Co)
    requires ListsOk(s) && s.delayed != []
    ensures ListsOk(Recorded(s, c))
  {
    hide ReadyOk, EventsOk, Members, Sorted;
  }

  lemma AddInv(y: System)
    requires Inv(y) && Enabled(y, Add)
    ensures Inv(Step(y, Add))
  {
    hide ListsOk, AddReady, OnTime, TopOk, Ahead;
    AddReadyOk(y.s, y.pc.c);
    TopAfterAdd(y.s, y.pc.c);
    Added(y.s, y.pc.c);
    SameAhead(y.s, AddReady(y.s, y.pc.c), y.s.tick);
  }

  lemma TimeInv(y: System, e: Event)
    requires Inv(y) && Enabled(y, e) && (e.Begin? || e.Sample? || e.NextTick? || e.Inspect?)
    ensures Inv(Step(y, e))
  {
    hide OnTime, Members, ReadyOk, EventsOk;
    if e.Inspect? && y.s.delayed != [] && y.s.tick < y.s.delayed[0].value {
      assert Sorted(y.s.delayed);
    }
  }

  lemma SelectInv(y: System)
    requires Inv(y) && Enabled(y, Select)
    ensures Inv(Step(y, Select))
  {
    hide ListsOk, OnTime, Highest;
    ChooseOk(y.s);
    ChooseHighest(y.s);
  }

  lemma InterruptInv(y: System, e: Event)
    requires Inv(y) && Enabled(y, e) && e.Interrupt?
    ensures Inv(Step(y, e))
  {
    hide ListsOk, OnTime, Ahead, TopOk;
    SignalOk(y.s, e.e);
    SameAhead(y.s, Signal(y.s, e.e), if WithinTick(y.pc) then y.s.tick else y.s.tick + 1);
    var h := y.s.events[e.e][0].owner;
    EventsKept(y.s.co, Signal(y.s, e.e).co, h, Pending);
    assert TopOk(Signal(y.s, e.e)) by { SameTop(y.s, Signal(y.s, e.e)); }
  }

  lemma SameTop(s: Scheduler, t: Scheduler)
    requires s.ready == t.ready && s.top == t.top
    ensures TopOk(s) <==> TopOk(t)
  {
  }

  lemma SleepInv(y: System, ticks: nat)
    requires Inv(y) && Enabled(y, DelaySelf(ticks))
    ensures Inv(Step(y, DelaySelf(ticks)))
  {
    hide ListsOk, OnTime, Ahead;
    var s, c := y.s, y.s.current.value;
    UnreadyOk(s, c);
    var u := Unready(s, c);
    DelayOk(u, c, s.tick + ticks);
    TopAfterUnready(s, c);
    SameAhead(s, u, s.tick + 1);
    AheadInsert(u, s.tick + 1, Entry(s.tick + ticks, c));
    SameAhead(u.(delayed := SortedInsert(u.delayed, Entry(s.tick + ticks, c))), Delay(u, c, s.tick + ticks),
        s.tick + 1);
  }

  lemma BlockInv(y: System, ticks: nat, e: nat)
    requires Inv(y) && Enabled(y, Block(ticks, e))
    ensures Inv(Step(y, Block(ticks, e)))
  {
    hide ListsOk, OnTime, Ahead, TopOk;
    SleepInv(y, ticks);
    var s, c := y.s, y.s.current.value;
    UnreadyOk(s, c);
    var t := Sleep(s, c, ticks);
    AwaitOk(t, c, e);
    SameAhead(t, Await(t, c, e), s.tick + 1);
    SameTop(t, Await(t, c, e));
  }

  lemma StepInv(y: System, e: Event)
    requires Inv(y) && Enabled(y, e)
    ensures Inv(Step(y, e))
  {
    hide Inv, Step, Enabled;
    match e
    case Create(_, _) => CreateInv(y, e);
    case TakePending => TakePendingInv(y);
    case Move => MoveInv(y);
    case Remove => RemoveInv(y);
    case Add => AddInv(y);
    case Select => SelectInv(y);
    case DelaySelf(ticks) => SleepInv(y, ticks);
    case Block(ticks, list) => BlockInv(y, ticks, list);
    case Interrupt(_) => InterruptInv(y, e);
    case _ => TimeInv(y, e);
  }

  // ---------------------------------------------------------------- whole runs

  ghost predicate Initial(y: System) {
    && y.pc.Running? && y.s.co == map[] && y.s.ready != []
    && (forall p :: 0 <= p < |y.s.ready| ==> y.s.ready[p] == Ring([], 0))
    && y.s.delayed == [] && y.s.pending == [] && (forall e :: 0 <= e < |y.s.events| ==> y.s.events[e] == [])
    && y.s.top == 0 && y.s.current == None && y.s.woken == []
  }

  lemma InitialInv(y: System)
    requires Initial(y)
    ensures Inv(y)
  {
  }

  ghost predicate Run(y: System, es: seq<Event>, z: System)
    requires Inv(y)
    decreases |es|
  {
    if es == [] then z == y
    else Enabled(y, es[0]) && (StepInv(y, es[0]); Run(Step(y, es[0]), es[1..], z))
  }

  lemma {:induction false} RunInv(y: System, es: seq<Event>, z: System)
    requires Inv(y) && Run(y, es, z)
    ensures Inv(z)
    decreases |es|
  {
    hide Inv, Step, Enabled;
    if es != [] {
      StepInv(y, es[0]);
      RunInv(Step(y, es[0]), es[1..], z);
    }
  }

  /** In every run: each co-routine's generic item is in exactly one ready or delayed list, but for one that is
      just being moved; one that an interrupt readied is on the pending list once and still delayed; a delay
      that runs out does so exactly at its tick; and nobody is left behind by the tick. */
  lemma EveryRun(y: System, es: seq<Event>, z: System, c: Co)
    requires Inv(y) && Initial(y) && Run(y, es, z) && c in z.s.co
    ensures z.s.co[c].priority < |z.s.ready|
    ensures Holds(z.s.delayed, c) <==> z.s.co[c].generic.Delayed?
    ensures forall p :: 0 <= p < |z.s.ready| ==>
              DistinctOwners(z.s.ready[p].items)
              && (Holds(z.s.ready[p].items, c) <==> z.s.co[c].generic.Ready? && p == z.s.co[c].priority)
    ensures z.s.co[c].generic.InHand? ==> z.pc.Adding? && z.pc.c == c
    ensures Holds(z.s.pending, c) <==> z.s.co[c].event.Pending?
    ensures Holds(z.s.pending, c) ==> Holds(z.s.delayed, c)
    ensures DistinctOwners(z.s.pending) && DistinctOwners(z.s.delayed)
    ensures forall i :: 0 <= i < |z.s.woken| ==> z.s.woken[i].due == z.s.woken[i].at
    ensures !WithinTick(z.pc) ==> forall i :: 0 <= i < |z.s.delayed| ==> z.s.tick < z.s.delayed[i].value
  {
    RunInv(y, es, z);
    hide Run, Holds, Initial, DistinctOwners, Sorted;
    assert c in AtDelayed(z.s.co) <==> z.s.co[c].generic.Delayed?;
    assert c in AtPending(z.s.co) <==> z.s.co[c].event.Pending?;
  }

  // ---------------------------------------------------------------- priorities

  /** Every event list item still carries the priority of its owner. */
  ghost predicate ByPriority(s: Scheduler) {
    forall e, i :: 0 <= e < |s.events| && 0 <= i < |s.events[e]| ==> HasPriority(s, s.events[e][i])
  }

  ghost predicate HasPriority(s: Scheduler, x: Entry<Co>) {
    x.owner in s.co && s.co[x.owner].priority <= |s.ready| && x.value == |s.ready| - s.co[x.owner].priority
  }

  /** Event lists lose items, or gain one with the priority of its owner; priorities stay. */
  lemma OrderKept(s: Scheduler, t: Scheduler)
    requires ByPriority(s) && |t.events| == |s.events| && |t.ready| == |s.ready|
    requires forall c :: c in s.co ==> c in t.co && t.co[c].priority == s.co[c].priority
    requires forall e, i :: 0 <= e < |t.events| && 0 <= i < |t.events[e]| ==>
               t.events[e][i] in s.events[e] || HasPriority(t, t.events[e][i])
    ensures ByPriority(t)
  {
    forall e, i | 0 <= e < |t.events| && 0 <= i < |t.events[e]| ensures HasPriority(t, t.events[e][i]) {
      if t.events[e][i] in s.events[e] {
        var j :| 0 <= j < |s.events[e]| && s.events[e][j] == t.events[e][i];
        assert HasPriority(s, s.events[e][j]);
      }
    }
  }

  lemma WithoutFrom(list: seq<Entry<Co>>, c: Co)
    ensures forall x :: x in Without(list, c) ==> x in list
  {
  }

  lemma DetachOrder(s: Scheduler, c: Co)
    requires ListsOk(s) && c in s.co && ByPriority(s)
    ensures s.co[c].event.OnEvent? ==> s.co[c].event.list < |s.events|
    ensures var t := Detach(s, c);
            && ByPriority(t) && t.ready == s.ready && t.co == Waits(s.co, c, Nowhere) && t.tick == s.tick
            && t.woken == s.woken
  {
    DetachOk(s, c);
    hide ListsOk, Without;
    var t := Detach(s, c);
    if s.co[c].event.OnEvent? {
      WithoutFrom(s.events[s.co[c].event.list], c);
    }
    assert t.co == Waits(s.co, c, Nowhere) by { SameCo(s.co, c); }
    OrderKept(s, t);
  }

  lemma SameCo(co: map<Co, Crcb>, c: Co)
    requires c in co
    ensures co[c].event == Nowhere ==> Waits(co, c, Nowhere) == co
  {
    assert co[c].event == Nowhere ==> co[c].(event := Nowhere) == co[c];
  }

  lemma ReadiedOrder(s: Scheduler, c: Co)
    requires ByPriority(s) && c in s.co && s.co[c].priority < |s.ready| && s.ready[s.co[c].priority].Valid()
    ensures ByPriority(AddReady(s, c))
  {
    Added(s, c);
    hide Ring.InsertEnd;
    OrderKept(s, AddReady(s, c));
  }

  lemma UndelayOrder(s: Scheduler, c: Co)
    requires ByPriority(s) && c in s.co
    ensures ByPriority(Undelay(s, c))
  {
    hide Without;
    OrderKept(s, Undelay(s, c));
  }

  lemma CreateOrder(y: System, e: Event)
    requires Inv(y) && Enabled(y, e) && e.Create? && ByPriority(y.s)
    ensures ByPriority(Step(y, e).s)
  {
    hide ListsOk, Ahead, TopOk, OnTime;
    var t := Created(y.s, e.c, e.priority);
    CreatedOk(y.s, e.c, e.priority);
    AddReadyOk(t, e.c);
    OrderKept(y.s, t);
    ReadiedOrder(t, e.c);
  }

  lemma DeliveringOrder(y: System, e: Event)
    requires Inv(y) && Enabled(y, e) && (e.TakePending? || e.Move? || e.Remove? || e.Add?) && ByPriority(y.s)
    ensures ByPriority(Step(y, e).s)
  {
    hide ListsOk, Ahead, TopOk, OnTime, AddReady, Undelay, Detach;
    var s := y.s;
    match e
    case TakePending => PendingHere(s); DetachOrder(s, s.pending[0].owner);
    case Move =>
      UndelayOk(s, y.pc.c);
      UndelayOrder(s, y.pc.c);
      AddReadyOk(Undelay(s, y.pc.c), y.pc.c);
      ReadiedOrder(Undelay(s, y.pc.c), y.pc.c);
    case Remove =>
      var r := Recorded(s, y.pc.c);
      DelayedHere(s, 0);
      assert ListsOk(r) by { RecordedOk(s, y.pc.c); }
      OrderKept(s, r);
      DetachOrder(r, y.pc.c);
      DetachOk(r, y.pc.c);
      UndelayOrder(Detach(r, y.pc.c), y.pc.c);
    case Add =>
      AddReadyOk(s, y.pc.c);
      ReadiedOrder(s, y.pc.c);
  }

  lemma SleepOrder(s: Scheduler, c: Co, ticks: nat)
    requires ListsOk(s) && ByPriority(s) && c in s.co && s.co[c].generic.Ready?
    ensures s.co[c].priority < |s.ready|
    ensures var r := s.ready[s.co[c].priority]; r.Valid() && Find(r.items, c) < |r.items|
    ensures ByPriority(Sleep(s, c, ticks)) && c in Sleep(s, c, ticks).co && Sleep(s, c, ticks).events == s.events
    ensures Sleep(s, c, ticks).co[c].priority == s.co[c].priority && |Sleep(s, c, ticks).ready| == |s.ready|
  {
    UnreadyOk(s, c);
    hide ListsOk, SortedInsert;
    OrderKept(s, Sleep(s, c, ticks));
  }

  lemma AwaitOrder(s: Scheduler, c: Co, e: nat)
    requires ByPriority(s) && c in s.co && s.co[c].priority <= |s.ready| && e < |s.events|
    ensures ByPriority(Await(s, c, e))
  {
    hide SortedInsert;
    InsertStays(s.events[e], Entry(EventValue(s, c), c));
    OrderKept(s, Await(s, c, e));
  }

  lemma OrderStep(y: System, e: Event)
    requires Inv(y) && Enabled(y, e) && ByPriority(y.s)
    ensures ByPriority(Step(y, e).s)
  {
    hide ListsOk, Ahead, OnTime, HandsOk, Sleep, Await, Highest;
    var s := y.s;
    match e
    case Create(_, _) => CreateOrder(y, e);
    case DelaySelf(ticks) => SleepOrder(s, s.current.value, ticks);
    case Block(ticks, list) =>
      SleepOrder(s, s.current.value, ticks);
      AwaitOrder(Sleep(s, s.current.value, ticks), s.current.value, list);
    case Interrupt(list) =>
      SignalOk(s, list);
      OrderKept(s, Signal(s, list));
    case Begin => OrderKept(s, Step(y, e).s);
    case Sample(_) => OrderKept(s, Step(y, e).s);
    case NextTick => OrderKept(s, Step(y, e).s);
    case Inspect => OrderKept(s, Step(y, e).s);
    case Select => OrderKept(s, Choose(s));
    case _ => DeliveringOrder(y, e);
  }

  lemma {:induction false} RunOrder(y: System, es: seq<Event>, z: System)
    requires Inv(y) && Run(y, es, z) && ByPriority(y.s)
    ensures ByPriority(z.s)
    decreases |es|
  {
    hide Inv, Step, Enabled, ByPriority;
    if es != [] {
      StepInv(y, es[0]);
      OrderStep(y, es[0]);
      RunOrder(Step(y, es[0]), es[1..], z);
    }
  }

  /** In every run the co-routine that an interrupt readies is one that waits for the event, and no other that waits
      for it has a higher priority. */
  lemma SignalHighest(y: System, es: seq<Event>, z: System, e: nat, c: Co)
    requires Inv(y) && Initial(y) && Run(y, es, z) && Inv(z) && Enabled(z, Interrupt(e))
    requires c in z.s.co && z.s.co[c].event == OnEvent(e)
    ensures var h := z.s.events[e][0].owner;
            && h in z.s.co && z.s.co[h].event == OnEvent(e) && z.s.co[c].priority <= z.s.co[h].priority
            && var t := Step(z, Interrupt(e)).s;
            && h in t.co && t.co[h] == z.s.co[h].(event := Pending) && t.pending == z.s.pending + [z.s.events[e][0]]
            && (c != h ==> c in t.co && t.co[c] == z.s.co[c])
  {
    RunOrder(y, es, z);
    SignalOk(z.s, e);
    OrderIs(z.s, e, c);
    hide ListsOk, Run, Initial, ByPriority;
  }

  lemma OrderIs(s: Scheduler, e: nat, c: Co)
    requires ListsOk(s) && ByPriority(s) && e < |s.events| && c in s.co && s.co[c].event == OnEvent(e)
    ensures s.events[e] != [] && s.events[e][0].owner in s.co && s.co[c].priority <= s.co[s.events[e][0].owner].priority
  {
    assert c in AtEvent(s.co, e) && Holds(s.events[e], c);
    var i :| 0 <= i < |s.events[e]| && s.events[e][i].owner == c;
    assert HasPriority(s, s.events[e][i]) && HasPriority(s, s.events[e][0]);
    assert Sorted(s.events[e]);
    hide ReadyOk, Members;
  }

  // ---------------------------------------------------------------- who was signalled

  /** Signalled, or its delay ran out, and not yet ready. */
  ghost predicate OnItsWay(y: System, c: Co) {
    && c in y.s.co
    && (y.s.co[c].event.Pending? || (y.pc.Moving? && y.pc.c == c) || (y.pc.Adding? && y.pc.c == c))
  }

  ghost predicate IsReady(y: System, c: Co) {
    c in y.s.co && y.s.co[c].generic.Ready? && y.s.co[c].event.Nowhere?
  }

  lemma DeliveryStep(y: System, e: Event, c: Co)
    requires Inv(y) && Enabled(y, e) && OnItsWay(y, c) && (e.TakePending? || e.Move? || e.Remove? || e.Add?)
    ensures OnItsWay(Step(y, e), c) || IsReady(Step(y, e), c)
  {
    hide ListsOk, Ahead, TopOk, OnTime, AddReady;
    var s := y.s;
    match e
    case TakePending => PendingHere(s); DetachOk(s, s.pending[0].owner);
      EventsKept(s.co, Detach(s, s.pending[0].owner).co, s.pending[0].owner, Nowhere);
    case Move =>
      UndelayOk(s, y.pc.c);
      AddReadyOk(Undelay(s, y.pc.c), y.pc.c);
      Added(Undelay(s, y.pc.c), y.pc.c);
    case Remove =>
      var r := Recorded(s, y.pc.c);
      DelayedHere(s, 0);
      assert ListsOk(r) by { RecordedOk(s, y.pc.c); }
      DetachOk(r, y.pc.c);
    case Add =>
      AddReadyOk(s, y.pc.c);
      Added(s, y.pc.c);
  }

  lemma OnItsWayStep(y: System, e: Event, c: Co)
    requires Inv(y) && Enabled(y, e) && OnItsWay(y, c)
    ensures OnItsWay(Step(y, e), c) || IsReady(Step(y, e), c)
  {
    hide ListsOk, Ahead, TopOk, OnTime, AddReady, SortedInsert, Highest;
    var s := y.s;
    match e
    case Create(x, priority) =>
      CreatedOk(s, x, priority);
      AddReadyOk(Created(s, x, priority), x);
      Added(Created(s, x, priority), x);
    case DelaySelf(_) => UnreadyOk(s, s.current.value);
    case Block(_, _) => UnreadyOk(s, s.current.value);
    case Interrupt(list) => SignalOk(s, list);
    case Begin =>
    case Sample(_) =>
    case NextTick =>
    case Inspect =>
    case Select =>
    case _ => DeliveryStep(y, e, c);
  }

  /** At some point of the run `c` is ready. */
  ghost predicate GetsReady(y: System, es: seq<Event>, c: Co)
    requires Inv(y)
    decreases |es|
  {
    IsReady(y, c)
    || (es != [] && Enabled(y, es[0]) && (StepInv(y, es[0]); GetsReady(Step(y, es[0]), es[1..], c)))
  }

  /** No signal is lost: however many interrupts fall in between, a co-routine that was signalled is on its way until
      it is ready, and it is ready before the scheduler finds the pending list empty. */
  lemma {:induction false} SignalledGetsReady(y: System, es: seq<Event>, z: System, c: Co)
    requires Inv(y) && Run(y, es, z) && OnItsWay(y, c)
    ensures OnItsWay(z, c) || GetsReady(y, es, c)
    ensures z.pc.CheckingPending? && z.s.pending == [] ==> GetsReady(y, es, c)
    decreases |es|
  {
    RunInv(y, es, z);
    if es == [] {
      if z.pc.CheckingPending? && z.s.pending == [] { NonePending(z, c); }
    } else {
      StepInv(y, es[0]);
      OnItsWayStep(y, es[0], c);
      var m := Step(y, es[0]);
      hide Inv, Step, Enabled, OnItsWay, IsReady;
      if OnItsWay(m, c) {
        SignalledGetsReady(m, es[1..], z, c);
      }
    }
  }

  lemma NonePending(z: System, c: Co)
    requires Inv(z) && z.s.pending == [] && c in z.s.co
    ensures !z.s.co[c].event.Pending?
  {
    assert c in AtPending(z.s.co) <==> Holds(z.s.pending, c);
    hide ReadyOk, EventsOk, Sorted;
  }

  /** A new co-routine is ready, with its priority or the highest there is, and it is current if nobody was. */
  lemma CreateReadies(y: System, c: Co, priority: nat)
    requires Inv(y) && Enabled(y, Create(c, priority))
    ensures var t := Step(y, Create(c, priority)).s;
            && c in t.co && IsReady(Step(y, Create(c, priority)), c)
            && t.co[c].priority == (if priority < |y.s.ready| then priority else |y.s.ready| - 1)
            && t.current == (if y.s.current == None then Some(c) else y.s.current)
            && forall x :: x in y.s.co ==> x in t.co && t.co[x] == y.s.co[x]
  {
    hide ListsOk, Ahead, TopOk, OnTime, AddReady;
    CreatedOk(y.s, c, priority);
    AddReadyOk(Created(y.s, c, priority), c);
    Added(Created(y.s, c, priority), c);
  }

  // ---------------------------------------------------------------- delays

  /** Co-routine `c` is delayed until `wake`, perhaps to wait for an event, and nobody has signalled it. */
  ghost predicate Asleep(y: System, c: Co, wake: nat) {
    && c in y.s.co && Entry(wake, c) in y.s.delayed && !y.s.co[c].event.Pending?
    && !(y.pc.Moving? && y.pc.c == c)
  }

  /** It goes on sleeping, and waits for what it waited for. */
  ghost predicate SleepsOn(y: System, z: System, c: Co, wake: nat) {
    Asleep(z, c, wake) && c in y.s.co && z.s.co[c] == y.s.co[c]
  }

  /** The interrupt that readies `c`. */
  predicate Signals(y: System, e: Event, c: Co) {
    e.Interrupt? && e.e < |y.s.events| && y.s.events[e.e] != [] && y.s.events[e.e][0].owner == c
  }

  /** Nobody signals it while it sleeps until `wake`. */
  ghost predicate Unsignalled(y: System, es: seq<Event>, c: Co, wake: nat)
    requires Inv(y)
    decreases |es|
  {
    es != [] && Asleep(y, c, wake) && Enabled(y, es[0]) ==>
      !Signals(y, es[0], c) && (StepInv(y, es[0]); Unsignalled(Step(y, es[0]), es[1..], c, wake))
  }

  /** The delays that ran out between two states. */
  ghost function WokenSince(y: System, z: System): seq<Woken>
    requires y.s.woken <= z.s.woken
  {
    z.s.woken[|y.s.woken|..]
  }

  ghost predicate NotWoken(y: System, z: System, c: Co) {
    y.s.woken <= z.s.woken && forall w :: w in WokenSince(y, z) ==> w.co != c
  }

  ghost predicate WokenAt(y: System, z: System, c: Co, wake: nat) {
    y.s.woken <= z.s.woken && Woken(c, wake, wake) in WokenSince(y, z)
  }

  lemma InsertStays(list: seq<Entry<Co>>, e: Entry<Co>)
    ensures forall x :: x in SortedInsert(list, e) <==> x in list || x == e
  {
    var p := Position(list, e.value);
    assert list == list[..p] + list[p..];
  }

  lemma WithoutStays(list: seq<Entry<Co>>, x: Entry<Co>, c: Co)
    requires x in list && x.owner != c
    ensures x in Without(list, c)
  {
    var k := Find(list, c);
    var i :| 0 <= i < |list| && list[i] == x;
    if k < |list| {
      assert Without(list, c)[if i < k then i else i - 1] == x;
    }
  }

  lemma OnlyOne(list: seq<Entry<Co>>, x: Entry<Co>)
    requires DistinctOwners(list) && x in list && list[0].owner == x.owner
    ensures list[0] == x
  {
  }

  lemma AsleepDelayed(y: System, c: Co, wake: nat)
    requires Inv(y) && Asleep(y, c, wake)
    ensures y.s.co[c].generic.Delayed? && DistinctOwners(y.s.delayed)
  {
    var i :| 0 <= i < |y.s.delayed| && y.s.delayed[i] == Entry(wake, c);
    DelayedHere(y.s, i);
    hide ReadyOk, EventsOk, Sorted, DistinctOwners;
  }

  /** Removing the head of the delayed list wakes its owner, and nobody else. */
  lemma AsleepRemove(y: System, c: Co, wake: nat)
    requires Inv(y) && Enabled(y, Remove) && Asleep(y, c, wake)
    ensures var z := Step(y, Remove);
            if y.pc.c == c then z.s.woken == y.s.woken + [Woken(c, wake, wake)] && wake == y.s.tick
            else SleepsOn(y, z, c, wake) && z.s.woken == y.s.woken + [Woken(y.pc.c, y.s.tick, y.s.tick)]
  {
    hide ListsOk, Without, Ahead, DistinctOwners, TopOk, OnTime;
    AsleepDelayed(y, c, wake);
    var s, d := y.s, y.pc.c;
    DelayedHere(s, 0);
    assert s.delayed[0].value == s.tick by { Due(s, d); }
    var r := Recorded(s, d);
    assert ListsOk(r) by { RecordedOk(s, d); }
    DetachOk(r, d);
    if d == c {
      OnlyOne(s.delayed, Entry(wake, c));
    } else {
      WithoutStays(s.delayed, Entry(wake, c), d);
    }
  }

  lemma AsleepMove(y: System, c: Co, wake: nat)
    requires Inv(y) && Enabled(y, Move) && Asleep(y, c, wake)
    ensures SleepsOn(y, Step(y, Move), c, wake) && Step(y, Move).s.woken == y.s.woken
  {
    hide ListsOk, Without, Ahead, AddReady;
    UndelayOk(y.s, y.pc.c);
    AddReadyOk(Undelay(y.s, y.pc.c), y.pc.c);
    Added(Undelay(y.s, y.pc.c), y.pc.c);
    WithoutStays(y.s.delayed, Entry(wake, c), y.pc.c);
  }

  lemma AsleepOthersSleep(y: System, e: Event, c: Co, wake: nat)
    requires Inv(y) && Enabled(y, e) && (e.DelaySelf? || e.Block?) && Asleep(y, c, wake)
    ensures SleepsOn(y, Step(y, e), c, wake) && Step(y, e).s.woken == y.s.woken
  {
    hide ListsOk, Ahead, SortedInsert, TopOk, HandsOk, OnTime, DistinctOwners;
    AsleepDelayed(y, c, wake);
    UnreadyOk(y.s, y.s.current.value);
    InsertStays(y.s.delayed, Entry(y.s.tick + e.ticks, y.s.current.value));
  }

  lemma AsleepSignal(y: System, e: Event, c: Co, wake: nat)
    requires Inv(y) && Enabled(y, e) && (e.Interrupt? || e.TakePending?)
    requires Asleep(y, c, wake) && !Signals(y, e, c)
    ensures SleepsOn(y, Step(y, e), c, wake) && Step(y, e).s.woken == y.s.woken
  {
    hide ListsOk, Ahead, Without;
    if e.Interrupt? {
      SignalOk(y.s, e.e);
    } else {
      PendingHere(y.s);
      DetachOk(y.s, y.s.pending[0].owner);
    }
  }

  lemma AsleepReady(y: System, e: Event, c: Co, wake: nat)
    requires Inv(y) && Enabled(y, e) && (e.Create? || e.Add?) && Asleep(y, c, wake)
    ensures SleepsOn(y, Step(y, e), c, wake) && Step(y, e).s.woken == y.s.woken
  {
    AsleepDelayed(y, c, wake);
    hide ListsOk, Ahead, AddReady;
    if e.Create? {
      CreatedOk(y.s, e.c, e.priority);
      AddReadyOk(Created(y.s, e.c, e.priority), e.c);
      Added(Created(y.s, e.c, e.priority), e.c);
    } else {
      AddReadyOk(y.s, y.pc.c);
      Added(y.s, y.pc.c);
    }
  }

  lemma AsleepOn(y: System, e: Event, c: Co, wake: nat)
    requires Inv(y) && Enabled(y, e) && (e.Begin? || e.Sample? || e.NextTick? || e.Inspect? || e.Select?)
             && Asleep(y, c, wake)
    ensures SleepsOn(y, Step(y, e), c, wake) && Step(y, e).s.woken == y.s.woken
  {
    hide ListsOk, Ahead, Highest;
  }

  /** One step: it sleeps on, or its delay has just run out, at its tick. */
  lemma AsleepStep(y: System, e: Event, c: Co, wake: nat)
    requires Inv(y) && Enabled(y, e) && Asleep(y, c, wake) && !Signals(y, e, c)
    ensures var z := Step(y, e);
            || (SleepsOn(y, z, c, wake) && NotWoken(y, z, c))
            || (WokenAt(y, z, c, wake) && wake == y.s.tick)
  {
    hide Inv, Step, Enabled, Asleep;
    match e
    case Create(_, _) => AsleepReady(y, e, c, wake);
    case Add => AsleepReady(y, e, c, wake);
    case TakePending => AsleepSignal(y, e, c, wake);
    case Interrupt(_) => AsleepSignal(y, e, c, wake);
    case Move => AsleepMove(y, c, wake);
    case Remove => AsleepRemove(y, c, wake); RecordedOnce(y, Step(y, e), c, wake);
    case DelaySelf(_) => AsleepOthersSleep(y, e, c, wake);
    case Block(_, _) => AsleepOthersSleep(y, e, c, wake);
    case _ => AsleepOn(y, e, c, wake);
  }

  lemma RecordedOnce(y: System, z: System, c: Co, wake: nat)
    requires |z.s.woken| == |y.s.woken| + 1 && z.s.woken[..|y.s.woken|] == y.s.woken
    ensures z.s.woken[|y.s.woken|] == Woken(c, wake, wake) ==> WokenAt(y, z, c, wake)
    ensures z.s.woken[|y.s.woken|].co != c ==> NotWoken(y, z, c)
  {
    assert z.s.woken[|y.s.woken|..] == [z.s.woken[|y.s.woken|]];
  }

  lemma StepTicks(y: System, e: Event)
    requires Inv(y) && Enabled(y, e)
    ensures Step(y, e).s.tick >= y.s.tick && y.s.woken <= Step(y, e).s.woken
  {
    hide ListsOk, Ahead, Highest, SortedInsert, Without;
  }

  lemma {:induction false} RunTicks(y: System, es: seq<Event>, z: System)
    requires Inv(y) && Run(y, es, z)
    ensures z.s.tick >= y.s.tick && y.s.woken <= z.s.woken
    decreases |es|
  {
    hide Inv, Step, Enabled;
    if es != [] {
      StepInv(y, es[0]);
      StepTicks(y, es[0]);
      RunTicks(Step(y, es[0]), es[1..], z);
    }
  }

  /** Over any run in which nobody signals it, whatever else interrupts do: until its tick the co-routine sleeps,
      and it is woken once that tick is worked off, at that tick. */
  lemma {:induction false} SleepsUntil(y: System, es: seq<Event>, z: System, c: Co, wake: nat)
    requires Inv(y) && Run(y, es, z) && Asleep(y, c, wake) && Unsignalled(y, es, c, wake)
    ensures (Asleep(z, c, wake) && NotWoken(y, z, c)) || (WokenAt(y, z, c, wake) && wake <= z.s.tick)
    ensures z.s.tick < wake ==> Asleep(z, c, wake) && NotWoken(y, z, c)
    ensures !WithinTick(z.pc) && wake <= z.s.tick ==> WokenAt(y, z, c, wake)
    decreases |es|
  {
    RunInv(y, es, z);
    hide Inv, Step, Enabled, Asleep;
    if es != [] {
      var m := Step(y, es[0]);
      StepInv(y, es[0]);
      StepTicks(y, es[0]);
      AsleepStep(y, es[0], c, wake);
      RunTicks(m, es[1..], z);
      if Asleep(m, c, wake) {
        SleepsUntil(m, es[1..], z, c, wake);
      }
      SinceEarlier(y, m, z);
    }
    if Asleep(z, c, wake) { NotOverdue(z, c, wake); }
  }

  lemma SinceEarlier(y: System, m: System, z: System)
    requires y.s.woken <= m.s.woken <= z.s.woken
    ensures WokenSince(y, z) == WokenSince(y, m) + WokenSince(m, z)
  {
  }

  lemma NotOverdue(z: System, c: Co, wake: nat)
    requires Inv(z) && Asleep(z, c, wake)
    ensures z.s.tick <= wake && (!WithinTick(z.pc) ==> z.s.tick < wake)
  {
    hide ListsOk;
  }

  /** A co-routine that delays itself by `ticks` at tick t is woken at tick t + ticks: not before, and as soon as
      that tick has been worked off. */
  lemma DelayExact(y: System, ticks: nat, es: seq<Event>, z: System)
    requires Inv(y) && Run(y, es, z) && es != [] && es[0] == DelaySelf(ticks)
    ensures var c, wake := y.s.current.value, y.s.tick + ticks;
            && (z.s.tick < wake ==> Asleep(z, c, wake) && NotWoken(y, z, c))
            && (!WithinTick(z.pc) && wake <= z.s.tick ==> WokenAt(y, z, c, wake))
  {
    FallsAsleep(y, ticks);
    StepInv(y, es[0]);
    hide Inv, Step, Enabled, Asleep;
    NobodySignals(Step(y, es[0]), es[1..], z, y.s.current.value, y.s.tick + ticks);
    SleepsUntil(Step(y, es[0]), es[1..], z, y.s.current.value, y.s.tick + ticks);
  }

  /** The same for one that waits for an event with a time-out, in runs in which the event does not come. */
  lemma TimeOutExact(y: System, ticks: nat, list: nat, es: seq<Event>, z: System)
    requires Inv(y) && Enabled(y, Block(ticks, list))
    requires (StepInv(y, Block(ticks, list)); var m := Step(y, Block(ticks, list));
              Run(m, es, z) && Unsignalled(m, es, y.s.current.value, y.s.tick + ticks))
    ensures var c, wake := y.s.current.value, y.s.tick + ticks;
            && (z.s.tick < wake ==> Asleep(z, c, wake) && NotWoken(y, z, c))
            && (!WithinTick(z.pc) && wake <= z.s.tick ==> WokenAt(y, z, c, wake))
  {
    BlocksAsleep(y, ticks, list);
    StepInv(y, Block(ticks, list));
    hide Inv, Step, Enabled, Asleep;
    SleepsUntil(Step(y, Block(ticks, list)), es, z, y.s.current.value, y.s.tick + ticks);
  }

  lemma BlocksAsleep(y: System, ticks: nat, list: nat)
    requires Inv(y) && Enabled(y, Block(ticks, list))
    ensures var m := Step(y, Block(ticks, list));
            Asleep(m, y.s.current.value, y.s.tick + ticks) && m.s.woken == y.s.woken
  {
    hide ListsOk, Ahead, SortedInsert;
    UnreadyOk(y.s, y.s.current.value);
    InsertStays(y.s.delayed, Entry(y.s.tick + ticks, y.s.current.value));
  }

  /** Who waits for no event cannot be signalled. */
  lemma {:induction false} NobodySignals(y: System, es: seq<Event>, z: System, c: Co, wake: nat)
    requires Inv(y) && Run(y, es, z) && Asleep(y, c, wake) && y.s.co[c].event.Nowhere?
    ensures Unsignalled(y, es, c, wake)
    decreases |es|
  {
    if es != [] {
      SignalsWaiting(y, es[0], c);
      StepInv(y, es[0]);
      AsleepStep(y, es[0], c, wake);
      hide Inv, Step, Enabled, Asleep;
      var m := Step(y, es[0]);
      if Asleep(m, c, wake) && SleepsOn(y, m, c, wake) {
        NobodySignals(m, es[1..], z, c, wake);
      }
    }
  }

  lemma SignalsWaiting(y: System, e: Event, c: Co)
    requires Inv(y) && Enabled(y, e) && c in y.s.co && y.s.co[c].event.Nowhere?
    ensures !Signals(y, e, c)
  {
    if e.Interrupt? {
      SignalOk(y.s, e.e);
    }
  }

  lemma FallsAsleep(y: System, ticks: nat)
    requires Inv(y) && Enabled(y, DelaySelf(ticks))
    ensures var m := Step(y, DelaySelf(ticks));
            && Asleep(m, y.s.current.value, y.s.tick + ticks) && m.s.woken == y.s.woken
            && m.s.co[y.s.current.value].event.Nowhere?
  {
    hide ListsOk, Ahead, SortedInsert;
    UnreadyOk(y.s, y.s.current.value);
    InsertStays(y.s.delayed, Entry(y.s.tick + ticks, y.s.current.value));
  }

  /** At a swap of the lists, which comes with the last tick of an epoch, no co-routine is due in the epoch
      that ends: the list in use is empty. */
  lemma EmptyAtSwap(y: System)
    requires Inv(y) && y.pc.Ticking? && Epoch(y.s.tick + 1) != Epoch(y.s.tick)
    ensures forall i :: 0 <= i < |y.s.delayed| ==> Epoch(y.s.delayed[i].value) == Epoch(y.s.tick + 1)
  {
    hide ListsOk, TopOk, HandsOk, OnTime;
    forall i | 0 <= i < |y.s.delayed| ensures Epoch(y.s.delayed[i].value) == Epoch(y.s.tick + 1) {
      NextEpochOnly(y.s.tick, y.s.delayed[i].value);
    }
  }

  lemma NextEpochOnly(tick: nat, value: nat)
    requires tick < value < tick + TICKS && Epoch(tick + 1) != Epoch(tick)
    ensures Epoch(value) == Epoch(tick + 1)
  {
  }

  /** A delay keeps the schedule exactly when it is positive and shorter than the tick count is wide. */
  lemma DelayMustBePositive(y: System, ticks: nat)
    requires Inv(y) && y.pc.Running? && CurrentReady(y.s)
    ensures var s, c := y.s, y.s.current.value; var r := s.ready[s.co[c].priority];
            && s.co[c].priority < |s.ready| && r.Valid() && Find(r.items, c) < |r.items|
            && (Inv(y.(s := Sleep(s, c, ticks))) <==> 0 < ticks < TICKS)
  {
    hide ListsOk, OnTime, Ahead, TopOk, HandsOk;
    var s, c := y.s, y.s.current.value;
    UnreadyOk(s, c);
    var u := Unready(s, c);
    SameAhead(s, u, s.tick + 1);
    AheadInsert(u, s.tick + 1, Entry(s.tick + ticks, c));
    SameAhead(u.(delayed := SortedInsert(u.delayed, Entry(s.tick + ticks, c))), Delay(u, c, s.tick + ticks),
        s.tick + 1);
    if 0 < ticks < TICKS {
      assert Inv(Step(y, DelaySelf(ticks))) by { SleepInv(y, ticks); }
    }
  }

  // ---------------------------------------------------------------- without interrupts in between

  /** One round of prvCheckPendingReadyList. */
  ghost function Deliver(s: Scheduler): (t: Scheduler)
    requires ListsOk(s) && s.pending != []
    ensures ListsOk(t) && t.pending == s.pending[1..]
  {
    var c := s.pending[0].owner;
    PendingHere(s);
    DetachOk(s, c);
    UndelayOk(Detach(s, c), c);
    AddReadyOk(Undelay(Detach(s, c), c), c);
    AddReady(Undelay(Detach(s, c), c), c)
  }

  ghost function DeliverAll(s: Scheduler): (t: Scheduler)
    requires ListsOk(s)
    ensures ListsOk(t) && t.pending == []
    decreases |s.pending|
  {
    if s.pending == [] then s else DeliverAll(Deliver(s))
  }

  /** Whoever is pending is ready then and waits for nothing, and nobody else has moved. */
  lemma {:induction false} DeliverAllReadies(s: Scheduler, c: Co)
    requires ListsOk(s) && c in s.co
    ensures var t := DeliverAll(s);
            && c in t.co && t.delayed == WithoutAll(s.delayed, s.pending) && t.tick == s.tick && t.woken == s.woken
            && t.co[c] == if s.co[c].event.Pending? then Crcb(s.co[c].priority, Ready, Nowhere) else s.co[c]
    decreases |s.pending|
  {
    if s.pending == [] {
      NobodyPending(s, c);
    } else {
      var t, h := Deliver(s), s.pending[0].owner;
      DeliverMoves(s);
      hide ListsOk, Deliver;
      DeliverAllReadies(t, c);
    }
  }

  /** A list without the owners of another. */
  ghost function WithoutAll(list: seq<Entry<Co>>, others: seq<Entry<Co>>): seq<Entry<Co>>
    decreases |others|
  {
    if others == [] then list else WithoutAll(Without(list, others[0].owner), others[1..])
  }

  lemma NobodyPending(s: Scheduler, c: Co)
    requires ListsOk(s) && c in s.co && s.pending == []
    ensures !s.co[c].event.Pending?
  {
    assert c in AtPending(s.co) <==> Holds(s.pending, c);
    hide ReadyOk, EventsOk, Sorted;
  }

  lemma DeliverMoves(s: Scheduler)
    requires ListsOk(s) && s.pending != []
    ensures var t, h := Deliver(s), s.pending[0].owner;
            && h in s.co && s.co[h].event.Pending?
            && t.co == s.co[h := Crcb(s.co[h].priority, Ready, Nowhere)]
            && t.delayed == Without(s.delayed, h) && t.tick == s.tick && t.woken == s.woken
  {
    var h := s.pending[0].owner;
    PendingHere(s);
    DetachOk(s, h);
    UndelayOk(Detach(s, h), h);
    AddReadyOk(Undelay(Detach(s, h), h), h);
    hide ListsOk, AddReady, Without;
    Added(Undelay(Detach(s, h), h), h);
  }

  /** One round of the inner loop of prvCheckDelayedList. */
  ghost function WakeHead(s: Scheduler): (t: Scheduler)
    requires ListsOk(s) && s.delayed != []
    ensures ListsOk(t) && t.delayed == s.delayed[1..] && t.tick == s.tick && |t.ready| == |s.ready|
  {
    var c := s.delayed[0].owner;
    DelayedHere(s, 0);
    HeadWithout(s.delayed);
    RecordedOk(s, c);
    var r := Recorded(s, c);
    DetachOk(r, c);
    UndelayOk(Detach(r, c), c);
    AddReadyOk(Undelay(Detach(r, c), c), c);
    AddReady(Undelay(Detach(r, c), c), c)
  }

  /** Everybody due by now is readied, the earliest first. */
  ghost function WakeDue(s: Scheduler): (t: Scheduler)
    requires ListsOk(s)
    ensures ListsOk(t) && t.tick == s.tick && |t.ready| == |s.ready|
    decreases |s.delayed|
  {
    if s.delayed == [] || s.tick < s.delayed[0].value then s else WakeDue(WakeHead(s))
  }

  ghost function Ticks(s: Scheduler, passed: nat): (t: Scheduler)
    requires ListsOk(s)
    ensures ListsOk(t) && t.tick == s.tick + passed && |t.ready| == |s.ready|
    decreases passed
  {
    if passed == 0 then s
    else
      TickedOk(s);
      Ticks(WakeDue(s.(tick := s.tick + 1)), passed - 1)
  }

  lemma TickedOk(s: Scheduler)
    requires ListsOk(s)
    ensures ListsOk(s.(tick := s.tick + 1))
  {
    hide ReadyOk, EventsOk, Members, Sorted;
  }

  lemma WakeHeadRecords(s: Scheduler)
    requires ListsOk(s) && s.delayed != []
    ensures WakeHead(s).woken == s.woken + [Woken(s.delayed[0].owner, s.delayed[0].value, s.tick)]
    ensures var h := s.delayed[0].owner;
            h in s.co && WakeHead(s).co == s.co[h := Crcb(s.co[h].priority, Ready, Nowhere)]
  {
    var c := s.delayed[0].owner;
    DelayedHere(s, 0);
    RecordedOk(s, c);
    DetachOk(Recorded(s, c), c);
    UndelayOk(Detach(Recorded(s, c), c), c);
    AddReadyOk(Undelay(Detach(Recorded(s, c), c), c), c);
    hide ListsOk, AddReady;
    Added(Undelay(Detach(Recorded(s, c), c), c), c);
  }

  lemma WakeDueOnce(s: Scheduler)
    requires ListsOk(s) && s.delayed != [] && s.delayed[0].value <= s.tick
    ensures WakeDue(s) == WakeDue(WakeHead(s)) && s.woken <= WakeDue(s).woken
    ensures Woken(s.delayed[0].owner, s.delayed[0].value, s.tick) in WakeDue(s).woken
  {
    hide ListsOk, WakeHead;
    var t := WakeHead(s);
    WakeHeadRecords(s);
    WakeDueKeeps(t);
    assert t.woken[|s.woken|] == WakeDue(t).woken[|s.woken|];
  }

  lemma HeadDue(s: Scheduler, x: Entry<Co>)
    requires ListsOk(s) && x in s.delayed
    ensures s.delayed[0].value <= x.value && (x == s.delayed[0] || x in s.delayed[1..])
  {
    hide ReadyOk, EventsOk, Members;
    var i :| 0 <= i < |s.delayed| && s.delayed[i] == x;
    if i > 0 { assert s.delayed[1..][i - 1] == x; }
  }

  /** Everybody due by now is woken now, however late. */
  lemma {:induction false} WakeDueWakes(s: Scheduler, x: Entry<Co>)
    requires ListsOk(s) && x in s.delayed && x.value <= s.tick
    ensures Woken(x.owner, x.value, s.tick) in WakeDue(s).woken
    decreases |s.delayed|
  {
    hide ListsOk, WakeHead, WakeDue;
    HeadDue(s, x);
    WakeDueOnce(s);
    if x != s.delayed[0] {
      WakeDueWakes(WakeHead(s), x);
    }
  }

  lemma {:induction false} WakeDueKeeps(s: Scheduler)
    requires ListsOk(s)
    ensures s.woken <= WakeDue(s).woken
    decreases |s.delayed|
  {
    hide ListsOk, WakeHead;
    if s.delayed != [] && s.delayed[0].value <= s.tick {
      WakeHeadRecords(s);
      WakeDueKeeps(WakeHead(s));
    }
  }

  /** And is ready then, waiting for nothing; whoever lies ahead has not moved. */
  lemma {:induction false} WakeDueReadies(s: Scheduler, c: Co)
    requires ListsOk(s) && c in s.co
    ensures var t, due := WakeDue(s), DueBy(s.delayed, c, s.tick);
            && c in t.co
            && t.co[c] == if due then Crcb(s.co[c].priority, Ready, Nowhere) else s.co[c]
    decreases |s.delayed|
  {
    if s.delayed != [] && s.delayed[0].value <= s.tick {
      WakeHeadRecords(s);
      OwnerOnce(s, c);
      hide ListsOk, WakeHead, DueBy;
      WakeDueReadies(WakeHead(s), c);
    } else {
      NothingDue(s, c);
    }
  }

  ghost predicate DueBy(list: seq<Entry<Co>>, c: Co, tick: nat) {
    exists i :: 0 <= i < |list| && list[i].owner == c && list[i].value <= tick
  }

  lemma OwnerOnce(s: Scheduler, c: Co)
    requires ListsOk(s) && s.delayed != [] && s.delayed[0].value <= s.tick
    ensures c == s.delayed[0].owner ==> DueBy(s.delayed, c, s.tick) && !DueBy(s.delayed[1..], c, s.tick)
    ensures c != s.delayed[0].owner ==> (DueBy(s.delayed[1..], c, s.tick) <==> DueBy(s.delayed, c, s.tick))
  {
    hide ReadyOk, EventsOk, Sorted, AtDelayed, AtPending;
    if i :| 0 <= i < |s.delayed| && s.delayed[i].owner == c && s.delayed[i].value <= s.tick {
      if i > 0 { assert s.delayed[1..][i - 1] == s.delayed[i]; }
    }
    if j :| 0 <= j < |s.delayed[1..]| && s.delayed[1..][j].owner == c {
      assert s.delayed[j + 1] == s.delayed[1..][j];
    }
  }

  lemma NothingDue(s: Scheduler, c: Co)
    requires ListsOk(s) && (s.delayed == [] || s.tick < s.delayed[0].value)
    ensures !DueBy(s.delayed, c, s.tick)
  {
    hide ReadyOk, EventsOk, Members;
  }

  /** With a delay of nothing a co-routine is still delayed when the scheduler looks next, and is woken with the
      tick after: one too late. */
  lemma ZeroDelayLate(y: System)
    requires Inv(y) && y.pc.Running? && CurrentReady(y.s)
    ensures var s, c := y.s, y.s.current.value; var r := s.ready[s.co[c].priority];
            && s.co[c].priority < |s.ready| && r.Valid() && Find(r.items, c) < |r.items|
            && var t := Sleep(s, c, 0);
               && ListsOk(t) && Entry(s.tick, c) in t.delayed && ListsOk(t.(tick := s.tick + 1))
               && Woken(c, s.tick, s.tick + 1) in WakeDue(t.(tick := s.tick + 1)).woken
  {
    hide ListsOk, SortedInsert, WakeDue, Ahead, TopOk, HandsOk;
    var s, c := y.s, y.s.current.value;
    UnreadyOk(s, c);
    DelayOk(Unready(s, c), c, s.tick);
    InsertStays(s.delayed, Entry(s.tick, c));
    PastWoken(Sleep(s, c, 0), Entry(s.tick, c));
  }

  lemma PastWoken(s: Scheduler, x: Entry<Co>)
    requires ListsOk(s) && x in s.delayed && x.value <= s.tick
    ensures ListsOk(s.(tick := s.tick + 1))
    ensures Woken(x.owner, x.value, s.tick + 1) in WakeDue(s.(tick := s.tick + 1)).woken
  {
    TickedOk(s);
    hide ListsOk, WakeDue;
    WakeDueWakes(s.(tick := s.tick + 1), x);
  }

  lemma {:induction false} WakeDueAhead(s: Scheduler)
    requires ListsOk(s) && Ahead(s, s.tick)
    ensures Ahead(WakeDue(s), s.tick + 1)
    decreases |s.delayed|
  {
    hide ReadyOk, EventsOk, Members, WakeHead;
    if !(s.delayed == [] || s.tick < s.delayed[0].value) {
      var t := WakeHead(s);
      assert forall i :: 0 <= i < |t.delayed| ==> t.delayed[i] == s.delayed[i + 1];
      WakeDueAhead(t);
    }
  }

  // ---------------------------------------------------------------- a round as a run

  lemma {:induction false} RunJoins(a: System, es: seq<Event>, b: System, fs: seq<Event>, c: System)
    requires Inv(a) && Inv(b) && Run(a, es, b) && Run(b, fs, c)
    ensures Run(a, es + fs, c)
    decreases |es|
  {
    hide Inv, Step, Enabled;
    if es == [] {
      assert es + fs == fs;
    } else {
      assert (es + fs)[0] == es[0] && (es + fs)[1..] == es[1..] + fs;
      StepInv(a, es[0]);
      RunJoins(Step(a, es[0]), es[1..], b, fs, c);
    }
  }

  lemma OneEvent(y: System, e: Event)
    requires Inv(y) && Enabled(y, e)
    ensures Run(y, [e], Step(y, e)) && Inv(Step(y, e))
  {
    StepInv(y, e);
    hide Inv, Step, Enabled;
    assert [e][1..] == [];
  }

  lemma DeliverRuns(s: Scheduler)
    requires Inv(System(s, CheckingPending)) && s.pending != [] && ListsOk(s)
    ensures Inv(System(Deliver(s), CheckingPending))
    ensures Run(System(s, CheckingPending), [TakePending, Move], System(Deliver(s), CheckingPending))
  {
    var y := System(s, CheckingPending);
    OneEvent(y, TakePending);
    var m := Step(y, TakePending);
    OneEvent(m, Move);
    PendingHere(s);
    DetachOk(s, s.pending[0].owner);
    UndelayOk(Detach(s, s.pending[0].owner), s.pending[0].owner);
    hide Inv, ListsOk, AddReady, Undelay, Detach;
    assert Step(m, Move) == System(Deliver(s), CheckingPending);
    hide Run, Step;
    RunJoins(y, [TakePending], m, [Move], System(Deliver(s), CheckingPending));
    assert [TakePending] + [Move] == [TakePending, Move];
  }

  lemma {:induction false} DeliverAllRuns(s: Scheduler) returns (es: seq<Event>)
    requires Inv(System(s, CheckingPending)) && ListsOk(s)
    ensures Run(System(s, CheckingPending), es, System(DeliverAll(s), CheckingPending)) && Undisturbed(es)
    ensures Inv(System(DeliverAll(s), CheckingPending))
    decreases |s.pending|
  {
    hide Inv, ListsOk, Step, Deliver;
    if s.pending == [] {
      es := [];
    } else {
      DeliverRuns(s);
      var rest := DeliverAllRuns(Deliver(s));
      hide Run;
      RunJoins(System(s, CheckingPending), [TakePending, Move], System(Deliver(s), CheckingPending), rest,
          System(DeliverAll(s), CheckingPending));
      es := [TakePending, Move] + rest;
    }
  }

  /** No interrupt falls in between, and no co-routine runs. */
  ghost predicate Undisturbed(es: seq<Event>) {
    forall i :: 0 <= i < |es| ==> !es[i].Interrupt? && !es[i].Create? && !es[i].DelaySelf? && !es[i].Block?
  }

  /** The head of the delayed list is off its lists. */
  ghost function HeadOff(s: Scheduler): (t: Scheduler)
    requires ListsOk(s) && s.delayed != []
  {
    var c := s.delayed[0].owner;
    DelayedHere(s, 0);
    RecordedOk(s, c);
    DetachOk(Recorded(s, c), c);
    Undelay(Detach(Recorded(s, c), c), c)
  }

  lemma HeadInspected(s: Scheduler, left: nat)
    requires Inv(System(s, Inspecting(left))) && s.delayed != [] && s.delayed[0].value <= s.tick
    ensures Step(System(s, Inspecting(left)), Inspect) == System(s, Removing(left, s.delayed[0].owner))
  {
  }

  lemma HeadRemoved(s: Scheduler, left: nat)
    requires ListsOk(s) && s.delayed != [] && Inv(System(s, Removing(left, s.delayed[0].owner)))
    ensures Step(System(s, Removing(left, s.delayed[0].owner)), Remove)
            == System(HeadOff(s), Adding(left, s.delayed[0].owner))
  {
    hide ListsOk, Undelay, Detach;
  }

  lemma HeadAdded(s: Scheduler, left: nat)
    requires ListsOk(s) && s.delayed != [] && Inv(System(HeadOff(s), Adding(left, s.delayed[0].owner)))
    ensures Step(System(HeadOff(s), Adding(left, s.delayed[0].owner)), Add) == System(WakeHead(s), Inspecting(left))
  {
    hide ListsOk, Undelay, Detach, AddReady;
  }

  lemma WakeHeadRuns(s: Scheduler, left: nat)
    requires Inv(System(s, Inspecting(left))) && ListsOk(s) && s.delayed != [] && s.delayed[0].value <= s.tick
    ensures Inv(System(WakeHead(s), Inspecting(left)))
    ensures Run(System(s, Inspecting(left)), [Inspect, Remove, Add], System(WakeHead(s), Inspecting(left)))
  {
    hide Inv, ListsOk, Step, Run, WakeHead, HeadOff;
    var y, m := System(s, Inspecting(left)), System(s, Removing(left, s.delayed[0].owner));
    var n := System(HeadOff(s), Adding(left, s.delayed[0].owner));
    OneEvent(y, Inspect);
    HeadInspected(s, left);
    OneEvent(m, Remove);
    HeadRemoved(s, left);
    OneEvent(n, Add);
    HeadAdded(s, left);
    RunJoins(y, [Inspect], m, [Remove], n);
    RunJoins(y, [Inspect] + [Remove], n, [Add], System(WakeHead(s), Inspecting(left)));
    assert [Inspect] + [Remove] + [Add] == [Inspect, Remove, Add];
  }

  lemma {:induction false} WakeDueRuns(s: Scheduler, left: nat) returns (es: seq<Event>)
    requires Inv(System(s, Inspecting(left))) && ListsOk(s)
    ensures Run(System(s, Inspecting(left)), es, System(WakeDue(s), Ticking(left))) && Undisturbed(es)
    ensures Inv(System(WakeDue(s), Ticking(left)))
    decreases |s.delayed|
  {
    hide ListsOk, WakeHead;
    var y := System(s, Inspecting(left));
    if s.delayed == [] || s.tick < s.delayed[0].value {
      OneEvent(y, Inspect);
      es := [Inspect];
    } else {
      WakeHeadRuns(s, left);
      hide Inv, Step;
      var rest := WakeDueRuns(WakeHead(s), left);
      hide Run;
      RunJoins(y, [Inspect, Remove, Add], System(WakeHead(s), Inspecting(left)), rest,
          System(WakeDue(s), Ticking(left)));
      es := [Inspect, Remove, Add] + rest;
    }
  }

  lemma TickBegins(s: Scheduler, left: nat)
    requires Inv(System(s, Ticking(left)))
    ensures Step(System(s, Ticking(left)), NextTick) ==
              if left == 0 then System(s, Choosing) else System(s.(tick := s.tick + 1), Inspecting(left - 1))
  {
    hide ListsOk;
  }

  lemma {:induction false} TicksRun(s: Scheduler, passed: nat) returns (es: seq<Event>)
    requires Inv(System(s, Ticking(passed))) && ListsOk(s)
    ensures Run(System(s, Ticking(passed)), es, System(Ticks(s, passed), Choosing)) && Undisturbed(es)
    ensures Inv(System(Ticks(s, passed), Choosing))
    decreases passed
  {
    hide Inv, ListsOk, WakeDue, Step;
    var y, end := System(s, Ticking(passed)), System(Ticks(s, passed), Choosing);
    TickBegins(s, passed);
    OneEvent(y, NextTick);
    if passed == 0 {
      es := [NextTick];
    } else {
      TickedOk(s);
      var t := s.(tick := s.tick + 1);
      var m, n := System(t, Inspecting(passed - 1)), System(WakeDue(t), Ticking(passed - 1));
      var due := WakeDueRuns(t, passed - 1);
      var rest := TicksRun(WakeDue(t), passed - 1);
      hide Run;
      RunJoins(y, [NextTick], m, due, n);
      RunJoins(y, [NextTick] + due, n, rest, end);
      es := [NextTick] + due + rest;
    }
  }

  lemma RoundBegins(s: Scheduler)
    requires Inv(System(s, Running)) && s.current.Some?
    ensures Enabled(System(s, Running), Begin) && Step(System(s, Running), Begin) == System(s, CheckingPending)
  {
    hide ListsOk;
  }

  lemma RoundSamples(s: Scheduler, passed: nat)
    requires Inv(System(s, CheckingPending)) && s.pending == []
    ensures Enabled(System(s, CheckingPending), Sample(passed))
    ensures Step(System(s, CheckingPending), Sample(passed)) == System(s, Ticking(passed))
  {
    hide ListsOk;
  }

  lemma RoundSelects(s: Scheduler)
    requires Inv(System(s, Choosing))
    ensures s.top < |s.ready|
    ensures Enabled(System(s, Choosing), Select) && Step(System(s, Choosing), Select) == System(Choose(s), Running)
  {
    hide ListsOk, Highest;
  }

  /** What a round of the scheduler comes to, all pending delivered, the ticks worked off and the next co-routine
      chosen, is a run of the interleaved steps with nothing in between. */
  lemma ScheduleIsARun(s: Scheduler, passed: nat) returns (es: seq<Event>)
    requires Inv(System(s, Running)) && ListsOk(s) && s.current.Some?
    ensures var t := Ticks(DeliverAll(s), passed);
            t.top < |t.ready| && Run(System(s, Running), es, System(Choose(t), Running)) && Undisturbed(es)
  {
    hide Inv, ListsOk, Step, Run, Enabled, DeliverAll, Ticks, Choose;
    var y, a := System(s, Running), System(s, CheckingPending);
    RoundBegins(s);
    OneEvent(y, Begin);
    var first := DeliverAllRuns(s);
    var d := DeliverAll(s);
    RoundSamples(d, passed);
    OneEvent(System(d, CheckingPending), Sample(passed));
    var second := TicksRun(d, passed);
    var t := Ticks(d, passed);
    RoundSelects(t);
    OneEvent(System(t, Choosing), Select);
    var b, c := System(d, CheckingPending), System(d, Ticking(passed));
    RunJoins(y, [Begin], a, first, b);
    RunJoins(y, [Begin] + first, b, [Sample(passed)], c);
    RunJoins(y, [Begin] + first + [Sample(passed)], c, second, System(t, Choosing));
    RunJoins(y, [Begin] + first + [Sample(passed)] + second, System(t, Choosing), [Select], System(Choose(t), Running));
    es := [Begin] + first + [Sample(passed)] + second + [Select];
  }
}
