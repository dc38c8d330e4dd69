/** The blocking protocol of queue.c for one queue that is in no set: tasks that send, receive and peek,
    interrupts that post and take at any point, and the lock that defers the interrupts' wake-ups. */
module QueueProtocol {
  import opened EventLists
  import opened QueueState
  import opened Wrappers

  datatype Op = Send(item: Item, place: Place) | Receive | Peek

  /** What a task does once it has unlocked the queue. */
  datatype Then = Sleep | Again | GiveUp

  /** Where a task is in xQueueGenericSend, xQueueReceive, xQueueSemaphoreTake or xQueuePeek. */
  datatype Pc =
    | Idle
    | Top(op: Op, wait: bool)           // about to enter the critical section of the loop
    | Entering(op: Op)                  // found nothing to do; about to suspend the scheduler and lock
    | Checking(op: Op)                  // locked; about to look at the time and at the queue again
    | Placing(op: Op)                   // about to place itself on the event list
    | UnlockingTx(op: Op, next: Then)
    | UnlockingRx(op: Op, next: Then)
    | Blocked(op: Op)
    | LastLook(op: Op)                  // timed out and unlocked; about to test for emptiness once more

  datatype System = System(
    q: Queue,
    tasks: nat,                         // uxTaskGetNumberOfTasks
    pc: map<Task, Pc>,
    holder: Option<Task>,               // who has suspended the scheduler and locked the queue
    wokenSend: set<Task>,               // woken, but not yet through the top of the loop again
    wokenReceive: set<Task>
  )

  datatype Event =
    | Call(t: Task, op: Op, wait: bool)
    | Enter(t: Task)
    | TakeLock(t: Task)
    | Check(t: Task, timedOut: bool)
    | PlaceOnList(t: Task, value: nat)
    | UnlockTx(t: Task)
    | UnlockRx(t: Task)
    | Look(t: Task)
    | Wake(t: Task)
    | TimeOut(t: Task)
    | PostFromIsr(item: Item, place: Place)
    | TakeFromIsr

  ghost function Owners(list: seq<Entry<Task>>): set<Task> {
    set i | 0 <= i < |list| :: list[i].owner
  }

  predicate Holding(p: Pc) {
    p.Checking? || p.Placing? || p.UnlockingTx? || p.UnlockingRx?
  }

  /** On an event list, or about to find that it was woken already. */
  predicate Asleep(p: Pc) {
    p.Blocked? || ((p.UnlockingTx? || p.UnlockingRx?) && p.next.Sleep?)
  }

  /** One of the two event lists, and what its waiters wait for: free places, or items. */
  function Side(q: Queue, senders: bool): Waiters {
    if senders then q.senders else q.receivers
  }

  function Woken(s: System, senders: bool): set<Task> {
    if senders then s.wokenSend else s.wokenReceive
  }

  function Offered(q: Queue, senders: bool): int {
    if senders then q.length - |q.items| else |q.items|
  }

  /** Nothing to do for this operation: full for a sender, empty for the others. */
  predicate Stuck(q: Queue, op: Op) {
    match op
    case Send(_, place) => !Accepts(q, place)
    case _ => q.items == []
  }

  function Done(q: Queue, op: Op): Queue
    requires !Stuck(q, op)
  {
    match op
    case Send(item, place) => TaskSend(q, item, place)
    case Receive => TaskReceive(q)
    case Peek => TaskPeek(q)
  }

  predicate MayRun(s: System, t: Task) {
    t in s.pc && (s.holder.None? || s.holder.value == t)
  }

  ghost predicate Enabled(s: System, e: Event) {
    match e
    case Call(t, op, _) => MayRun(s, t) && s.pc[t].Idle? && (op.Send? && op.place.Overwrite? ==> s.q.length == 1)
    case Enter(t) => MayRun(s, t) && s.pc[t].Top?
    case TakeLock(t) => MayRun(s, t) && s.pc[t].Entering?
    case Check(t, _) => MayRun(s, t) && s.pc[t].Checking?
    case PlaceOnList(t, _) => MayRun(s, t) && s.pc[t].Placing?
    case UnlockTx(t) => MayRun(s, t) && s.pc[t].UnlockingTx?
    case UnlockRx(t) => MayRun(s, t) && s.pc[t].UnlockingRx?
    case Look(t) => MayRun(s, t) && s.pc[t].LastLook?
    case Wake(t) => MayRun(s, t) && s.pc[t].Blocked? && t in Woken(s, s.pc[t].op.Send?)
    case TimeOut(t) => MayRun(s, t) && s.holder.None? && s.pc[t].Blocked?
        && t in Owners(Side(s.q, s.pc[t].op.Send?).list)
    case PostFromIsr(_, place) => Accepts(s.q, place) && (place.Overwrite? ==> s.q.length == 1)
    case TakeFromIsr => s.q.items != []
  }

  /** The queue after an event. */
  ghost function NextQueue(s: System, e: Event): Queue
    requires Enabled(s, e)
  {
    match e
    case Enter(t) => if Stuck(s.q, s.pc[t].op) then s.q else Done(s.q, s.pc[t].op)
    case TakeLock(_) => Lock(s.q)
    case PlaceOnList(t, value) =>
      if s.pc[t].op.Send? then s.q.(senders := Add(s.q.senders, Entry(value, t)))
      else s.q.(receivers := Add(s.q.receivers, Entry(value, t)))
    case UnlockTx(_) => s.q.(receivers := UnlockOne(s.q.receivers))
    case UnlockRx(_) => s.q.(senders := UnlockOne(s.q.senders))
    case TimeOut(t) => s.q.(senders := Left(s.q.senders, t), receivers := Left(s.q.receivers, t))
    case PostFromIsr(item, place) => IsrSend(s.q, item, place, s.tasks)
    case TakeFromIsr => IsrReceive(s.q, s.tasks)
    case _ => s.q
  }

  /** The kernel takes a task whose time has run out off the list. */
  function Left(w: Waiters, t: Task): Waiters {
    w.(list := Without(w.list, t))
  }

  predicate ByTask(e: Event) {
    !e.PostFromIsr? && !e.TakeFromIsr?
  }

  /** Where a task goes next. */
  ghost function NextPc(s: System, e: Event): Pc
    requires Enabled(s, e) && ByTask(e)
  {
    var p := s.pc[e.t];
    match e
    case Call(_, op, wait) => Top(op, wait)
    case Enter(_) => if Stuck(s.q, p.op) && p.wait then Entering(p.op) else Idle
    case TakeLock(_) => Checking(p.op)
    case Check(_, timedOut) =>
      if timedOut then UnlockingTx(p.op, GiveUp)
      else if Stuck(s.q, p.op) then Placing(p.op)
      else UnlockingTx(p.op, Again)
    case PlaceOnList(_, _) => UnlockingTx(p.op, Sleep)
    case UnlockTx(_) => UnlockingRx(p.op, p.next)
    case UnlockRx(_) =>
      (match p.next
       case Sleep => Blocked(p.op)
       case Again => Top(p.op, true)
       case GiveUp => if p.op.Send? then Idle else LastLook(p.op))
    case Look(_) => if Stuck(s.q, p.op) then Idle else Top(p.op, false)
    case Wake(_) => Top(p.op, true)
    case TimeOut(_) => Top(p.op, true)
  }

  ghost function Step(s: System, e: Event): System
    requires Enabled(s, e)
  {
    var q := NextQueue(s, e);
    System(q, s.tasks,
           if ByTask(e) then s.pc[e.t := NextPc(s, e)] else s.pc,
           if e.TakeLock? then Some(e.t) else if e.UnlockRx? then None else s.holder,
           NextWoken(s, e, true), NextWoken(s, e, false))
  }

  /** Those taken off the list were woken, unless their time ran out; the top of the loop settles it. */
  ghost function NextWoken(s: System, e: Event, senders: bool): set<Task>
    requires Enabled(s, e)
  {
    var through := if e.Enter? then {e.t} else {};
    var timedOut := if e.TimeOut? then {e.t} else {};
    Woken(s, senders) - through
    + (Owners(Side(s.q, senders).list) - Owners(Side(NextQueue(s, e), senders).list) - timedOut)
  }

  // ---------------------------------------------------------------- the invariant

  /** A task that can wait on this list; an overwriting send never waits. */
  predicate Belongs(p: Pc, senders: bool) {
    !p.Idle? && p.op.Send? == senders && !(p.op.Send? && p.op.place.Overwrite?)
  }

  /** Nobody is left waiting for something nobody was woken for: all that is on offer is spoken for by tasks
      already woken and by wake-ups the unlock will still do, or the unlock will wake everybody. */
  ghost predicate Served(w: Waiters, woken: set<Task>, offered: int) {
    w.list == [] || offered <= |woken| + Deferred(w.lock) || w.lock >= |w.list|
  }

  ghost predicate SideOk(w: Waiters, woken: set<Task>, pc: map<Task, Pc>, senders: bool) {
    && DistinctOwners(w.list) && Sorted(w.list) && w.lock >= UNLOCKED && Owners(w.list) !! woken
    && (forall t :: t in Owners(w.list) ==> t in pc && Asleep(pc[t]) && Belongs(pc[t], senders))
    && (forall t :: t in woken ==> t in pc && Belongs(pc[t], senders) && (Asleep(pc[t]) || (pc[t].Top? && pc[t].wait)))
    && (forall t :: t in pc && Asleep(pc[t]) && pc[t].op.Send? == senders ==> t in Owners(w.list) || t in woken)
  }

  ghost predicate SideInv(s: System, senders: bool) {
    && SideOk(Side(s.q, senders), Woken(s, senders), s.pc, senders)
    && Served(Side(s.q, senders), Woken(s, senders), Offered(s.q, senders))
  }

  /** Only the holder of the lock is between lock and unlock. */
  ghost predicate LockOk(s: System) {
    && (forall t :: t in s.pc && Holding(s.pc[t]) ==> s.holder == Some(t))
    && (s.holder.None? ==> s.q.senders.lock == UNLOCKED && s.q.receivers.lock == UNLOCKED)
    && (s.holder.Some? ==>
          && s.holder.value in s.pc && Holding(s.pc[s.holder.value]) && s.q.senders.lock >= 0
          && (if s.pc[s.holder.value].UnlockingRx? then s.q.receivers.lock == UNLOCKED else s.q.receivers.lock >= 0)
          && PlacingOk(s, s.pc[s.holder.value]))
  }

  /** A task about to place itself has seen nothing on offer since it took the lock, but for what the lock
      count remembers. */
  ghost predicate PlacingOk(s: System, p: Pc) {
    p.Placing? ==>
      var senders := p.op.Send?; var lock := Side(s.q, senders).lock;
      Belongs(p, senders) && (Offered(s.q, senders) <= lock || lock >= s.tasks)
  }

  ghost predicate Inv(s: System) {
    && |s.pc.Keys| <= s.tasks && 0 < s.q.length && |s.q.items| <= s.q.length
    && LockOk(s) && SideInv(s, true) && SideInv(s, false)
  }

  // ---------------------------------------------------------------- lists

  lemma OwnersHead(list: seq<Entry<Task>>)
    requires list != [] && DistinctOwners(list)
    ensures Owners(list) == Owners(list[1..]) + {list[0].owner} && list[0].owner !in Owners(list[1..])
    ensures DistinctOwners(list[1..])
  {
    forall t | t in Owners(list) ensures t in Owners(list[1..]) + {list[0].owner} {
      var i: nat :| i < |list| && list[i].owner == t;
      if i > 0 { assert list[1..][i - 1].owner == t; }
    }
    forall i | 0 <= i < |list[1..]| ensures list[1..][i].owner in Owners(list) && list[1..][i].owner != list[0].owner {
      assert list[i + 1].owner == list[1..][i].owner;
    }
  }

  /** Taking the first waiters off a list. */
  lemma {:induction false} DropOwners(list: seq<Entry<Task>>, k: nat)
    requires DistinctOwners(list) && k <= |list|
    ensures DistinctOwners(list[k..]) && Owners(list[k..]) <= Owners(list)
    ensures |Owners(list) - Owners(list[k..])| == k
    decreases k
  {
    hide Owners, DistinctOwners;
    if k == 0 {
      assert list[0..] == list;
    } else {
      DropOwners(list, k - 1);
      var rest := list[k - 1..];
      assert list[k..] == rest[1..];
      OwnersHead(rest);
      assert Owners(list) - Owners(list[k..]) == (Owners(list) - Owners(rest)) + {rest[0].owner};
    }
  }

  /** No list is longer than there are tasks. */
  lemma ListFits(list: seq<Entry<Task>>, ts: set<Task>)
    requires DistinctOwners(list) && Owners(list) <= ts
    ensures |list| <= |ts|
  {
    DropOwners(list, |list|);
    assert list[|list|..] == [];
    assert Owners([]) == {};
    Subset(Owners(list), ts);
  }

  lemma {:induction false} Subset<T>(a: set<T>, b: set<T>)
    requires a <= b
    ensures |a| <= |b|
  {
    assert b == a + (b - a);
  }

  // ---------------------------------------------------------------- one side

  /** Taking waiters off the front and counting them as woken. */
  lemma Dropped(w: Waiters, woken: set<Task>, pc: map<Task, Pc>, senders: bool, k: nat, w': Waiters)
    requires SideOk(w, woken, pc, senders) && k <= |w.list| && w'.list == w.list[k..] && w'.lock >= UNLOCKED
    ensures var woken' := woken + (Owners(w.list) - Owners(w'.list));
            SideOk(w', woken', pc, senders) && |woken'| == |woken| + k
  {
    DropOwners(w.list, k);
    StaysSorted(w.list, k);
  }

  lemma StaysSorted(list: seq<Entry<Task>>, k: nat)
    requires Sorted(list) && k <= |list|
    ensures Sorted(list[k..])
  {
  }

  lemma WakeOneServed(w: Waiters, woken: set<Task>, pc: map<Task, Pc>, senders: bool, offered: int, more: int)
    requires SideOk(w, woken, pc, senders) && Served(w, woken, offered) && more <= offered + 1
    ensures var woken' := woken + (Owners(w.list) - Owners(WakeOne(w).list));
            SideOk(WakeOne(w), woken', pc, senders) && Served(WakeOne(w), woken', more)
  {
    Dropped(w, woken, pc, senders, if w.list == [] then 0 else 1, WakeOne(w));
  }

  lemma NotifyServed(w: Waiters, woken: set<Task>, pc: map<Task, Pc>, senders: bool, offered: int, more: int,
        tasks: nat)
    requires SideOk(w, woken, pc, senders) && Served(w, woken, offered) && more <= offered + 1 && |pc.Keys| <= tasks
    ensures var w' := Notify(w, tasks); var woken' := woken + (Owners(w.list) - Owners(w'.list));
            SideOk(w', woken', pc, senders) && Served(w', woken', more)
  {
    if w.lock == UNLOCKED {
      WakeOneServed(w, woken, pc, senders, offered, more);
    } else {
      ListFits(w.list, pc.Keys);
      assert woken + (Owners(w.list) - Owners(w.list)) == woken;
    }
  }

  lemma UnlockServed(w: Waiters, woken: set<Task>, pc: map<Task, Pc>, senders: bool, offered: int)
    requires SideOk(w, woken, pc, senders) && Served(w, woken, offered)
    ensures var w' := UnlockOne(w); var woken' := woken + (Owners(w.list) - Owners(w'.list));
            SideOk(w', woken', pc, senders) && Served(w', woken', offered)
  {
    Dropped(w, woken, pc, senders, Released(w), UnlockOne(w));
  }

  /** A task moves on, and the lists stay. */
  lemma PcMoved(w: Waiters, woken: set<Task>, pc: map<Task, Pc>, senders: bool, t: Task, p: Pc)
    requires SideOk(w, woken, pc, senders) && t in pc
    requires t in Owners(w.list) ==> Asleep(p) && Belongs(p, senders)
    requires t in woken ==> Belongs(p, senders) && (Asleep(p) || (p.Top? && p.wait))
    requires Asleep(p) && p.op.Send? == senders ==> t in Owners(w.list) || t in woken
    ensures SideOk(w, woken, pc[t := p], senders)
  {
    hide Owners, DistinctOwners;
  }

  /** A task that is neither waiting nor woken moves on without going to sleep. */
  lemma AwakeMoved(w: Waiters, woken: set<Task>, pc: map<Task, Pc>, senders: bool, t: Task, p: Pc)
    requires SideOk(w, woken, pc, senders) && t in pc && !Asleep(pc[t]) && !pc[t].Top? && !Asleep(p)
    ensures SideOk(w, woken, pc[t := p], senders)
  {
    hide Owners, DistinctOwners;
    PcMoved(w, woken, pc, senders, t, p);
  }

  /** A waiting task goes on waiting, or a woken one goes back to the top. */
  lemma AsleepMoved(w: Waiters, woken: set<Task>, pc: map<Task, Pc>, senders: bool, t: Task, p: Pc)
    requires SideOk(w, woken, pc, senders) && t in pc && Asleep(pc[t]) && !p.Idle? && p.op == pc[t].op
    requires Asleep(p) || (p.Top? && p.wait && (p.op.Send? == senders ==> t in woken))
    ensures SideOk(w, woken, pc[t := p], senders)
  {
    hide Owners, DistinctOwners;
    PcMoved(w, woken, pc, senders, t, p);
  }

  /** Taking nothing off the list wakes nobody. */
  lemma SameWoken(s: System, e: Event, senders: bool)
    requires Enabled(s, e) && !e.Enter? && Side(NextQueue(s, e), senders).list == Side(s.q, senders).list
    ensures NextWoken(s, e, senders) == Woken(s, senders)
  {
  }

  lemma SideFacts(s: System, senders: bool)
    requires Inv(s)
    ensures SideOk(Side(s.q, senders), Woken(s, senders), s.pc, senders)
    ensures Served(Side(s.q, senders), Woken(s, senders), Offered(s.q, senders))
    ensures |s.pc.Keys| <= s.tasks && Side(s.q, senders).lock >= UNLOCKED && 0 < s.q.length && |s.q.items| <= s.q.length
    ensures LockOk(s)
  {
    hide LockOk, Owners, DistinctOwners;
  }

  lemma PlainStep(s: System, e: Event, senders: bool)
    requires Inv(s) && Enabled(s, e) && (e.Call? || e.TakeLock? || e.Check? || e.Look? || e.Wake?)
    ensures SideInv(Step(s, e), senders)
  {
    hide Inv, SideOk, Owners, LockOk, Served;
    SideFacts(s, senders);
    SameWoken(s, e, senders);
    var w, w' := Side(s.q, senders), Side(NextQueue(s, e), senders);
    Relocked(w, Woken(s, senders), s.pc, senders, Offered(s.q, senders), w');
    if e.Wake? {
      AsleepMoved(w', Woken(s, senders), s.pc, senders, e.t, NextPc(s, e));
    } else {
      AwakeMoved(w', Woken(s, senders), s.pc, senders, e.t, NextPc(s, e));
    }
  }

  lemma Relocked(w: Waiters, woken: set<Task>, pc: map<Task, Pc>, senders: bool, offered: int, w': Waiters)
    requires SideOk(w, woken, pc, senders) && Served(w, woken, offered) && (w' == w || w' == LockOne(w))
    ensures SideOk(w', woken, pc, senders) && Served(w', woken, offered)
  {
  }

  lemma UnlockStep(s: System, e: Event, senders: bool)
    requires Inv(s) && Enabled(s, e) && (e.UnlockTx? || e.UnlockRx?)
    ensures SideInv(Step(s, e), senders)
  {
    hide Inv, SideOk, Owners, LockOk, Served, UnlockOne;
    SideFacts(s, senders);
    var w, woken := Side(s.q, senders), Woken(s, senders);
    var w', woken' := Side(NextQueue(s, e), senders), NextWoken(s, e, senders);
    if e.UnlockRx? == senders {
      UnlockServed(w, woken, s.pc, senders, Offered(s.q, senders));
      assert woken' == woken + (Owners(w.list) - Owners(w'.list));
    } else {
      SameWoken(s, e, senders);
    }
    if Asleep(s.pc[e.t]) {
      AsleepMoved(w', woken', s.pc, senders, e.t, NextPc(s, e));
    } else {
      AwakeMoved(w', woken', s.pc, senders, e.t, NextPc(s, e));
    }
  }

  /** A task that found nothing on offer joins the list. */
  lemma Added(w: Waiters, woken: set<Task>, pc: map<Task, Pc>, senders: bool, offered: int, t: Task, value: nat, p: Pc,
        tasks: nat)
    requires SideOk(w, woken, pc, senders) && t in pc && !Asleep(pc[t]) && !pc[t].Top? && |pc.Keys| <= tasks
    requires Asleep(p) && Belongs(p, senders)
    requires offered <= w.lock || w.lock >= tasks
    ensures SideOk(Add(w, Entry(value, t)), woken, pc[t := p], senders)
    ensures Served(Add(w, Entry(value, t)), woken, offered)
  {
    hide DistinctOwners, Sorted, Owners, SortedInsert;
    var w' := Add(w, Entry(value, t));
    AddedOwners(w.list, Entry(value, t));
    InsertKeepsOrder(w.list, Entry(value, t));
    ListFits(w'.list, pc.Keys);
  }

  lemma AddedOwners(list: seq<Entry<Task>>, e: Entry<Task>)
    requires DistinctOwners(list) && e.owner !in Owners(list)
    ensures DistinctOwners(SortedInsert(list, e)) && Owners(SortedInsert(list, e)) == Owners(list) + {e.owner}
  {
    assert !Holds(list, e.owner);
    InsertDistinct(list, e);
    forall t ensures t in Owners(SortedInsert(list, e)) <==> t in Owners(list) + {e.owner} {
      InsertOwners(list, e, t);
      assert t in Owners(list) <==> Holds(list, t);
      assert t in Owners(SortedInsert(list, e)) <==> Holds(SortedInsert(list, e), t);
    }
  }

  lemma LeftOwners(list: seq<Entry<Task>>, x: Task)
    requires DistinctOwners(list)
    ensures DistinctOwners(Without(list, x)) && Owners(Without(list, x)) == Owners(list) - {x}
    ensures |Without(list, x)| <= |list| && (Sorted(list) ==> Sorted(Without(list, x)))
  {
    RemoveKeeps(list, x);
    forall t ensures t in Owners(Without(list, x)) <==> t in Owners(list) - {x} {
      RemoveOwners(list, x, t);
      assert t in Owners(list) <==> Holds(list, t);
      assert t in Owners(Without(list, x)) <==> Holds(Without(list, x), t);
    }
  }

  lemma PlaceStep(s: System, e: Event, senders: bool)
    requires Inv(s) && Enabled(s, e) && e.PlaceOnList?
    ensures SideInv(Step(s, e), senders)
  {
    hide Inv, SideOk, Owners, Served, Add, DistinctOwners;
    SideFacts(s, senders);
    var w, woken := Side(s.q, senders), Woken(s, senders);
    var w', woken' := Side(NextQueue(s, e), senders), NextWoken(s, e, senders);
    if s.pc[e.t].op.Send? == senders {
      Added(w, woken, s.pc, senders, Offered(s.q, senders), e.t, e.value, NextPc(s, e), s.tasks);
      NoneTaken(s, e, senders);
    } else {
      SameWoken(s, e, senders);
      assert SideOk(w, woken, s.pc[e.t := NextPc(s, e)], senders) by {
        OtherSide(w, woken, s.pc, senders, e.t, NextPc(s, e));
      }
    }
  }

  /** What a task does on its own list does not concern the other. */
  lemma OtherSide(w: Waiters, woken: set<Task>, pc: map<Task, Pc>, senders: bool, t: Task, p: Pc)
    requires SideOk(w, woken, pc, senders) && t in pc && !pc[t].Idle? && !p.Idle? && pc[t].op == p.op
             && p.op.Send? != senders
    ensures SideOk(w, woken, pc[t := p], senders)
  {
    hide Owners, DistinctOwners;
    PcMoved(w, woken, pc, senders, t, p);
  }

  lemma NoneTaken(s: System, e: Event, senders: bool)
    requires Inv(s) && Enabled(s, e) && e.PlaceOnList?
    ensures NextWoken(s, e, senders) == Woken(s, senders)
  {
    hide LockOk, Served;
    var w := Side(s.q, senders);
    if s.pc[e.t].op.Send? == senders {
      assert e.t !in Owners(w.list);
      AddedOwners(w.list, Entry(e.value, e.t));
    }
  }

  /** A task whose time has run out leaves the list unwoken. */
  lemma Leaving(w: Waiters, woken: set<Task>, pc: map<Task, Pc>, senders: bool, offered: int, t: Task, p: Pc)
    requires SideOk(w, woken, pc, senders) && Served(w, woken, offered) && t in Owners(w.list) && !Asleep(p)
    ensures SideOk(Left(w, t), woken, pc[t := p], senders) && Served(Left(w, t), woken, offered)
  {
    hide DistinctOwners, Owners, Sorted;
    LeftOwners(w.list, t);
  }

  lemma TimeOutStep(s: System, e: Event, senders: bool)
    requires Inv(s) && Enabled(s, e) && e.TimeOut?
    ensures SideInv(Step(s, e), senders)
  {
    hide Inv, Owners, LockOk, SideOk, Served;
    SideFacts(s, senders);
    var w, woken := Side(s.q, senders), Woken(s, senders);
    assert NextWoken(s, e, senders) == woken by { OnlyLeft(s, e, senders); }
    if s.pc[e.t].op.Send? == senders {
      Leaving(w, woken, s.pc, senders, Offered(s.q, senders), e.t, NextPc(s, e));
    } else {
      NotListed(s, senders, e.t);
      OtherSide(w, woken, s.pc, senders, e.t, NextPc(s, e));
    }
  }

  /** A task waits on one list only. */
  lemma NotListed(s: System, senders: bool, t: Task)
    requires Inv(s) && t in s.pc && !s.pc[t].Idle? && s.pc[t].op.Send? != senders
    ensures Left(Side(s.q, senders), t) == Side(s.q, senders)
  {
    hide LockOk, Served;
    assert t !in Owners(Side(s.q, senders).list);
    NothingToLeave(Side(s.q, senders).list, t);
  }

  lemma NothingToLeave(list: seq<Entry<Task>>, t: Task)
    requires t !in Owners(list)
    ensures Without(list, t) == list
  {
    forall i | 0 <= i < |list| ensures list[i].owner in Owners(list) {
    }
    FindUnique(list, t, |list|);
  }

  lemma OnlyLeft(s: System, e: Event, senders: bool)
    requires Inv(s) && Enabled(s, e) && e.TimeOut?
    ensures NextWoken(s, e, senders) == Woken(s, senders)
  {
    hide LockOk, Served;
    var list := Side(s.q, senders).list;
    LeftOwners(list, e.t);
  }

  lemma IsrStep(s: System, e: Event, senders: bool)
    requires Inv(s) && Enabled(s, e) && (e.PostFromIsr? || e.TakeFromIsr?)
    ensures SideInv(Step(s, e), senders)
  {
    hide Inv, SideOk, Owners, LockOk, Served, Notify;
    SideFacts(s, senders);
    var w, woken := Side(s.q, senders), Woken(s, senders);
    if e.TakeFromIsr? == senders {
      NotifyServed(w, woken, s.pc, senders, Offered(s.q, senders), Offered(NextQueue(s, e), senders), s.tasks);
    } else {
      SameWoken(s, e, senders);
      LessOffered(w, woken, Offered(s.q, senders), Offered(NextQueue(s, e), senders));
    }
    assert NextWoken(s, e, senders) == woken + (Owners(w.list) - Owners(Side(NextQueue(s, e), senders).list));
  }

  lemma LessOffered(w: Waiters, woken: set<Task>, offered: int, less: int)
    requires Served(w, woken, offered) && less <= offered
    ensures Served(w, woken, less)
  {
  }

  /** A task goes through the top of the loop: it takes one of what is on offer, if there is any. */
  lemma ThroughTop(w: Waiters, woken: set<Task>, pc: map<Task, Pc>, senders: bool, offered: int, t: Task, p: Pc,
        left: int)
    requires SideOk(w, woken, pc, senders) && Served(w, woken, offered) && t in pc && pc[t].Top? && !Asleep(p)
    requires left <= 0 || left <= offered - 1 || (left <= offered && !Belongs(pc[t], senders))
    ensures SideOk(w, woken - {t}, pc[t := p], senders) && Served(w, woken - {t}, left)
  {
    hide DistinctOwners, Owners;
    if t !in woken {
      assert woken - {t} == woken;
    }
  }

  lemma EnterStep(s: System, e: Event, senders: bool)
    requires Inv(s) && Enabled(s, e) && e.Enter?
    ensures SideInv(Step(s, e), senders)
  {
    hide Inv, SideOk, Owners, LockOk, Served, WakeOne;
    SideFacts(s, senders);
    var w, woken, op := Side(s.q, senders), Woken(s, senders), s.pc[e.t].op;
    var offered, q' := Offered(s.q, senders), NextQueue(s, e);
    var more := Offered(q', senders);
    var p, pc' := NextPc(s, e), s.pc[e.t := NextPc(s, e)];
    assert !Asleep(p);
    var wakes := !Stuck(s.q, op) && (if senders then op.Receive? else !op.Receive?);
    ThroughTop(w, woken, s.pc, senders, offered, e.t, p,
               if op.Peek? && wakes then offered - 1 else if wakes then offered else more);
    if wakes {
      WakeOneServed(w, woken - {e.t}, pc', senders, if op.Peek? then offered - 1 else offered, more);
    } else {
      assert Side(q', senders) == w;
      assert woken - {e.t} + (Owners(w.list) - Owners(w.list)) == woken - {e.t};
    }
    assert NextWoken(s, e, senders) == woken - {e.t} + (Owners(w.list) - Owners(Side(q', senders).list));
  }

  // ---------------------------------------------------------------- the lock

  /** Outside the lock nothing an event does concerns the holder. */
  lemma LockStep(s: System, e: Event)
    requires Inv(s) && Enabled(s, e)
    ensures LockOk(Step(s, e))
  {
    hide Inv, SideOk, Served, Owners, NextWoken, Done, PlacingOk, UnlockOne, Stored, Add, Left;
    SideFacts(s, true);
    SideFacts(s, false);
    if ByTask(e) {
      TaskLock(s, e);
    } else {
      IsrLock(s, e);
    }
  }

  lemma TaskLock(s: System, e: Event)
    requires Inv(s) && Enabled(s, e) && ByTask(e)
    ensures LockOk(Step(s, e))
  {
    hide Inv, SideOk, Served, Owners, NextWoken, Stored, Without, SortedInsert;
    SideFacts(s, true);
    SideFacts(s, false);
  }

  lemma IsrLock(s: System, e: Event)
    requires Inv(s) && Enabled(s, e) && !ByTask(e)
    ensures LockOk(Step(s, e))
  {
    hide Inv, SideOk, Served, Owners, NextWoken;
    SideFacts(s, true);
    SideFacts(s, false);
  }

  lemma BoundsStep(s: System, e: Event)
    requires Inv(s) && Enabled(s, e)
    ensures var t := Step(s, e); |t.pc.Keys| <= t.tasks && 0 < t.q.length && |t.q.items| <= t.q.length
  {
    hide Inv, SideOk, Served, Owners, NextWoken, LockOk, NextPc, WakeOne, Notify, UnlockOne, Add, Left;
    SideFacts(s, true);
    assert ByTask(e) ==> s.pc[e.t := NextPc(s, e)].Keys == s.pc.Keys;
  }

  lemma StepInv(s: System, e: Event)
    requires Inv(s) && Enabled(s, e)
    ensures Inv(Step(s, e))
  {
    hide Step, SideInv, LockOk;
    BoundsStep(s, e);
    LockStep(s, e);
    SideStep(s, e, true);
    SideStep(s, e, false);
  }

  lemma SideStep(s: System, e: Event, senders: bool)
    requires Inv(s) && Enabled(s, e)
    ensures SideInv(Step(s, e), senders)
  {
    hide Inv, Step, SideInv;
    match e
    case Enter(_) => EnterStep(s, e, senders);
    case PlaceOnList(_, _) => PlaceStep(s, e, senders);
    case UnlockTx(_) => UnlockStep(s, e, senders);
    case UnlockRx(_) => UnlockStep(s, e, senders);
    case TimeOut(_) => TimeOutStep(s, e, senders);
    case PostFromIsr(_, _) => IsrStep(s, e, senders);
    case TakeFromIsr => IsrStep(s, e, senders);
    case _ => PlainStep(s, e, senders);
  }

  // ---------------------------------------------------------------- whole runs

  ghost predicate Initial(s: System) {
    && |s.pc.Keys| <= s.tasks && 0 < s.q.length && s.q.items == []
    && s.q.senders == Waiters([], UNLOCKED) && s.q.receivers == Waiters([], UNLOCKED)
    && s.holder == None && s.wokenSend == {} && s.wokenReceive == {}
    && (forall t :: t in s.pc ==> s.pc[t] == Idle)
  }

  lemma InitialInv(s: System)
    requires Initial(s)
    ensures Inv(s)
  {
  }

  ghost predicate Run(s: System, es: seq<Event>, t: System)
    decreases |es|
  {
    if es == [] then t == s else Enabled(s, es[0]) && Run(Step(s, es[0]), es[1..], t)
  }

  lemma {:induction false} RunInv(s: System, es: seq<Event>, t: System)
    requires Inv(s) && Run(s, es, t)
    ensures Inv(t)
    decreases |es|
  {
    if es != [] {
      StepInv(s, es[0]);
      RunInv(Step(s, es[0]), es[1..], t);
    }
  }

  /** No lost wake-up: in every interleaving, once the queue is unlocked, a receiver is left on the event
      list only if a woken receiver is still to come for every item there is, and a sender only if a woken
      sender is still to come for every free place; and everybody who sleeps is on a list or was woken. */
  lemma NoLostWakeUp(s: System, es: seq<Event>, t: System)
    requires Initial(s) && Run(s, es, t) && t.holder.None?
    ensures t.q.receivers.list != [] ==> |t.q.items| <= |t.wokenReceive|
    ensures t.q.senders.list != [] ==> t.q.length - |t.q.items| <= |t.wokenSend|
    ensures forall x :: x in t.wokenReceive || x in t.wokenSend ==> Enabled(t, Wake(x)) || Enabled(t, Enter(x))
    ensures forall x :: x in t.pc && t.pc[x].Blocked? ==> Enabled(t, Wake(x)) || Enabled(t, TimeOut(x))
  {
    hide Inv, Owners, DistinctOwners, SideOk, LockOk, Step, Initial, Enabled;
    InitialInv(s);
    RunInv(s, es, t);
    SideFacts(t, true);
    SideFacts(t, false);
    assert t.q.senders.lock == UNLOCKED && t.q.receivers.lock == UNLOCKED by { LockFree(t); }
    forall x | x in t.wokenReceive || x in t.wokenSend ensures Enabled(t, Wake(x)) || Enabled(t, Enter(x)) {
      WokenComes(t, x, x in t.wokenSend);
    }
    forall x | x in t.pc && t.pc[x].Blocked? ensures Enabled(t, Wake(x)) || Enabled(t, TimeOut(x)) {
      BlockedOrWoken(t, x);
    }
  }

  lemma LockFree(s: System)
    requires LockOk(s) && s.holder.None?
    ensures s.q.senders.lock == UNLOCKED && s.q.receivers.lock == UNLOCKED
  {
  }

  lemma WokenComes(s: System, x: Task, senders: bool)
    requires Inv(s) && s.holder.None? && x in Woken(s, senders)
    ensures Enabled(s, Wake(x)) || Enabled(s, Enter(x))
  {
    hide Inv, Owners, DistinctOwners, Served, PlacingOk;
    SideFacts(s, senders);
  }

  lemma BlockedOrWoken(s: System, x: Task)
    requires Inv(s) && s.holder.None? && x in s.pc && s.pc[x].Blocked?
    ensures Enabled(s, Wake(x)) || Enabled(s, TimeOut(x))
  {
    hide Inv, Owners, DistinctOwners, Served, LockOk;
    SideFacts(s, s.pc[x].op.Send?);
  }

  /** The task woken next is one of the highest priority that waits: the event lists stay in that order. */
  lemma UrgentFirst(s: System, es: seq<Event>, t: System, senders: bool, i: nat)
    requires Initial(s) && Run(s, es, t) && i < |Side(t.q, senders).list|
    ensures Side(t.q, senders).list[0].value <= Side(t.q, senders).list[i].value
  {
    hide Inv, Initial, Owners, DistinctOwners;
    InitialInv(s);
    RunInv(s, es, t);
    SideFacts(t, senders);
  }

  // ---------------------------------------------------------------- the data

  /** What an event puts into the queue, and what it takes out. */
  function Posted(s: System, e: Event): seq<Item> {
    match e
    case PostFromIsr(item, _) => [item]
    case Enter(t) =>
      if t in s.pc && s.pc[t].Top? && s.pc[t].op.Send? && !Stuck(s.q, s.pc[t].op) then [s.pc[t].op.item] else []
    case _ => []
  }

  function Taken(s: System, e: Event): seq<Item> {
    match e
    case TakeFromIsr => if s.q.items == [] then [] else [s.q.items[0]]
    case Enter(t) => if t in s.pc && s.pc[t].Top? && s.pc[t].op.Receive? && s.q.items != [] then [s.q.items[0]] else []
    case _ => []
  }

  /** Nothing is sent to the front, or over another item. */
  predicate ToBack(s: System, e: Event) {
    match e
    case PostFromIsr(_, place) => place.Back?
    case Enter(t) => t in s.pc && s.pc[t].Top? && s.pc[t].op.Send? ==> s.pc[t].op.place.Back?
    case _ => true
  }

  ghost predicate AllToBack(s: System, es: seq<Event>)
    decreases |es|
  {
    es == [] || (ToBack(s, es[0]) && (Enabled(s, es[0]) ==> AllToBack(Step(s, es[0]), es[1..])))
  }

  ghost function AllPosted(s: System, es: seq<Event>): seq<Item>
    decreases |es|
  {
    if es == [] || !Enabled(s, es[0]) then [] else Posted(s, es[0]) + AllPosted(Step(s, es[0]), es[1..])
  }

  ghost function AllTaken(s: System, es: seq<Event>): seq<Item>
    decreases |es|
  {
    if es == [] || !Enabled(s, es[0]) then [] else Taken(s, es[0]) + AllTaken(Step(s, es[0]), es[1..])
  }

  lemma StepFifo(s: System, e: Event)
    requires Enabled(s, e) && ToBack(s, e)
    ensures s.q.items + Posted(s, e) == Taken(s, e) + Step(s, e).q.items
  {
    hide NextWoken, NextPc, WakeOne, Notify, LockOne, UnlockOne, Add, Left;
  }

  /** However tasks and interrupts interleave, what was sent to the back comes out in that order, nothing
      lost and nothing twice. */
  lemma {:induction false} FirstInFirstOut(s: System, es: seq<Event>, t: System)
    requires Run(s, es, t) && AllToBack(s, es)
    ensures s.q.items + AllPosted(s, es) == AllTaken(s, es) + t.q.items
    decreases |es|
  {
    hide Step, Posted, Taken, ToBack, Enabled;
    if es != [] {
      var u := Step(s, es[0]);
      StepFifo(s, es[0]);
      FirstInFirstOut(u, es[1..], t);
      InOrder(s.q.items, Posted(s, es[0]), AllPosted(u, es[1..]), Taken(s, es[0]), u.q.items, AllTaken(u, es[1..]),
          t.q.items);
    }
  }

  lemma InOrder(had: seq<Item>, p: seq<Item>, later: seq<Item>, g: seq<Item>, has: seq<Item>, got: seq<Item>,
        end: seq<Item>)
    requires had + p == g + has && has + later == got + end
    ensures had + (p + later) == (g + got) + end
  {
    assert had + (p + later) == (had + p) + later;
    assert (g + has) + later == g + (has + later);
    assert g + (got + end) == (g + got) + end;
  }

  /** What one call or interrupt did with the items: it stored one, took one, or looked at one. */
  datatype Access = Put(item: Item, place: Place) | Got(item: Item) | Saw(item: Item)

  function Accessed(s: System, e: Event): seq<Access> {
    match e
    case PostFromIsr(item, place) => [Put(item, place)]
    case TakeFromIsr => if s.q.items == [] then [] else [Got(s.q.items[0])]
    case Enter(t) =>
      if t !in s.pc || !s.pc[t].Top? || Stuck(s.q, s.pc[t].op) then []
      else
        (match s.pc[t].op
         case Send(item, place) => [Put(item, place)]
         case Receive => [Got(s.q.items[0])]
         case Peek => [Saw(s.q.items[0])])
    case _ => []
  }

  ghost function AllAccessed(s: System, es: seq<Event>): seq<Access>
    decreases |es|
  {
    if es == [] || !Enabled(s, es[0]) then [] else Accessed(s, es[0]) + AllAccessed(Step(s, es[0]), es[1..])
  }

  /** A history of a double-ended queue with room for `length` items: it begins with `items` and ends with `end`;
      only the first item is ever taken, looked at or overwritten. */
  ghost predicate Deque(items: seq<Item>, length: nat, h: seq<Access>, end: seq<Item>)
    decreases |h|
  {
    if h == [] then end == items
    else
      match h[0]
      case Put(item, Back) => |items| < length && Deque(items + [item], length, h[1..], end)
      case Put(item, Front) => |items| < length && Deque([item] + items, length, h[1..], end)
      case Put(item, Overwrite) => Deque([item] + if items == [] then [] else items[1..], length, h[1..], end)
      case Got(item) => items != [] && item == items[0] && Deque(items[1..], length, h[1..], end)
      case Saw(item) => items != [] && item == items[0] && Deque(items, length, h[1..], end)
  }

  /** What a single access makes of the items. */
  ghost predicate Made(items: seq<Item>, length: nat, a: Access, after: seq<Item>) {
    match a
    case Put(item, Back) => |items| < length && after == items + [item]
    case Put(item, Front) => |items| < length && after == [item] + items
    case Put(item, Overwrite) => after == [item] + if items == [] then [] else items[1..]
    case Got(item) => items != [] && item == items[0] && after == items[1..]
    case Saw(item) => items != [] && item == items[0] && after == items
  }

  lemma StepDeque(s: System, e: Event)
    requires Enabled(s, e)
    ensures var h, u := Accessed(s, e), Step(s, e);
            && u.q.length == s.q.length && |h| <= 1 && (h == [] ==> u.q.items == s.q.items)
            && (h != [] ==> Made(s.q.items, s.q.length, h[0], u.q.items))
  {
    hide NextWoken, NextPc, WakeOne, Notify, LockOne, UnlockOne, Add, Left;
    assert s.q.items == [] ==> forall item: Item :: [item] + s.q.items == [item];
  }

  lemma DequeGrows(items: seq<Item>, length: nat, h: seq<Access>, between: seq<Item>, rest: seq<Access>, end: seq<Item>)
    requires |h| <= 1 && (h == [] ==> between == items) && (h != [] ==> Made(items, length, h[0], between))
    requires Deque(between, length, rest, end)
    ensures Deque(items, length, h + rest, end)
  {
    if h == [] {
      assert h + rest == rest;
    } else {
      assert (h + rest)[0] == h[0] && (h + rest)[1..] == rest;
    }
  }

  /** However tasks and interrupts interleave, sending to the back, to the front and over the first item, the queue
      behaves as one double-ended queue. */
  lemma {:induction false} DoubleEnded(s: System, es: seq<Event>, t: System)
    requires Run(s, es, t)
    ensures Deque(s.q.items, s.q.length, AllAccessed(s, es), t.q.items)
    decreases |es|
  {
    if es != [] {
      var u, rest := Step(s, es[0]), AllAccessed(Step(s, es[0]), es[1..]);
      StepDeque(s, es[0]);
      DoubleEnded(u, es[1..], t);
      hide Step, Accessed, Enabled, Made, Deque;
      DequeGrows(s.q.items, s.q.length, Accessed(s, es[0]), u.q.items, rest, t.q.items);
    }
  }

  /** Accesses that leave alone whatever is `depth` items behind the first one: what is sent to the front is taken
      again, and what is sent to the back stays behind. */
  ghost predicate Nested(h: seq<Access>, depth: nat)
    decreases |h|
  {
    if h == [] then depth == 0
    else
      match h[0]
      case Put(_, Back) => Nested(h[1..], depth)
      case Put(_, Front) => Nested(h[1..], depth + 1)
      case Put(_, Overwrite) => false
      case Got(_) => depth > 0 && Nested(h[1..], depth - 1)
      case Saw(_) => Nested(h[1..], depth)
  }

  lemma {:induction false} NestedKeeps(top: seq<Item>, base: seq<Item>, length: nat, h: seq<Access>,
        rest: seq<Access>, end: seq<Item>) returns (later: seq<Item>)
    requires Deque(top + base, length, h + rest, end) && Nested(h, |top|)
    ensures base <= later && Deque(later, length, rest, end)
    decreases |h|
  {
    if h == [] {
      assert h + rest == rest && top + base == base;
      later := base;
    } else {
      assert (h + rest)[0] == h[0] && (h + rest)[1..] == h[1..] + rest;
      match h[0]
      case Put(item, Back) =>
        assert top + base + [item] == top + (base + [item]);
        later := NestedKeeps(top, base + [item], length, h[1..], rest, end);
      case Put(item, Front) =>
        assert [item] + (top + base) == ([item] + top) + base;
        later := NestedKeeps([item] + top, base, length, h[1..], rest, end);
      case Got(item) =>
        assert (top + base)[1..] == top[1..] + base;
        later := NestedKeeps(top[1..], base, length, h[1..], rest, end);
      case Saw(_) =>
        later := NestedKeeps(top, base, length, h[1..], rest, end);
    }
  }

  /** A history from some point on. */
  lemma {:induction false} DequeFrom(items: seq<Item>, length: nat, h: seq<Access>, rest: seq<Access>, end: seq<Item>)
    returns (between: seq<Item>)
    requires Deque(items, length, h + rest, end)
    ensures Deque(between, length, rest, end)
    decreases |h|
  {
    if h == [] {
      assert h + rest == rest;
      between := items;
    } else {
      assert (h + rest)[0] == h[0] && (h + rest)[1..] == h[1..] + rest;
      match h[0]
      case Put(item, Back) => between := DequeFrom(items + [item], length, h[1..], rest, end);
      case Put(item, Front) => between := DequeFrom([item] + items, length, h[1..], rest, end);
      case Put(item, Overwrite) =>
        between := DequeFrom([item] + if items == [] then [] else items[1..], length, h[1..], rest, end);
      case Got(_) => between := DequeFrom(items[1..], length, h[1..], rest, end);
      case Saw(_) => between := DequeFrom(items, length, h[1..], rest, end);
    }
  }

  /** However tasks and interrupts interleave: what is sent to the front, or over the first item, is the next that
      is taken or seen, whatever is sent to the back meanwhile and also when more is sent to the front and taken
      again in between. */
  lemma LastInFirstOut(s: System, es: seq<Event>, t: System, before: seq<Access>, item: Item, place: Place,
        between: seq<Access>, next: Access, after: seq<Access>)
    requires Run(s, es, t) && AllAccessed(s, es) == before + ([Put(item, place)] + (between + ([next] + after)))
    requires !place.Back? && Nested(between, 0) && !next.Put?
    ensures next.item == item
  {
    DoubleEnded(s, es, t);
    hide Run, AllAccessed;
    var rest := [next] + after;
    var had := DequeFrom(s.q.items, s.q.length, before, [Put(item, place)] + (between + rest), t.q.items);
    assert ([Put(item, place)] + (between + rest))[1..] == between + rest;
    var base := [item] + if place.Front? then had else if |had| == 0 then [] else had[1..];
    assert [] + base == base;
    var later := NestedKeeps([], base, s.q.length, between, rest, t.q.items);
  }

  ghost function PutIn(h: seq<Access>): multiset<Item> {
    if h == [] then multiset{} else if h[0].Put? then PutIn(h[1..]) + multiset{h[0].item} else PutIn(h[1..])
  }

  ghost function TakenOut(h: seq<Access>): multiset<Item> {
    if h == [] then multiset{} else if h[0].Got? then TakenOut(h[1..]) + multiset{h[0].item} else TakenOut(h[1..])
  }

  /** The item that is overwritten. */
  ghost function Lost(items: seq<Item>, place: Place): multiset<Item> {
    if place.Overwrite? && items != [] then multiset{items[0]} else multiset{}
  }

  /** The items that were overwritten. */
  ghost function Replaced(items: seq<Item>, h: seq<Access>): multiset<Item>
    decreases |h|
  {
    if h == [] then multiset{}
    else
      match h[0]
      case Put(item, place) =>
        Replaced(Stored(items, item, place), h[1..]) + Lost(items, place)
      case Got(_) => Replaced(if items == [] then [] else items[1..], h[1..])
      case Saw(_) => Replaced(items, h[1..])
  }

  lemma StoredItems(items: seq<Item>, item: Item, place: Place)
    ensures multiset(Stored(items, item, place)) + Lost(items, place) == multiset(items) + multiset{item}
  {
    if items != [] { assert items == [items[0]] + items[1..]; }
  }

  lemma Balance(had: multiset<Item>, has: multiset<Item>, item: multiset<Item>, lost: multiset<Item>,
                put: multiset<Item>, got: multiset<Item>, replaced: multiset<Item>, end: multiset<Item>)
    requires has + lost == had + item && has + put == got + replaced + end
    ensures had + (put + item) == got + (replaced + lost) + end
  {
    forall x: Item ensures (had + (put + item))[x] == (got + (replaced + lost) + end)[x] {
      assert (has + lost)[x] == (had + item)[x] && (has + put)[x] == (got + replaced + end)[x];
    }
  }

  lemma Taking(had: multiset<Item>, has: multiset<Item>, item: multiset<Item>,
               put: multiset<Item>, got: multiset<Item>, replaced: multiset<Item>, end: multiset<Item>)
    requires had == item + has && has + put == got + replaced + end
    ensures had + put == (got + item) + replaced + end
  {
    forall x: Item ensures (had + put)[x] == ((got + item) + replaced + end)[x] {
      assert (has + put)[x] == (got + replaced + end)[x];
    }
  }

  lemma {:induction false} HistoryConserves(items: seq<Item>, length: nat, h: seq<Access>, end: seq<Item>)
    requires Deque(items, length, h, end)
    ensures multiset(items) + PutIn(h) == TakenOut(h) + Replaced(items, h) + multiset(end)
    decreases |h|
  {
    hide Lost;
    if h != [] {
      match h[0]
      case Put(item, place) =>
        var stored, rest := Stored(items, item, place), h[1..];
        assert items == [] ==> [item] + items == [item];
        StoredItems(items, item, place);
        HistoryConserves(stored, length, rest, end);
        Balance(multiset(items), multiset(stored), multiset{item}, Lost(items, place),
                PutIn(rest), TakenOut(rest), Replaced(stored, rest), multiset(end));
      case Got(item) =>
        assert items == [item] + items[1..];
        HistoryConserves(items[1..], length, h[1..], end);
        Taking(multiset(items), multiset(items[1..]), multiset{item},
               PutIn(h[1..]), TakenOut(h[1..]), Replaced(items[1..], h[1..]), multiset(end));
      case Saw(_) => HistoryConserves(items, length, h[1..], end);
    }
  }

  /** In every run each item that was there or was stored is taken once, was overwritten, or is still there. */
  lemma NothingLost(s: System, es: seq<Event>, t: System)
    requires Run(s, es, t)
    ensures var h := AllAccessed(s, es);
            multiset(s.q.items) + PutIn(h) == TakenOut(h) + Replaced(s.q.items, h) + multiset(t.q.items)
  {
    DoubleEnded(s, es, t);
    HistoryConserves(s.q.items, s.q.length, AllAccessed(s, es), t.q.items);
  }

  // ---------------------------------------------------------------- who is woken

  /** How many waiters an event wakes: one for an item or a place that a task makes or leaves behind; none while
      the queue is locked; and at the unlock as many as were put off, or all there are. */
  lemma StepWakes(s: System, e: Event)
    requires Enabled(s, e) && e.Enter? && !Stuck(s.q, s.pc[e.t].op)
    ensures var q, z := s.q, Step(s, e).q;
            var sends := s.pc[e.t].op.Send?; var takes := s.pc[e.t].op.Receive?;
            && z.senders.lock == q.senders.lock && z.receivers.lock == q.receivers.lock
            && z.receivers.list == q.receivers.list[if takes || q.receivers.list == [] then 0 else 1..]
            && z.senders.list == q.senders.list[if !takes || q.senders.list == [] then 0 else 1..]
  {
    hide NextWoken, NextPc, Stored;
  }

  lemma IsrWakes(s: System, e: Event)
    requires Enabled(s, e) && (e.PostFromIsr? || e.TakeFromIsr?)
    ensures var w, w' := Side(s.q, e.TakeFromIsr?), Side(Step(s, e).q, e.TakeFromIsr?);
            && Side(Step(s, e).q, e.PostFromIsr?) == Side(s.q, e.PostFromIsr?)
            && (w.lock == UNLOCKED ==> w' == Waiters(w.list[if w.list == [] then 0 else 1..], UNLOCKED))
            && (w.lock != UNLOCKED ==> w' == Waiters(w.list, if w.lock < s.tasks then w.lock + 1 else w.lock))
  {
    hide NextWoken, NextPc, Stored;
  }

  lemma UnlockWakes(s: System, e: Event)
    requires Enabled(s, e) && (e.UnlockTx? || e.UnlockRx?)
    ensures var w, w' := Side(s.q, e.UnlockRx?), Side(Step(s, e).q, e.UnlockRx?);
            && Side(Step(s, e).q, e.UnlockTx?) == Side(s.q, e.UnlockTx?)
            && w'.lock == UNLOCKED
            && (w.lock <= 0 ==> w'.list == w.list)
            && (0 < w.lock < |w.list| ==> w'.list == w.list[w.lock..])
            && (w.lock > 0 && w.lock >= |w.list| ==> w'.list == [])
  {
    hide NextWoken, NextPc;
  }

  // ---------------------------------------------------------------- how a call ends

  /** In a call that may wait, and has not timed out. */
  predicate Waiting(p: Pc) {
    match p
    case Top(_, wait) => wait
    case Entering(_) => true
    case Checking(_) => true
    case Placing(_) => true
    case UnlockingTx(_, next) => !next.GiveUp?
    case UnlockingRx(_, next) => !next.GiveUp?
    case Blocked(_) => true
    case _ => false
  }

  /** The call of `t` is carried out by this event: its item is put, taken or seen. */
  ghost predicate Carried(s: System, e: Event, t: Task, op: Op)
    requires Enabled(s, e)
  {
    && e == Enter(t) && Step(s, e).pc[t] == Idle
    && match op
       case Send(item, place) => Accessed(s, e) == [Put(item, place)]
       case Receive => s.q.items != [] && Accessed(s, e) == [Got(s.q.items[0])]
       case Peek => s.q.items != [] && Accessed(s, e) == [Saw(s.q.items[0])]
  }

  /** The call of `t` is carried out at some point of the run. */
  ghost predicate Reached(s: System, es: seq<Event>, t: Task, op: Op)
    decreases |es|
  {
    es != [] && Enabled(s, es[0]) && (Carried(s, es[0], t, op) || Reached(Step(s, es[0]), es[1..], t, op))
  }

  lemma WaitingStep(s: System, e: Event, t: Task)
    requires Enabled(s, e) && t in s.pc && Waiting(s.pc[t]) && e != Check(t, true)
    ensures t in Step(s, e).pc
    ensures Carried(s, e, t, s.pc[t].op) || (Waiting(Step(s, e).pc[t]) && Step(s, e).pc[t].op == s.pc[t].op)
  {
    hide NextWoken, NextQueue;
  }

  /** A call that waits ends in no other way than with its item, unless it looks at the clock and finds that its
      time has run out. */
  lemma {:induction false} WaitsForItsItem(s: System, es: seq<Event>, z: System, t: Task)
    requires Run(s, es, z) && t in s.pc && Waiting(s.pc[t]) && Check(t, true) !in es
    ensures t in z.pc && (Waiting(z.pc[t]) || Reached(s, es, t, s.pc[t].op))
    decreases |es|
  {
    hide Step, Enabled, Carried;
    if es == [] {
    } else {
      WaitingStep(s, es[0], t);
      if Carried(s, es[0], t, s.pc[t].op) {
        TaskStays(s, es, z, t);
      } else {
        WaitsForItsItem(Step(s, es[0]), es[1..], z, t);
      }
    }
  }

  lemma {:induction false} TaskStays(s: System, es: seq<Event>, z: System, t: Task)
    requires Run(s, es, z) && t in s.pc
    ensures t in z.pc
    decreases |es|
  {
    hide NextWoken, NextQueue, NextPc, Enabled;
    if es != [] {
      TaskStays(Step(s, es[0]), es[1..], z, t);
    }
  }

  /** A call that does not wait ends at once, with its item exactly when there is something to do. */
  lemma EndsAtOnce(s: System, t: Task)
    requires Enabled(s, Enter(t)) && !s.pc[t].wait
    ensures var op, z := s.pc[t].op, Step(s, Enter(t));
            && z.pc[t] == Idle
            && (Carried(s, Enter(t), t, op) <==>
                if op.Send? then |s.q.items| < s.q.length || op.place.Overwrite? else s.q.items != [])
            && (!Carried(s, Enter(t), t, op) ==> z.q == s.q)
  {
    hide NextWoken;
  }

  /** A send gives up without a last look. */
  ghost predicate OnlyOthersLook(s: System) {
    forall t :: t in s.pc && s.pc[t].LastLook? ==> !s.pc[t].op.Send?
  }

  lemma {:induction false} SendersNeverLook(s: System, es: seq<Event>, z: System)
    requires Run(s, es, z) && OnlyOthersLook(s)
    ensures OnlyOthersLook(z)
    decreases |es|
  {
    hide NextWoken, NextQueue, Stuck;
    if es != [] {
      assert OnlyOthersLook(Step(s, es[0]));
      SendersNeverLook(Step(s, es[0]), es[1..], z);
    }
  }

  /** A call ends without its item only like this: a send that may not wait finds the queue full, or one that waited
      has timed out; a receive or a peek finds the queue empty at that very moment, also after it has timed out. */
  lemma EndsEmptyHanded(start: System, es: seq<Event>, s: System, e: Event, t: Task)
    requires Initial(start) && Run(start, es, s) && Enabled(s, e) && t in s.pc && !s.pc[t].Idle?
    requires t in Step(s, e).pc && Step(s, e).pc[t].Idle? && !Carried(s, e, t, s.pc[t].op)
    ensures ByTask(e) && e.t == t
    ensures if s.pc[t].op.Send? then
              || (e.UnlockRx? && s.pc[t].UnlockingRx? && s.pc[t].next.GiveUp?)
              || (e.Enter? && !s.pc[t].wait && |s.q.items| >= s.q.length)
            else s.q.items == [] && (e.Look? || (e.Enter? && !s.pc[t].wait))
  {
    hide NextWoken, NextQueue, Run;
    SendersNeverLook(start, es, s);
  }

  /** One that times out while there is an item tries once more. */
  lemma LooksAgain(s: System, t: Task)
    requires Enabled(s, Look(t)) && !s.pc[t].op.Send?
    ensures var z := Step(s, Look(t));
            z.q == s.q && z.pc[t] == if s.q.items == [] then Idle else Top(s.pc[t].op, false)
  {
    hide NextWoken;
  }

  // ---------------------------------------------------------------- reset

  /** The system after a task that holds no lock has reset the queue. */
  ghost function AfterReset(s: System): System {
    s.(q := Reset(s.q), wokenSend := s.wokenSend + (Owners(s.q.senders.list) - Owners(Reset(s.q).senders.list)))
  }

  /** A reset empties the queue and wakes a single sender.  Receivers are still served; senders are exactly
      when at most one was waiting or there are woken senders enough for the whole queue. */
  lemma ResetServes(s: System)
    requires Inv(s) && s.holder.None?
    ensures SideInv(AfterReset(s), false)
    ensures SideInv(AfterReset(s), true) <==> |s.q.senders.list| <= 1 || s.q.length <= |s.wokenSend| + 1
  {
    hide Inv, Owners, SideOk, DistinctOwners;
    SideFacts(s, true);
    SideFacts(s, false);
    var w := s.q.senders;
    Dropped(w, s.wokenSend, s.pc, true, if w.list == [] then 0 else 1, WakeOne(w));
    assert WakeOne(w).(lock := UNLOCKED) == WakeOne(w);
    assert s.q.receivers.(lock := UNLOCKED) == s.q.receivers;
  }

  // How two senders come to be blocked.

  lemma {:induction false} RunJoins(a: System, es: seq<Event>, b: System, fs: seq<Event>, c: System)
    requires Run(a, es, b) && Run(b, fs, c)
    ensures Run(a, es + fs, c)
    decreases |es|
  {
    hide Step, Enabled;
    if es == [] {
      assert es + fs == fs;
    } else {
      assert (es + fs)[0] == es[0] && (es + fs)[1..] == es[1..] + fs;
      RunJoins(Step(a, es[0]), es[1..], b, fs, c);
    }
  }

  /** Nobody waits or was woken, and nobody holds the lock; senders may be blocked. */
  ghost predicate Quiet(s: System) {
    && s.holder.None? && s.wokenSend == {} && s.wokenReceive == {}
    && s.q.senders.lock == UNLOCKED && s.q.receivers == Waiters([], UNLOCKED)
  }

  /** A send to a queue with room. */
  lemma SenderSends(s: System, t: Task, item: Item) returns (z: System)
    requires Quiet(s) && t in s.pc && s.pc[t].Idle? && |s.q.items| < s.q.length
    ensures Run(s, [Call(t, Send(item, Back), true), Enter(t)], z) && z == s.(q := s.q.(items := s.q.items + [item]))
  {
    var call, enter := Call(t, Send(item, Back), true), Enter(t);
    var m := s.(pc := s.pc[t := Top(Send(item, Back), true)]);
    assert Step(s, call) == m;
    z := s.(q := s.q.(items := s.q.items + [item]));
    assert m.pc[t := Idle] == s.pc;
    assert Step(m, enter) == z;
    assert Run(z, [], z) && [enter][1..] == [] && [call, enter][1..] == [enter];
    assert Run(m, [enter], z);
  }

  function BlockingEvents(t: Task, item: Item, value: nat): seq<Event> {
    [Call(t, Send(item, Back), true), Enter(t), TakeLock(t), Check(t, false), PlaceOnList(t, value), UnlockTx(t),
        UnlockRx(t)]
  }

  /** The states of a send that blocks. */
  function Blocking(s: System, t: Task, item: Item, value: nat, k: nat): System {
    var op := Send(item, Back);
    var locked, added := Lock(s.q), Lock(s.q).(senders := Add(Lock(s.q).senders, Entry(value, t)));
    if k == 0 then s
    else if k == 1 then s.(pc := s.pc[t := Top(op, true)])
    else if k == 2 then s.(pc := s.pc[t := Entering(op)])
    else if k == 3 then s.(q := locked, holder := Some(t), pc := s.pc[t := Checking(op)])
    else if k == 4 then s.(q := locked, holder := Some(t), pc := s.pc[t := Placing(op)])
    else if k == 5 then s.(q := added, holder := Some(t), pc := s.pc[t := UnlockingTx(op, Sleep)])
    else if k == 6 then s.(q := added.(receivers := s.q.receivers), holder := Some(t),
        pc := s.pc[t := UnlockingRx(op, Sleep)])
    else s.(q := s.q.(senders := Add(s.q.senders, Entry(value, t))), pc := s.pc[t := Blocked(op)])
  }

  lemma InsertKeepsOwners(list: seq<Entry<Task>>, e: Entry<Task>)
    ensures Owners(list) <= Owners(SortedInsert(list, e))
  {
    forall t | t in Owners(list) ensures t in Owners(SortedInsert(list, e)) {
      var i: nat :| i < |list| && list[i].owner == t;
      var p := Position(list, e.value);
      assert SortedInsert(list, e)[if i < p then i else i + 1].owner == t;
    }
  }

  lemma BlockingStep(s: System, t: Task, item: Item, value: nat, k: nat)
    requires Quiet(s) && t in s.pc && s.pc[t].Idle? && |s.q.items| == s.q.length && k < 7
    ensures var e, b := BlockingEvents(t, item, value)[k], Blocking(s, t, item, value, k);
            Enabled(b, e) && Step(b, e) == Blocking(s, t, item, value, k + 1)
  {
    InsertKeepsOwners(s.q.senders.list, Entry(value, t));
    hide Owners, SortedInsert;
    var a, b := Blocking(s, t, item, value, k), Blocking(s, t, item, value, k + 1);
    assert a.pc[t := b.pc[t]] == b.pc;
    assert Add(s.q.senders, Entry(value, t)).list[0..] == Add(s.q.senders, Entry(value, t)).list;
  }

  lemma {:induction false} SenderBlocks(s: System, t: Task, item: Item, value: nat, k: nat)
    requires Quiet(s) && t in s.pc && s.pc[t].Idle? && |s.q.items| == s.q.length && k <= 7
    ensures Run(Blocking(s, t, item, value, k), BlockingEvents(t, item, value)[k..], Blocking(s, t, item, value, 7))
    decreases 7 - k
  {
    hide Step, Enabled, Blocking, Quiet;
    var es := BlockingEvents(t, item, value);
    if k < 7 {
      BlockingStep(s, t, item, value, k);
      SenderBlocks(s, t, item, value, k + 1);
      assert es[k..][0] == es[k] && es[k..][1..] == es[k + 1..];
    }
  }

  /** Two senders blocked on a full queue of two. */
  function TwoBlocked(): System {
    System(Queue(2, [[], []], Waiters([Entry(0, 0), Entry(0, 1)], UNLOCKED), Waiters([], UNLOCKED)), 2,
           map[0 := Blocked(Send([], Back)), 1 := Blocked(Send([], Back))], None, {}, {})
  }

  function TwoIdle(): System {
    System(Queue(2, [], Waiters([], UNLOCKED), Waiters([], UNLOCKED)), 2, map[0 := Idle, 1 := Idle], None, {}, {})
  }

  /** The same with a full queue. */
  function TwoFull(): System {
    TwoIdle().(q := TwoIdle().q.(items := [[], []]))
  }

  lemma TwoSent() returns (es: seq<Event>)
    ensures Initial(TwoIdle()) && Run(TwoIdle(), es, TwoFull())
  {
    var s := TwoIdle();
    assert s.pc.Keys == {0, 1};
    var s1 := SenderSends(s, 0, []);
    var s2 := SenderSends(s1, 0, []);
    assert s2 == TwoFull();
    hide Run, Initial, Quiet;
    es := [Call(0, Send([], Back), true), Enter(0)];
    RunJoins(s, es, s1, es, s2);
    es := es + es;
  }

  lemma OneBlocks(s: System, t: Task) returns (es: seq<Event>)
    requires Quiet(s) && t in s.pc && s.pc[t].Idle? && |s.q.items| == s.q.length
    ensures Run(s, es, Blocking(s, t, [], 0, 7))
  {
    es := BlockingEvents(t, [], 0)[0..];
    assert Blocking(s, t, [], 0, 0) == s;
    hide Run, Quiet, Blocking, BlockingEvents;
    SenderBlocks(s, t, [], 0, 0);
  }

  lemma TwoBlock() returns (es: seq<Event>)
    ensures Initial(TwoIdle()) && Run(TwoIdle(), es, TwoBlocked())
  {
    var s2, s3 := TwoFull(), Blocking(TwoFull(), 0, [], 0, 7);
    assert Quiet(s2);
    EndsBlocked(s2, s3);
    hide Run, Quiet, Initial, Blocking, TwoBlocked;
    var sent := TwoSent();
    var first := OneBlocks(s2, 0);
    var second := OneBlocks(s3, 1);
    RunJoins(TwoIdle(), sent, s2, first, s3);
    RunJoins(TwoIdle(), sent + first, s3, second, TwoBlocked());
    es := sent + first + second;
  }

  lemma EndsBlocked(s2: System, s3: System)
    requires s2 == TwoFull() && s3 == Blocking(s2, 0, [], 0, 7)
    ensures Quiet(s3) && 1 in s3.pc && s3.pc[1].Idle? && |s3.q.items| == s3.q.length
            && Blocking(s3, 1, [], 0, 7) == TwoBlocked()
  {
    assert Add(s2.q.senders, Entry(0, 0)).list == [Entry(0, 0)];
    assert Position([Entry(0, 0 as Task)], 0) == 1;
    assert Add(s3.q.senders, Entry(0, 1)).list == [Entry(0, 0), Entry(0, 1)];
    assert Blocking(s3, 1, [], 0, 7).pc == TwoBlocked().pc;
  }

  lemma TwoBlockedSenders()
    ensures var s := TwoBlocked(); SideOk(s.q.senders, {}, s.pc, true)
  {
    var list := TwoBlocked().q.senders.list;
    assert list[0].owner == 0 && list[1].owner == 1;
  }

  lemma NoReceivers()
    ensures var s := TwoBlocked(); SideOk(s.q.receivers, {}, s.pc, false)
  {
    assert Owners([]) == {};
    hide Owners;
  }

  /** A run that fails: two sends fill a queue of two, and two more senders block.  A reset then leaves one of them
      blocked although a place is free that nobody was woken for. */
  lemma ResetStrandsASender()
    ensures exists es :: Initial(TwoIdle()) && Run(TwoIdle(), es, TwoBlocked())
    ensures var s := TwoBlocked(); Inv(s) && s.holder.None? && !SideInv(AfterReset(s), true)
  {
    hide Owners, SideOk, Initial, Run;
    var es := TwoBlock();
    var s := TwoBlocked();
    assert s.pc.Keys == {0, 1};
    TwoBlockedSenders();
    NoReceivers();
    ResetServes(s);
  }
}
