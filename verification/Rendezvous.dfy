/** The rendezvous of xEventGroupSync among other users of the same event group: tasks that wait for the group
    or time out, and anybody who sets and clears other bits, come and go between the arrivals. */
module Rendezvous {
  import opened EventGroups

  // ---------------------------------------------------------------- bits alone

  lemma SubsetKept(part: Bits, whole: Bits, current: Bits, other: Bits)
    requires AllIn(part, whole)
    ensures AllIn(part, current) ==> AllIn(part, Or(current, other))
    ensures AllIn(part, current) && Disjoint(other, whole) ==> AllIn(part, Minus(current, other))
    ensures Disjoint(other, whole) ==> Disjoint(other, part)
  {
  }

  lemma DisjointKept(current: Bits, other: Bits, part: Bits)
    requires Disjoint(current, part)
    ensures Disjoint(Minus(current, other), part)
    ensures Disjoint(other, part) ==> Disjoint(Or(current, other), part)
  {
  }

  lemma OwnBits(current: Bits, part: Bits)
    ensures AllIn(part, Or(current, part))
    ensures Disjoint(Minus(current, part), part)
  {
  }

  lemma NotAll(whole: Bits, part: Bits, current: Bits)
    requires part != 0 && AllIn(part, whole) && Disjoint(current, part)
    ensures !AllIn(whole, current)
  {
  }

  lemma DisjointIsNone(a: Bits, b: Bits)
    ensures AnyIn(b, a) <==> !Disjoint(a, b)
  {
  }

  lemma BothIn(a: Bits, b: Bits, current: Bits)
    requires AllIn(a, current) && AllIn(b, current)
    ensures AllIn(Or(a, b), current)
  {
  }

  lemma EachIn(a: Bits, b: Bits, current: Bits)
    requires AllIn(Or(a, b), current)
    ensures AllIn(a, current) && AllIn(b, current)
  {
  }

  /** The union holds a bit set exactly if every party's bits are held. */
  lemma {:induction false} UnionIn(ps: seq<Party>, current: Bits)
    ensures AllIn(Union(ps), current) <==> forall p :: p in ps ==> AllIn(p.bits, current)
  {
    if ps == [] {
      assert AllIn(0, current);
    } else {
      hide AllIn, Or;
      var n := |ps| - 1;
      UnionIn(ps[..n], current);
      if AllIn(Union(ps), current) {
        EachIn(Union(ps[..n]), ps[n].bits, current);
      }
      if AllIn(Union(ps[..n]), current) && AllIn(ps[n].bits, current) {
        BothIn(Union(ps[..n]), ps[n].bits, current);
      }
      assert ps == ps[..n] + [ps[n]];
    }
  }

  lemma InItself(a: Bits)
    ensures AllIn(a, a)
  {
  }

  // ---------------------------------------------------------------- the parties

  ghost predicate IsParty(ps: seq<Party>, t: Task) {
    exists p :: p in ps && p.task == t
  }

  /** Several tasks, each with a bit of its own, which all wait for all the bits. */
  ghost predicate Team(ps: seq<Party>, wanted: Bits) {
    && ps != [] && Plain(wanted) && wanted == Union(ps)
    && (forall p :: p in ps ==> p.bits != 0)
    && (forall p, q :: p in ps && q in ps && p != q ==> p.task != q.task && Disjoint(p.bits, q.bits))
  }

  ghost predicate Missing(ps: seq<Party>, here: set<Task>) {
    exists p :: p in ps && p.task !in here
  }

  /** Of the bits waited for, exactly those of the parties in `here` are set. */
  ghost predicate HasBits(bits: Bits, ps: seq<Party>, here: set<Task>) {
    forall p :: p in ps ==> if p.task in here then AllIn(p.bits, bits) else Disjoint(bits, p.bits)
  }

  /** Of the parties exactly those in `here` are on the list; nobody else there clears their bits. */
  ghost predicate OnList(ws: seq<Waiter>, ps: seq<Party>, wanted: Bits, here: set<Task>) {
    && (forall p :: p in ps && p.task in here ==> Entry(p, wanted) in ws)
    && (forall w :: w in ws ==> Fits(w, ps, wanted, here))
  }

  ghost predicate Fits(w: Waiter, ps: seq<Party>, wanted: Bits, here: set<Task>) {
    if IsParty(ps, w.task) then w.task in here && w.value == ItemValue(wanted, true, true)
    else Disjoint(ClearMask(w.value), wanted)
  }

  /** The parties in `here` have arrived and wait, and the others have not. */
  ghost predicate Gathered(g: Group, ps: seq<Party>, wanted: Bits, here: set<Task>) {
    HasBits(g.bits, ps, here) && OnList(g.waiting, ps, wanted, here)
  }

  /** From `g` to `h` some tasks were released, and none of the parties. */
  ghost predicate NoneReleased(g: Group, h: Group, ps: seq<Party>) {
    g.released <= h.released && forall u :: u in h.released[|g.released|..] ==> !IsParty(ps, u.task)
  }

  /** What others may do meanwhile: set, clear and ask to have cleared other bits than those of the rendezvous,
      wait for any bits, and time out. */
  ghost predicate Foreign(g: Group, e: Event, ps: seq<Party>, wanted: Bits) {
    match e
    case Set(bits) => Disjoint(bits, wanted)
    case Clear(bits) => Disjoint(bits, wanted)
    case Wait(t, w, clear, _, _) => !IsParty(ps, t) && (clear ==> Disjoint(w, wanted))
    case Meet(t, bits, w, _) => !IsParty(ps, t) && Disjoint(bits, wanted) && Disjoint(w, wanted)
    case Late(value, w, clear, _) => TimedOut(value) && clear ==> Disjoint(w, wanted)
    case TimeOut(i) => i < |g.waiting| ==> !IsParty(ps, g.waiting[i].task)
  }

  function Arrival(p: Party, wanted: Bits): Event { Meet(p.task, p.bits, wanted, true) }

  /** The run `es` leads from `g` to `h`; the parties that wait grow from `here` to `now`, and one is always missing. */
  ghost predicate Gathering(g: Group, es: seq<Event>, h: Group, ps: seq<Party>, wanted: Bits, here: set<Task>,
        now: set<Task>)
    decreases |es|
  {
    if es == [] then h == g && now == here
    else
      && Enabled(g, es[0])
      && (if es[0].Meet? && IsParty(ps, es[0].t) then
            && es[0] == Arrival(Party(es[0].t, es[0].bits), wanted) && Party(es[0].t, es[0].bits) in ps
            && es[0].t !in here && Missing(ps, here + {es[0].t})
            && Gathering(Step(g, es[0]), es[1..], h, ps, wanted, here + {es[0].t}, now)
          else Foreign(g, es[0], ps, wanted) && Gathering(Step(g, es[0]), es[1..], h, ps, wanted, here, now))
  }

  // ---------------------------------------------------------------- what single operations keep

  lemma PartyIn(ps: seq<Party>, wanted: Bits, p: Party)
    requires Team(ps, wanted) && p in ps
    ensures p.bits != 0 && AllIn(p.bits, wanted) && IsParty(ps, p.task)
  {
    hide AllIn;
    InItself(wanted);
    UnionIn(ps, wanted);
  }

  /** While one is missing no party's entry is satisfied. */
  lemma NobodyMatches(ps: seq<Party>, wanted: Bits, here: set<Task>, current: Bits)
    requires Team(ps, wanted) && Missing(ps, here) && HasBits(current, ps, here)
    ensures !Matches(current, ItemValue(wanted, true, true)) && !AllIn(wanted, current)
  {
    hide Matches, ItemValue, AllIn, AnyIn, Disjoint;
    var p :| p in ps && p.task !in here;
    PartyIn(ps, wanted, p);
    NotAll(wanted, p.bits, current);
    ItemSaysIt(current, wanted, true, true);
  }

  lemma BitsCleared(current: Bits, cleared: Bits, ps: seq<Party>, wanted: Bits, here: set<Task>)
    requires Team(ps, wanted) && HasBits(current, ps, here) && Disjoint(cleared, wanted)
    ensures HasBits(Minus(current, cleared), ps, here)
  {
    hide AllIn, Disjoint, Minus, Team;
    forall p | p in ps
      ensures if p.task in here then AllIn(p.bits, Minus(current, cleared))
              else Disjoint(Minus(current, cleared), p.bits) {
      PartyIn(ps, wanted, p);
      SubsetKept(p.bits, wanted, current, cleared);
      if p.task !in here { DisjointKept(current, cleared, p.bits); }
    }
  }

  lemma BitsSet(current: Bits, more: Bits, ps: seq<Party>, wanted: Bits, here: set<Task>)
    requires Team(ps, wanted) && HasBits(current, ps, here) && Disjoint(more, wanted)
    ensures HasBits(Or(current, more), ps, here)
  {
    hide AllIn, Disjoint, Or, Team;
    forall p | p in ps
      ensures if p.task in here then AllIn(p.bits, Or(current, more)) else Disjoint(Or(current, more), p.bits) {
      PartyIn(ps, wanted, p);
      SubsetKept(p.bits, wanted, current, more);
      if p.task !in here { DisjointKept(current, more, p.bits); }
    }
  }

  lemma OwnBitsSet(current: Bits, p: Party, ps: seq<Party>, wanted: Bits, here: set<Task>)
    requires Team(ps, wanted) && HasBits(current, ps, here) && p in ps
    ensures HasBits(Or(current, p.bits), ps, here + {p.task})
  {
    hide AllIn, Disjoint, Or, Union, Plain;
    var now := Or(current, p.bits);
    forall q | q in ps ensures if q.task in here + {p.task} then AllIn(q.bits, now) else Disjoint(now, q.bits) {
      if q == p {
        OwnBits(current, p.bits);
      } else if q.task in here {
        InItself(q.bits);
        SubsetKept(q.bits, q.bits, current, p.bits);
      } else {
        DisjointKept(current, p.bits, q.bits);
      }
    }
  }

  /** The waiters satisfied while one is missing are others, so they clear none of the bits. */
  lemma ClearedByOthers(ws: seq<Waiter>, current: Bits, ps: seq<Party>, wanted: Bits, here: set<Task>)
    requires OnList(ws, ps, wanted, here) && !Matches(current, ItemValue(wanted, true, true))
    ensures Disjoint(ToClear(ws, current), wanted)
  {
    hide Matches, ItemValue, AnyIn, Disjoint, ClearMask, IsParty;
    DisjointIsNone(ToClear(ws, current), wanted);
    ClearsExactly(ws, current, wanted);
    if i :| 0 <= i < |ws| && Matches(current, ws[i].value) && AnyIn(wanted, ClearMask(ws[i].value)) {
      assert Fits(ws[i], ps, wanted, here);
      DisjointIsNone(ClearMask(ws[i].value), wanted);
    }
  }

  /** Setting bits while one is missing, whoever sets them. */
  lemma SetKeeps(g: Group, bits: Bits, ps: seq<Party>, wanted: Bits, listed: set<Task>, here: set<Task>)
    requires Team(ps, wanted) && OnList(g.waiting, ps, wanted, listed)
    requires Missing(ps, here) && HasBits(Or(g.bits, bits), ps, here)
    ensures var h := SetBits(g, bits);
            && HasBits(h.bits, ps, here) && OnList(h.waiting, ps, wanted, listed) && NoneReleased(g, h, ps)
  {
    hide Matches, ItemValue, AllIn, AnyIn, Disjoint, ClearMask, Or, Minus, Team, HasBits, Missing, IsParty, StoredValue;
    var now, ws, h := Or(g.bits, bits), g.waiting, SetBits(g, bits);
    NobodyMatches(ps, wanted, here, now);
    ClearedByOthers(ws, now, ps, wanted, listed);
    BitsCleared(now, ToClear(ws, now), ps, wanted, here);
    LeftMembers(ws, now);
    UnblockedMembers(ws, now);
    assert h.released[|g.released|..] == Unblocked(ws, now);
    forall u | u in Unblocked(ws, now) ensures !IsParty(ps, u.task) {
      var w :| w in ws && Matches(now, w.value) && u == Waiter(w.task, StoredValue(now));
      assert Fits(w, ps, wanted, listed);
    }
  }

  lemma ClearKeeps(g: Group, cleared: Bits, ps: seq<Party>, wanted: Bits, here: set<Task>)
    requires Team(ps, wanted) && Gathered(g, ps, wanted, here) && Disjoint(cleared, wanted)
    ensures Gathered(ClearBits(g, cleared), ps, wanted, here) && NoneReleased(g, ClearBits(g, cleared), ps)
  {
    hide Team, HasBits, OnList, Disjoint, Minus;
    BitsCleared(g.bits, cleared, ps, wanted, here);
  }

  lemma JoinKeeps(g: Group, w: Waiter, ps: seq<Party>, wanted: Bits, here: set<Task>)
    requires OnList(g.waiting, ps, wanted, here) && !IsParty(ps, w.task) && Disjoint(ClearMask(w.value), wanted)
    ensures OnList(g.waiting + [w], ps, wanted, here)
  {
    hide IsParty, ItemValue, ClearMask, Disjoint;
  }

  lemma PartyJoins(ws: seq<Waiter>, p: Party, ps: seq<Party>, wanted: Bits, here: set<Task>)
    requires Team(ps, wanted) && OnList(ws, ps, wanted, here) && p in ps
    ensures OnList(ws + [Entry(p, wanted)], ps, wanted, here + {p.task})
  {
    hide ItemValue, ClearMask, Disjoint, Plain, Union;
    var r := ws + [Entry(p, wanted)];
    forall q | q in ps && q.task in here + {p.task} ensures Entry(q, wanted) in r {
      if q != p { assert Entry(q, wanted) in ws; }
    }
    forall w | w in r ensures Fits(w, ps, wanted, here + {p.task}) {
      if w in ws { assert Fits(w, ps, wanted, here); }
    }
  }

  lemma ExpireKeeps(g: Group, i: nat, ps: seq<Party>, wanted: Bits, here: set<Task>)
    requires Gathered(g, ps, wanted, here) && i < |g.waiting| && !IsParty(ps, g.waiting[i].task)
    ensures Gathered(Expire(g, i), ps, wanted, here) && NoneReleased(g, Expire(g, i), ps)
  {
    hide HasBits, ItemValue, ClearMask, Disjoint;
    var ws, r := g.waiting, Expire(g, i).waiting;
    forall p | p in ps && p.task in here ensures Entry(p, wanted) in r {
      var j :| 0 <= j < |ws| && ws[j] == Entry(p, wanted);
      assert IsParty(ps, p.task) && j != i;
      assert r[if j < i then j else j - 1] == ws[j];
    }
    forall w | w in r ensures Fits(w, ps, wanted, here) {
      var j :| 0 <= j < |r| && r[j] == w;
      assert w == ws[if j < i then j else j + 1];
    }
  }

  lemma Released(g: Group, h: Group, k: Group, ps: seq<Party>)
    requires NoneReleased(g, h, ps) && NoneReleased(h, k, ps)
    ensures NoneReleased(g, k, ps)
  {
    hide IsParty;
    assert k.released[|g.released|..] == h.released[|g.released|..] + k.released[|h.released|..];
  }

  // ---------------------------------------------------------------- single events

  lemma WaitKeeps(g: Group, t: Task, w: Bits, clear: bool, all: bool, wait: bool, ps: seq<Party>, wanted: Bits,
        here: set<Task>)
    requires Team(ps, wanted) && Gathered(g, ps, wanted, here) && Plain(w)
    requires !IsParty(ps, t) && (clear ==> Disjoint(w, wanted))
    ensures var h := WaitBits(g, t, w, clear, all, wait).0; Gathered(h, ps, wanted, here) && NoneReleased(g, h, ps)
  {
    hide Team, HasBits, OnList, Disjoint, ItemValue, ClearBits, TestWaitCondition, ClearMask, Plain, IsParty;
    ItemSaysIt(g.bits, w, clear, all);
    NothingDisjoint(wanted);
    if clear { ClearKeeps(g, w, ps, wanted, here); }
    JoinKeeps(g, Waiter(t, ItemValue(w, clear, all)), ps, wanted, here);
  }

  lemma NothingDisjoint(a: Bits)
    ensures Disjoint(0, a)
  {
  }

  lemma MeetKeeps(g: Group, t: Task, bits: Bits, w: Bits, wait: bool, ps: seq<Party>, wanted: Bits, here: set<Task>)
    requires Team(ps, wanted) && Missing(ps, here) && Gathered(g, ps, wanted, here) && Plain(w)
    requires !IsParty(ps, t) && Disjoint(bits, wanted) && Disjoint(w, wanted)
    ensures var h := Sync(g, t, bits, w, wait).0; Gathered(h, ps, wanted, here) && NoneReleased(g, h, ps)
  {
    hide Team, HasBits, OnList, Disjoint, ItemValue, SetBits, ClearBits, TestWaitCondition, ClearMask, Plain, IsParty,
         Missing, Or, NoneReleased;
    var m := SetBits(g, bits);
    BitsSet(g.bits, bits, ps, wanted, here);
    SetKeeps(g, bits, ps, wanted, here, here);
    ClearKeeps(m, w, ps, wanted, here);
    Released(g, m, ClearBits(m, w), ps);
    ItemSaysIt(g.bits, w, true, true);
    var e := Waiter(t, ItemValue(w, true, true));
    JoinKeeps(m, e, ps, wanted, here);
    SameReleased(g, m, m.(waiting := m.waiting + [e]), ps);
  }

  lemma SameReleased(g: Group, m: Group, h: Group, ps: seq<Party>)
    requires NoneReleased(g, m, ps) && h.released == m.released
    ensures NoneReleased(g, h, ps)
  {
    hide IsParty;
  }

  /** Whatever others do, those who wait go on waiting and those who are missing are still missed. */
  lemma ForeignKeeps(g: Group, e: Event, ps: seq<Party>, wanted: Bits, here: set<Task>)
    requires Team(ps, wanted) && Missing(ps, here) && Gathered(g, ps, wanted, here) && Enabled(g, e)
             && Foreign(g, e, ps, wanted)
    ensures Gathered(Step(g, e), ps, wanted, here) && NoneReleased(g, Step(g, e), ps)
  {
    hide Team, HasBits, OnList, Disjoint, SetBits, ClearBits, WaitBits, Sync, Expire, Missing, IsParty, Plain, Or,
         TestWaitCondition, TimedOut;
    match e
    case Set(bits) =>
      BitsSet(g.bits, bits, ps, wanted, here);
      SetKeeps(g, bits, ps, wanted, here, here);
    case Clear(bits) => ClearKeeps(g, bits, ps, wanted, here);
    case Wait(t, w, clear, all, wait) => WaitKeeps(g, t, w, clear, all, wait, ps, wanted, here);
    case Meet(t, bits, w, wait) => MeetKeeps(g, t, bits, w, wait, ps, wanted, here);
    case Late(value, w, clear, all) => if TimedOut(value) && clear { ClearKeeps(g, w, ps, wanted, here); }
    case TimeOut(i) => ExpireKeeps(g, i, ps, wanted, here);
  }

  /** A party that arrives while another is missing waits, and nobody of the team is released. */
  lemma ArrivalWaits(g: Group, p: Party, ps: seq<Party>, wanted: Bits, here: set<Task>)
    requires Team(ps, wanted) && Gathered(g, ps, wanted, here) && p in ps && Missing(ps, here + {p.task})
    ensures var (h, outcome) := Sync(g, p.task, p.bits, wanted, true);
            Gathered(h, ps, wanted, here + {p.task}) && NoneReleased(g, h, ps) && outcome == Blocks
  {
    hide Team, HasBits, OnList, Disjoint, ItemValue, SetBits, ClearBits, AllIn, AnyIn, Missing, Or, IsParty, Matches,
         NoneReleased;
    var m, with := SetBits(g, p.bits), here + {p.task};
    OwnBitsSet(g.bits, p, ps, wanted, here);
    SetKeeps(g, p.bits, ps, wanted, here, with);
    NobodyMatches(ps, wanted, with, Or(g.bits, p.bits));
    PartyJoins(m.waiting, p, ps, wanted, here);
    SameReleased(g, m, m.(waiting := m.waiting + [Entry(p, wanted)]), ps);
  }

  // ---------------------------------------------------------------- whole runs

  /** However the others interfere: as long as a party is missing, every party that has arrived is on the list,
      and none has been released. */
  lemma {:induction false} NobodyLeavesEarly(g: Group, es: seq<Event>, h: Group, ps: seq<Party>, wanted: Bits,
        here: set<Task>, now: set<Task>)
    requires Team(ps, wanted) && Missing(ps, here) && Gathered(g, ps, wanted, here)
    requires Gathering(g, es, h, ps, wanted, here, now)
    ensures Run(g, es, h) && here <= now && Missing(ps, now)
    ensures Gathered(h, ps, wanted, now) && NoneReleased(g, h, ps)
    decreases |es|
  {
    hide Team, Gathered, Missing, Enabled, Step, Foreign, IsParty, NoneReleased;
    if es == [] {
      NoneYet(g, ps);
    } else {
      var e, m := es[0], Step(g, es[0]);
      if e.Meet? && IsParty(ps, e.t) {
        var p := Party(e.t, e.bits);
        ArrivalWaits(g, p, ps, wanted, here);
        StepIsSync(g, p, wanted);
        NobodyLeavesEarly(m, es[1..], h, ps, wanted, here + {e.t}, now);
      } else {
        ForeignKeeps(g, e, ps, wanted, here);
        NobodyLeavesEarly(m, es[1..], h, ps, wanted, here, now);
      }
      Released(g, m, h, ps);
    }
  }

  lemma NoneYet(g: Group, ps: seq<Party>)
    ensures NoneReleased(g, g, ps)
  {
  }

  lemma StepIsSync(g: Group, p: Party, wanted: Bits)
    requires Enabled(g, Arrival(p, wanted))
    ensures Step(g, Arrival(p, wanted)) == Sync(g, p.task, p.bits, wanted, true).0
  {
    hide Sync;
  }

  /** The parties other than `last` are released with the bits `all`, and no party with anything else. */
  ghost predicate TeamReleased(g: Group, h: Group, ps: seq<Party>, last: Party, all: Bits) {
    && g.released <= h.released
    && (forall q :: q in ps && q != last ==> Waiter(q.task, StoredValue(all)) in h.released[|g.released|..])
    && (forall u :: u in h.released[|g.released|..] && IsParty(ps, u.task) ==>
       u.task != last.task && u.value == StoredValue(all))
  }

  lemma AllSet(current: Bits, p: Party, ps: seq<Party>, wanted: Bits, here: set<Task>)
    requires Team(ps, wanted) && HasBits(current, ps, here) && p in ps && !Missing(ps, here + {p.task})
    ensures AllIn(wanted, Or(current, p.bits)) && Matches(Or(current, p.bits), ItemValue(wanted, true, true))
  {
    hide AllIn, AnyIn, Disjoint, Or, ItemValue, Matches;
    OwnBitsSet(current, p, ps, wanted, here);
    UnionIn(ps, Or(current, p.bits));
    ItemSaysIt(Or(current, p.bits), wanted, true, true);
  }

  lemma TeamUnblocked(ws: seq<Waiter>, all: Bits, p: Party, ps: seq<Party>, wanted: Bits, here: set<Task>)
    requires Team(ps, wanted) && OnList(ws, ps, wanted, here) && Matches(all, ItemValue(wanted, true, true))
    requires p in ps && p.task !in here && !Missing(ps, here + {p.task})
    ensures forall q :: q in ps && q != p ==> Waiter(q.task, StoredValue(all)) in Unblocked(ws, all)
    ensures forall u :: u in Unblocked(ws, all) && IsParty(ps, u.task) ==>
            u.task != p.task && u.value == StoredValue(all)
    ensures OnList(Left(ws, all), ps, wanted, {})
  {
    hide ItemValue, Disjoint, ClearMask, StoredValue, Matches, Plain, Union, IsParty;
    LeftMembers(ws, all);
    UnblockedMembers(ws, all);
    forall q | q in ps && q != p ensures Waiter(q.task, StoredValue(all)) in Unblocked(ws, all) {
      assert Entry(q, wanted) in ws;
      assert WasSatisfied(ws, all, Waiter(q.task, StoredValue(all)));
    }
    forall u | u in Unblocked(ws, all) && IsParty(ps, u.task) ensures u.task != p.task && u.value == StoredValue(all) {
      var w :| w in ws && Matches(all, w.value) && u == Waiter(w.task, StoredValue(all));
      assert Fits(w, ps, wanted, here);
    }
    forall w | w in Left(ws, all) ensures Fits(w, ps, wanted, {}) {
      assert Fits(w, ps, wanted, here);
    }
  }

  lemma NoneSet(current: Bits, ps: seq<Party>, wanted: Bits)
    requires Team(ps, wanted)
    ensures HasBits(Minus(current, wanted), ps, {})
  {
    hide AllIn, Disjoint, Minus, Team;
    OwnBits(current, wanted);
    forall q | q in ps ensures Disjoint(Minus(current, wanted), q.bits) {
      PartyIn(ps, wanted, q);
      SubsetKept(q.bits, wanted, current, Minus(current, wanted));
    }
  }

  /** The last to arrive does not wait: it is answered with all the bits, the others are released with the
      same, and the bits are withdrawn, so that the next round can begin. */
  lemma LastArrives(g: Group, p: Party, ps: seq<Party>, wanted: Bits, here: set<Task>)
    requires Team(ps, wanted) && Gathered(g, ps, wanted, here) && p in ps && p.task !in here
             && !Missing(ps, here + {p.task})
    ensures var (h, outcome) := Sync(g, p.task, p.bits, wanted, true); var all := Or(g.bits, p.bits);
            && outcome == Answer(all) && AllIn(wanted, all)
            && TeamReleased(g, h, ps, p, all) && Gathered(h, ps, wanted, {})
  {
    hide Team, HasBits, OnList, Missing, IsParty, AllIn, AnyIn, Or, Minus, Matches, ItemValue, StoredValue, Left,
         Unblocked, ToClear;
    var all, m := Or(g.bits, p.bits), SetBits(g, p.bits);
    AllSet(g.bits, p, ps, wanted, here);
    TeamUnblocked(g.waiting, all, p, ps, wanted, here);
    NoneSet(m.bits, ps, wanted);
    assert m.released[|g.released|..] == Unblocked(g.waiting, all);
  }

  lemma TeamStays(g: Group, m: Group, h: Group, ps: seq<Party>, p: Party, all: Bits, k: Group)
    requires NoneReleased(g, m, ps) && TeamReleased(m, h, ps, p, all) && NoneReleased(h, k, ps)
    ensures TeamReleased(g, k, ps, p, all)
  {
    hide IsParty, StoredValue;
    assert k.released[|g.released|..]
           == m.released[|g.released|..] + h.released[|m.released|..] + k.released[|h.released|..];
  }

  /** A whole round and what follows it, up to any moment of the next.  Others may interfere at any time.  The
      parties arrive in any order; `p` comes last, and `m` is what it finds.  Before that, none of them is released
      and all who arrived wait.  Then `p` is answered with all the bits, each of the others is released with
      the same bits and none with anything else, and for the next round everybody is missing again. */
  lemma RoundAmongOthers(g: Group, before: seq<Event>, m: Group, p: Party, after: seq<Event>, k: Group,
                         ps: seq<Party>, wanted: Bits, here: set<Task>, next: set<Task>)
    requires Team(ps, wanted) && Gathered(g, ps, wanted, {}) && p in ps
    requires Gathering(g, before, m, ps, wanted, {}, here) && p.task !in here && !Missing(ps, here + {p.task})
    requires Enabled(m, Arrival(p, wanted)) && Gathering(Step(m, Arrival(p, wanted)), after, k, ps, wanted, {}, next)
    ensures Run(g, before, m) && Gathered(m, ps, wanted, here) && NoneReleased(g, m, ps)
    ensures var all := Or(m.bits, p.bits);
            && AllIn(wanted, all) && Sync(m, p.task, p.bits, wanted, true).1 == Answer(all)
            && Run(Step(m, Arrival(p, wanted)), after, k) && TeamReleased(g, k, ps, p, all)
            && Gathered(k, ps, wanted, next) && Missing(ps, next)
  {
    hide Team, Gathered, Gathering, Run, Step, Enabled, Sync, IsParty, AllIn, Or, NoneReleased, TeamReleased;
    var h := Step(m, Arrival(p, wanted));
    assert Missing(ps, {});
    NobodyLeavesEarly(g, before, m, ps, wanted, {}, here);
    LastArrives(m, p, ps, wanted, here);
    StepIsSync(m, p, wanted);
    NobodyLeavesEarly(h, after, k, ps, wanted, {}, next);
    TeamStays(g, m, h, ps, p, Or(m.bits, p.bits), k);
  }
}
