/** Event groups (event_groups.c): tasks that wait for bits, and the rendezvous built on them. */
module EventGroups {

  type Task = nat
  type Bits = bv32

  const CLEAR_EVENTS_ON_EXIT_BIT: Bits := 0x0100_0000
  const UNBLOCKED_DUE_TO_BIT_SET: Bits := 0x0200_0000
  const WAIT_FOR_ALL_BITS: Bits := 0x0400_0000
  const EVENT_BITS_CONTROL_BYTES: Bits := 0xff00_0000
  /** taskEVENT_LIST_ITEM_VALUE_IN_USE, which the kernel adds to every value it stores. */
  const ITEM_VALUE_IN_USE: Bits := 0x8000_0000

  /** An entry of the event list: the item value holds the bits waited for and the control bits. */
  datatype Waiter = Waiter(task: Task, value: Bits)

  /** What a call finds: an answer at once, or its caller is blocked. */
  datatype Outcome = Answer(bits: Bits) | Blocks

  /** All, or any, of the wanted bits are set. */
  predicate AllIn(wanted: Bits, current: Bits) { wanted & current == wanted }

  predicate AnyIn(wanted: Bits, current: Bits) { wanted & current != 0 }

  /** prvTestWaitCondition. */
  predicate TestWaitCondition(current: Bits, wanted: Bits, all: bool) {
    if all then AllIn(wanted, current) else AnyIn(wanted, current)
  }

  /** The parts of an item value. */
  function Wanted(value: Bits): Bits { value & !EVENT_BITS_CONTROL_BYTES }

  predicate WaitsForAll(value: Bits) { value & EVENT_BITS_CONTROL_BYTES & WAIT_FOR_ALL_BITS != 0 }

  predicate ClearsOnExit(value: Bits) { value & EVENT_BITS_CONTROL_BYTES & CLEAR_EVENTS_ON_EXIT_BIT != 0 }

  /** The test xEventGroupSetBits makes on an event list item. */
  predicate Matches(current: Bits, value: Bits) {
    if WaitsForAll(value) then AllIn(Wanted(value), current) else AnyIn(Wanted(value), current)
  }

  function Control(clear: bool, all: bool): Bits {
    if clear then (if all then CLEAR_EVENTS_ON_EXIT_BIT | WAIT_FOR_ALL_BITS else CLEAR_EVENTS_ON_EXIT_BIT)
    else if all then WAIT_FOR_ALL_BITS else 0
  }

  function ItemValue(wanted: Bits, clear: bool, all: bool): Bits {
    Or(Or(wanted, Control(clear, all)), ITEM_VALUE_IN_USE)
  }

  predicate Plain(bits: Bits) {
    bits & EVENT_BITS_CONTROL_BYTES == 0
  }

  function Or(a: Bits, b: Bits): Bits { a | b }

  function Minus(a: Bits, b: Bits): Bits { a & !b }

  /** The bits a satisfied waiter clears. */
  function ClearMask(value: Bits): Bits {
    if ClearsOnExit(value) then Wanted(value) else 0
  }

  /** What the kernel leaves in the item of an unblocked task. */
  function StoredValue(current: Bits): Bits {
    Or(Or(current, UNBLOCKED_DUE_TO_BIT_SET), ITEM_VALUE_IN_USE)
  }

  // Facts about the bits alone.

  lemma ItemParts(wanted: Bits, control: Bits)
    requires Plain(wanted) && control & EVENT_BITS_CONTROL_BYTES == control
    ensures Wanted(Or(Or(wanted, control), ITEM_VALUE_IN_USE)) == wanted
    ensures WaitsForAll(Or(Or(wanted, control), ITEM_VALUE_IN_USE)) <==> control & WAIT_FOR_ALL_BITS != 0
    ensures ClearsOnExit(Or(Or(wanted, control), ITEM_VALUE_IN_USE)) <==> control & CLEAR_EVENTS_ON_EXIT_BIT != 0
  {
  }

  lemma ControlParts(clear: bool, all: bool)
    ensures var c := Control(clear, all);
            && c & EVENT_BITS_CONTROL_BYTES == c
            && (c & WAIT_FOR_ALL_BITS != 0 <==> all) && (c & CLEAR_EVENTS_ON_EXIT_BIT != 0 <==> clear)
  {
  }

  /** The control bits carry the conditions of the call faithfully. */
  lemma ItemSaysIt(current: Bits, wanted: Bits, clear: bool, all: bool)
    requires Plain(wanted)
    ensures Matches(current, ItemValue(wanted, clear, all)) <==> TestWaitCondition(current, wanted, all)
    ensures ClearMask(ItemValue(wanted, clear, all)) == if clear then wanted else 0
  {
    hide AllIn, AnyIn, Wanted, WaitsForAll, ClearsOnExit, Control, Or;
    ControlParts(clear, all);
    ItemParts(wanted, Control(clear, all));
  }

  /** Fewer bits satisfy nobody new. */
  lemma FewerBits(more: Bits, cleared: Bits, wanted: Bits)
    ensures AllIn(wanted, Minus(more, cleared)) ==> AllIn(wanted, more)
    ensures AnyIn(wanted, Minus(more, cleared)) ==> AnyIn(wanted, more)
  {
  }

  lemma MatchesMonotone(more: Bits, cleared: Bits, value: Bits)
    ensures Matches(Minus(more, cleared), value) ==> Matches(more, value)
  {
    hide AllIn, AnyIn, Wanted, WaitsForAll, Minus;
    FewerBits(more, cleared, Wanted(value));
  }

  lemma StaysPlain(a: Bits, b: Bits)
    requires Plain(a)
    ensures Plain(Minus(a, b)) && (Plain(b) ==> Plain(Or(a, b)))
  {
  }

  predicate TimedOut(value: Bits) {
    value & UNBLOCKED_DUE_TO_BIT_SET == 0
  }

  /** A task reads its answer from the item, and can tell it from a time-out. */
  lemma StoredSaysIt(current: Bits)
    requires Plain(current)
    ensures !TimedOut(StoredValue(current)) && Minus(StoredValue(current), EVENT_BITS_CONTROL_BYTES) == current
  {
  }

  lemma UntouchedTimesOut(wanted: Bits, clear: bool, all: bool)
    requires Plain(wanted)
    ensures TimedOut(ItemValue(wanted, clear, all))
  {
  }

  lemma PlainParts(bits: Bits)
    requires Plain(bits)
    ensures Minus(bits, EVENT_BITS_CONTROL_BYTES) == bits
  {
  }

  // ---------------------------------------------------------------- the event list

  /** Who goes on waiting, in order. */
  function Left(ws: seq<Waiter>, current: Bits): seq<Waiter> {
    if ws == [] then []
    else if Matches(current, ws[0].value) then Left(ws[1..], current)
    else [ws[0]] + Left(ws[1..], current)
  }

  lemma {:induction false} LeftMembers(ws: seq<Waiter>, current: Bits)
    ensures forall w :: w in Left(ws, current) <==> w in ws && !Matches(current, w.value)
  {
    hide Matches;
    if ws != [] {
      LeftMembers(ws[1..], current);
    }
  }

  /** Who is unblocked, in order, and the value each finds in its item. */
  function Unblocked(ws: seq<Waiter>, current: Bits): seq<Waiter> {
    if ws == [] then []
    else if Matches(current, ws[0].value) then [Waiter(ws[0].task, StoredValue(current))] + Unblocked(ws[1..], current)
    else Unblocked(ws[1..], current)
  }

  /** The entry `u` left a satisfied waiter of the list. */
  ghost predicate WasSatisfied(ws: seq<Waiter>, current: Bits, u: Waiter) {
    exists w :: w in ws && Matches(current, w.value) && u == Waiter(w.task, StoredValue(current))
  }

  lemma {:induction false} UnblockedMembers(ws: seq<Waiter>, current: Bits)
    ensures forall u :: u in Unblocked(ws, current) <==> WasSatisfied(ws, current, u)
  {
    hide Matches, StoredValue;
    if ws != [] {
      var rest := ws[1..];
      UnblockedMembers(rest, current);
      forall u ensures u in Unblocked(ws, current) <==> WasSatisfied(ws, current, u) {
        if WasSatisfied(rest, current, u) {
          var w :| w in rest && Matches(current, w.value) && u == Waiter(w.task, StoredValue(current));
          assert w in ws;
        }
        if WasSatisfied(ws, current, u) {
          var w :| w in ws && Matches(current, w.value) && u == Waiter(w.task, StoredValue(current));
          assert w == ws[0] || w in rest;
        }
      }
    }
  }

  /** The bits that all unblocked waiters together clear. */
  function ToClear(ws: seq<Waiter>, current: Bits): Bits {
    if ws == [] then 0
    else if Matches(current, ws[0].value) then Or(ClearMask(ws[0].value), ToClear(ws[1..], current))
    else ToClear(ws[1..], current)
  }

  lemma OrLaws(a: Bits, b: Bits, c: Bits)
    ensures Or(Or(a, b), c) == Or(a, Or(b, c)) && Or(0, c) == c && Or(a, b) == Or(b, a)
  {
  }

  lemma {:induction false} LeftAppend(a: seq<Waiter>, b: seq<Waiter>, current: Bits)
    ensures Left(a + b, current) == Left(a, current) + Left(b, current)
  {
    hide Matches;
    if a == [] {
      assert a + b == b;
    } else {
      assert (a + b)[1..] == a[1..] + b;
      LeftAppend(a[1..], b, current);
    }
  }

  lemma {:induction false} UnblockedAppend(a: seq<Waiter>, b: seq<Waiter>, current: Bits)
    ensures Unblocked(a + b, current) == Unblocked(a, current) + Unblocked(b, current)
    ensures ToClear(a + b, current) == Or(ToClear(a, current), ToClear(b, current))
  {
    hide Or, Matches, ClearMask, StoredValue;
    if a == [] {
      assert a + b == b;
      OrLaws(0, 0, ToClear(b, current));
    } else {
      assert (a + b)[1..] == a[1..] + b;
      UnblockedAppend(a[1..], b, current);
      OrLaws(ClearMask(a[0].value), ToClear(a[1..], current), ToClear(b, current));
    }
  }

  // ---------------------------------------------------------------- the group as a value

  datatype Group = Group(
    bits: Bits,
    waiting: seq<Waiter>,
    released: seq<Waiter>      // tasks handed back to the scheduler so far, with the value left for each
  )

  /** xEventGroupSetBits. */
  function SetBits(g: Group, bits: Bits): Group {
    var now := Or(g.bits, bits);
    Group(Minus(now, ToClear(g.waiting, now)), Left(g.waiting, now), g.released + Unblocked(g.waiting, now))
  }

  function ClearBits(g: Group, bits: Bits): Group {
    g.(bits := Minus(g.bits, bits))
  }

  /** The suspended region of xEventGroupWaitBits. */
  function WaitBits(g: Group, t: Task, wanted: Bits, clear: bool, all: bool, wait: bool): (Group, Outcome) {
    if TestWaitCondition(g.bits, wanted, all) then
      (if clear then ClearBits(g, wanted) else g, Answer(g.bits))
    else if !wait then (g, Answer(g.bits))
    else (g.(waiting := g.waiting + [Waiter(t, ItemValue(wanted, clear, all))]), Blocks)
  }

  /** The suspended region of xEventGroupSync. */
  function Sync(g: Group, t: Task, bits: Bits, wanted: Bits, wait: bool): (Group, Outcome) {
    var g' := SetBits(g, bits);
    if TestWaitCondition(Or(g.bits, bits), wanted, true) then (ClearBits(g', wanted), Answer(Or(g.bits, bits)))
    else if wait then (g'.(waiting := g'.waiting + [Waiter(t, ItemValue(wanted, true, true))]), Blocks)
    else (g', Answer(g'.bits))
  }

  /** What a task that had blocked does with the value it finds in its item: unless the bits were set it
      looks at the group once more. */
  function AfterBlock(g: Group, value: Bits, wanted: Bits, clear: bool, all: bool): (Group, Bits) {
    if TimedOut(value) then
      (if clear && TestWaitCondition(g.bits, wanted, all) then ClearBits(g, wanted) else g,
       Minus(g.bits, EVENT_BITS_CONTROL_BYTES))
    else (g, Minus(value, EVENT_BITS_CONTROL_BYTES))
  }

  /** The condition of a call, on the bits themselves. */
  lemma ConditionIs(current: Bits, wanted: Bits, all: bool)
    ensures TestWaitCondition(current, wanted, all) <==>
            if all then wanted & current == wanted else wanted & current != 0
  {
  }

  /** A call whose condition is met is answered at once with the bits as they were, and has its bits cleared if it
      asked for that.  Otherwise it is answered with the bits and nothing changes, or, if it may wait, it is the one
      new entry at the end of the list; and that entry is satisfied by just the bits that would have met its
      condition, and clears just what the call would have cleared. */
  lemma WaitBitsOutcome(g: Group, t: Task, wanted: Bits, clear: bool, all: bool, wait: bool, current: Bits)
    requires Plain(wanted)
    ensures var (z, outcome) := WaitBits(g, t, wanted, clear, all, wait);
            var met := if all then wanted & g.bits == wanted else wanted & g.bits != 0;
            && (met ==> outcome == Answer(g.bits) && z == g.(bits := if clear then g.bits & !wanted else g.bits))
            && (!met && !wait ==> outcome == Answer(g.bits) && z == g)
            && (!met && wait ==> outcome == Blocks && Joined(g, z, t, wanted, clear, all, current))
  {
    ConditionIs(g.bits, wanted, all);
    MinusIs(g.bits, wanted);
    hide TestWaitCondition, ItemValue, Minus, Joined;
    NewEntry(g, t, wanted, clear, all, current);
  }

  lemma MinusIs(a: Bits, b: Bits)
    ensures Minus(a, b) == a & !b
  {
  }

  /** `t` joins the list with the conditions of its call. */
  ghost predicate Joined(g: Group, z: Group, t: Task, wanted: Bits, clear: bool, all: bool, current: Bits) {
    && z.bits == g.bits && z.released == g.released
    && |z.waiting| == |g.waiting| + 1 && z.waiting[..|g.waiting|] == g.waiting
    && var w := z.waiting[|g.waiting|];
    && w.task == t
    && (Matches(current, w.value) <==> if all then wanted & current == wanted else wanted & current != 0)
    && ClearMask(w.value) == if clear then wanted else 0
  }

  lemma NewEntry(g: Group, t: Task, wanted: Bits, clear: bool, all: bool, current: Bits)
    requires Plain(wanted)
    ensures Joined(g, g.(waiting := g.waiting + [Waiter(t, ItemValue(wanted, clear, all))]), t, wanted, clear, all,
            current)
  {
    ItemSaysIt(current, wanted, clear, all);
    ConditionIs(current, wanted, all);
    hide TestWaitCondition, ItemValue, Matches, ClearMask, Plain;
  }

  /** A rendezvous sets its bits first.  If all it waits for are there then, it is answered with them and withdraws
      them; if not, it waits for all of them, to withdraw them, or goes without. */
  lemma SyncOutcome(g: Group, t: Task, bits: Bits, wanted: Bits, wait: bool, current: Bits)
    requires Plain(wanted)
    ensures var (z, outcome) := Sync(g, t, bits, wanted, wait);
            var s, now := SetBits(g, bits), Or(g.bits, bits);
            var met := AllIn(wanted, now);
            && (met ==> outcome == Answer(now) && z == s.(bits := Minus(s.bits, wanted)))
            && (!met && !wait ==> outcome == Answer(s.bits) && z == s)
            && (!met && wait ==> outcome == Blocks && Joined(s, z, t, wanted, true, true, current))
  {
    hide SetBits, AllIn, AnyIn, ItemValue, Minus, Joined, Or, Plain;
    NewEntry(SetBits(g, bits), t, wanted, true, true, current);
  }

  /** A task whose item nobody has touched looks once more: it is answered with the bits as they are, and if
      they meet its condition by now, it clears them as it had asked. */
  lemma LateLook(g: Group, wanted: Bits, clear: bool, all: bool)
    requires Plain(g.bits) && Plain(wanted)
    ensures AfterBlock(g, ItemValue(wanted, clear, all), wanted, clear, all)
            == (g.(bits := if TestWaitCondition(g.bits, wanted, all) && clear then Minus(g.bits, wanted) else g.bits),
                g.bits)
  {
    UntouchedTimesOut(wanted, clear, all);
    PlainParts(g.bits);
    hide TimedOut, ItemValue, Minus, TestWaitCondition;
  }

  /** The kernel takes a task whose time has run out off the list. */
  function Expire(g: Group, i: nat): Group
    requires i < |g.waiting|
  {
    g.(waiting := g.waiting[..i] + g.waiting[i + 1..])
  }

  /** Setting bits unblocks exactly the waiters that the old and new bits together satisfy, each of them will
      return those bits, and everybody else goes on waiting. */
  lemma {:induction false} UnblocksExactly(g: Group, ws: seq<Waiter>, current: Bits, i: nat)
    requires i < |ws| && Plain(current)
    ensures |Left(ws, current)| + |Unblocked(ws, current)| == |ws|
    ensures !Matches(current, ws[i].value) ==> ws[i] in Left(ws, current)
    ensures Matches(current, ws[i].value) ==> Waiter(ws[i].task, StoredValue(current)) in Unblocked(ws, current)
    ensures forall w :: w in Left(ws, current) ==> w in ws && !Matches(current, w.value)
    ensures forall u :: u in Unblocked(ws, current) ==> WasSatisfied(ws, current, u)
    ensures forall wanted, clear, all :: AfterBlock(g, StoredValue(current), wanted, clear, all) == (g, current)
  {
    hide Matches, Or, Minus, TimedOut, StoredValue, TestWaitCondition, Plain;
    StoredSaysIt(current);
    LeftMembers(ws, current);
    UnblockedMembers(ws, current);
    if |ws| > 1 {
      UnblocksExactly(g, ws[1..], current, if i == 0 then 0 else i - 1);
    }
  }

  lemma AndOverOr(bits: bv32, a: bv32, b: bv32)
    ensures bits & (a | b) == (bits & a) | (bits & b)
  {
  }

  lemma OrIsZero(a: bv32, b: bv32)
    ensures a | b == 0 <==> a == 0 && b == 0
  {
  }

  lemma AnyInEither(bits: Bits, a: Bits, b: Bits)
    ensures AnyIn(bits, a) || AnyIn(bits, b) ==> AnyIn(bits, Or(a, b))
  {
    AndOverOr(bits, a, b);
    OrIsZero(bits & a, bits & b);
  }

  lemma EitherAnyIn(bits: Bits, a: Bits, b: Bits)
    ensures AnyIn(bits, Or(a, b)) ==> AnyIn(bits, a) || AnyIn(bits, b)
  {
    AndOverOr(bits, a, b);
    OrIsZero(bits & a, bits & b);
  }

  lemma NoneInZero(bits: Bits)
    ensures !AnyIn(bits, 0)
  {
  }

  /** Exactly the bits that some unblocked waiter asked to have cleared are cleared: no bit of anybody else,
      and none of a waiter that goes on waiting or did not ask. */
  lemma {:induction false} ClearsExactly(ws: seq<Waiter>, current: Bits, bits: Bits)
    ensures AnyIn(bits, ToClear(ws, current)) <==> Cleared(ws, current, bits)
  {
    hide Matches, Or, AnyIn, ClearMask;
    if ws == [] {
      NoneInZero(bits);
    } else {
      var rest := ws[1..];
      ClearsExactly(rest, current, bits);
      AnyInEither(bits, ClearMask(ws[0].value), ToClear(rest, current));
      EitherAnyIn(bits, ClearMask(ws[0].value), ToClear(rest, current));
      if i :| 0 <= i < |ws| && Matches(current, ws[i].value) && AnyIn(bits, ClearMask(ws[i].value)) {
        if i > 0 {
          assert rest[i - 1] == ws[i];
        }
      }
      if i :| 0 <= i < |rest| && Matches(current, rest[i].value) && AnyIn(bits, ClearMask(rest[i].value)) {
        assert ws[i + 1] == rest[i];
      }
    }
  }

  lemma AllInMinus(bits: Bits, now: Bits, cleared: Bits)
    ensures AllIn(bits, Minus(now, cleared)) <==> AllIn(bits, now) && !AnyIn(bits, cleared)
  {
    hide AllIn, AnyIn, Minus;
    if AllIn(bits, Minus(now, cleared)) {
      FewerBits(now, cleared, bits);
      LeftIsNotCleared(bits, now, cleared);
    }
    if AllIn(bits, now) && !AnyIn(bits, cleared) {
      NotClearedIsLeft(bits, now, cleared);
    }
  }

  lemma LeftIsNotCleared(bits: Bits, now: Bits, cleared: Bits)
    requires AllIn(bits, Minus(now, cleared))
    ensures !AnyIn(bits, cleared)
  {
  }

  lemma NotClearedIsLeft(bits: Bits, now: Bits, cleared: Bits)
    requires AllIn(bits, now) && !AnyIn(bits, cleared)
    ensures AllIn(bits, Minus(now, cleared))
  {
  }

  /** What a set makes of the group: bits are there afterwards exactly if they were there or were set, and no waiter
      satisfied by them all asked to have any of them cleared; on the list are exactly those that are not satisfied,
      and released are, behind those before, exactly the others. */
  lemma SetBitsOutcome(g: Group, bits: Bits, some: Bits)
    ensures var z, now := SetBits(g, bits), Or(g.bits, bits);
            && (AllIn(some, z.bits) <==> AllIn(some, now) && !Cleared(g.waiting, now, some))
            && (forall w :: w in z.waiting <==> w in g.waiting && !Matches(now, w.value))
            && g.released <= z.released && |z.waiting| + |z.released| == |g.waiting| + |g.released|
            && forall u :: u in z.released[|g.released|..] <==> WasSatisfied(g.waiting, now, u)
  {
    hide AllIn, AnyIn, Or, Minus, Matches, ClearMask, WasSatisfied, StoredValue;
    var now := Or(g.bits, bits);
    AllInMinus(some, now, ToClear(g.waiting, now));
    ClearsExactly(g.waiting, now, some);
    LeftMembers(g.waiting, now);
    UnblockedMembers(g.waiting, now);
    Partition(g.waiting, now);
  }

  /** A satisfied waiter asked to have one of these bits cleared. */
  ghost predicate Cleared(ws: seq<Waiter>, current: Bits, bits: Bits) {
    exists i :: 0 <= i < |ws| && Matches(current, ws[i].value) && AnyIn(bits, ClearMask(ws[i].value))
  }

  lemma {:induction false} Partition(ws: seq<Waiter>, current: Bits)
    ensures |Left(ws, current)| + |Unblocked(ws, current)| == |ws|
  {
    hide Matches;
    if ws != [] {
      Partition(ws[1..], current);
    }
  }

  // ---------------------------------------------------------------- the invariant

  /** No task on the list has its condition met by the bits as they are. */
  ghost predicate Inv(g: Group) {
    Plain(g.bits) && forall w :: w in g.waiting ==> !Matches(g.bits, w.value)
  }

  datatype Event =
    | Set(bits: Bits)
    | Clear(bits: Bits)
    | Wait(t: Task, wanted: Bits, clear: bool, all: bool, wait: bool)
    | Meet(t: Task, bits: Bits, wanted: Bits, wait: bool)
    | Late(value: Bits, wanted: Bits, clear: bool, all: bool)
    | TimeOut(i: nat)

  predicate Enabled(g: Group, e: Event) {
    match e
    case Set(bits) => Plain(bits)
    case Clear(bits) => Plain(bits)
    case Wait(_, wanted, _, _, _) => Plain(wanted) && wanted != 0
    case Meet(_, bits, wanted, _) => Plain(bits) && Plain(wanted) && wanted != 0
    case Late(_, wanted, _, _) => Plain(wanted) && wanted != 0
    case TimeOut(i) => i < |g.waiting|
  }

  function Step(g: Group, e: Event): Group
    requires Enabled(g, e)
  {
    match e
    case Set(bits) => SetBits(g, bits)
    case Clear(bits) => ClearBits(g, bits)
    case Wait(t, wanted, clear, all, wait) => WaitBits(g, t, wanted, clear, all, wait).0
    case Meet(t, bits, wanted, wait) => Sync(g, t, bits, wanted, wait).0
    case Late(value, wanted, clear, all) => AfterBlock(g, value, wanted, clear, all).0
    case TimeOut(i) => Expire(g, i)
  }

  lemma FewerBitsInv(g: Group, cleared: Bits)
    requires Inv(g)
    ensures Inv(ClearBits(g, cleared))
  {
    hide Matches, Minus, Plain;
    forall w | w in g.waiting ensures !Matches(Minus(g.bits, cleared), w.value) {
      MatchesMonotone(g.bits, cleared, w.value);
    }
    StaysPlain(g.bits, cleared);
  }

  lemma SetBitsInv(g: Group, bits: Bits)
    requires Plain(g.bits) && Plain(bits)
    ensures Inv(SetBits(g, bits))
  {
    hide Matches, Minus, Or, Plain, ToClear, Unblocked;
    var now := Or(g.bits, bits);
    StaysPlain(g.bits, bits);
    LeftMembers(g.waiting, now);
    FewerBitsInv(Group(now, Left(g.waiting, now), []), ToClear(g.waiting, now));
  }

  lemma StepInv(g: Group, e: Event)
    requires Inv(g) && Enabled(g, e)
    ensures Inv(Step(g, e))
  {
    hide Matches, Minus, Or, Plain, ToClear, Unblocked, TestWaitCondition, ItemValue, SetBits, ClearBits, Sync,
         Left, TimedOut;
    match e
    case Set(bits) => SetBitsInv(g, bits);
    case Clear(bits) => FewerBitsInv(g, bits);
    case Wait(t, wanted, clear, all, wait) =>
      FewerBitsInv(g, wanted);
      ItemSaysIt(g.bits, wanted, clear, all);
    case Meet(t, bits, wanted, wait) => MeetInv(g, t, bits, wanted, wait);
    case Late(value, wanted, clear, all) => FewerBitsInv(g, wanted);
    case TimeOut(i) =>
  }

  lemma MeetInv(g: Group, t: Task, bits: Bits, wanted: Bits, wait: bool)
    requires Inv(g) && Plain(bits) && Plain(wanted)
    ensures Inv(Sync(g, t, bits, wanted, wait).0)
  {
    hide Matches, Minus, Or, Plain, ToClear, Unblocked, AllIn, AnyIn, ItemValue, ClearBits, Left;
    var g' := SetBits(g, bits);
    SetBitsInv(g, bits);
    FewerBitsInv(g', wanted);
    FewerBits(Or(g.bits, bits), ToClear(g.waiting, Or(g.bits, bits)), wanted);
    ItemSaysIt(g'.bits, wanted, true, true);
  }

  ghost predicate Run(g: Group, es: seq<Event>, h: Group)
    decreases |es|
  {
    if es == [] then h == g else Enabled(g, es[0]) && Run(Step(g, es[0]), es[1..], h)
  }

  /** In every run, no task on the list ever has its condition met. */
  lemma {:induction false} RunInv(g: Group, es: seq<Event>, h: Group)
    requires Inv(g) && Run(g, es, h)
    ensures Inv(h)
    decreases |es|
  {
    hide Inv;
    if es != [] {
      StepInv(g, es[0]);
      RunInv(Step(g, es[0]), es[1..], h);
    }
  }

  // ---------------------------------------------------------------- rendezvous

  datatype Party = Party(task: Task, bits: Bits)

  predicate Disjoint(a: Bits, b: Bits) { a & b == 0 }

  function Union(ps: seq<Party>): Bits {
    if ps == [] then 0 else Or(Union(ps[..|ps| - 1]), ps[|ps| - 1].bits)
  }

  /** The parties arrive one after another, each setting its own bits and waiting for all. */
  function Arrived(g: Group, ps: seq<Party>, wanted: Bits): Group {
    if ps == [] then g
    else
      var last := ps[|ps| - 1];
      Sync(Arrived(g, ps[..|ps| - 1], wanted), last.task, last.bits, wanted, true).0
  }

  function Entry(p: Party, wanted: Bits): Waiter {
    Waiter(p.task, ItemValue(wanted, true, true))
  }

  function Entries(ps: seq<Party>, wanted: Bits): (r: seq<Waiter>)
    ensures |r| == |ps|
  {
    seq(|ps|, i requires 0 <= i < |ps| => Entry(ps[i], wanted))
  }

  function Answers(ps: seq<Party>, current: Bits): (r: seq<Waiter>)
    ensures |r| == |ps|
  {
    seq(|ps|, i requires 0 <= i < |ps| => Waiter(ps[i].task, StoredValue(current)))
  }

  lemma {:induction false} NobodyReady(ws: seq<Waiter>, current: Bits)
    requires forall w :: w in ws ==> !Matches(current, w.value)
    ensures Left(ws, current) == ws && Unblocked(ws, current) == [] && ToClear(ws, current) == 0
  {
    hide Matches, Or, ClearMask, StoredValue;
    if ws != [] {
      NobodyReady(ws[1..], current);
    }
  }

  lemma {:induction false} EverybodyReady(ps: seq<Party>, wanted: Bits, current: Bits)
    requires Matches(current, ItemValue(wanted, true, true)) && ClearMask(ItemValue(wanted, true, true)) == wanted
    ensures Left(Entries(ps, wanted), current) == [] && Unblocked(Entries(ps, wanted), current) == Answers(ps, current)
    ensures ToClear(Entries(ps, wanted), current) == if ps == [] then 0 else wanted
  {
    hide Matches, Or, ClearMask, StoredValue, ItemValue;
    if ps != [] {
      EverybodyReady(ps[1..], wanted, current);
      assert Entries(ps, wanted)[1..] == Entries(ps[1..], wanted);
      assert Answers(ps, current) == [Answers(ps, current)[0]] + Answers(ps[1..], current);
      SameTwice(wanted);
    }
  }

  lemma SameTwice(a: Bits)
    ensures Or(a, a) == a && Or(a, 0) == a
  {
  }

  lemma DisjointUnion(a: Bits, b: Bits, c: Bits)
    requires Disjoint(a, c) && Disjoint(b, c)
    ensures Disjoint(Or(a, b), c)
  {
  }

  /** Bits nobody has set yet are missing from the union. */
  lemma {:induction false} UnionDisjoint(ps: seq<Party>, b: Bits)
    requires forall i :: 0 <= i < |ps| ==> Disjoint(ps[i].bits, b)
    ensures Disjoint(Union(ps), b)
  {
    if ps == [] {
      assert Disjoint(0, b);
    } else {
      hide Disjoint, Or;
      UnionDisjoint(ps[..|ps| - 1], b);
      DisjointUnion(Union(ps[..|ps| - 1]), ps[|ps| - 1].bits, b);
    }
  }

  lemma Missing(wanted: Bits, rest: Bits, b: Bits, current: Bits)
    requires b != 0 && wanted == Or(rest, b) && Disjoint(current, b)
    ensures !AllIn(wanted, current)
  {
  }

  /** Parties with bits of their own, and bits that the group does not hold yet. */
  ghost predicate Parties(g: Group, ps: seq<Party>, wanted: Bits) {
    && g.waiting == [] && ps != [] && Plain(wanted) && wanted == Union(ps)
    && (forall i :: 0 <= i < |ps| ==> ps[i].bits != 0 && Disjoint(g.bits, ps[i].bits))
    && (forall i, j :: 0 <= i < j < |ps| ==> Disjoint(ps[i].bits, ps[j].bits))
  }

  /** While anybody is missing, the bits set so far do not make up the bits waited for. */
  lemma NotYet(g: Group, ps: seq<Party>, wanted: Bits, k: nat)
    requires Parties(g, ps, wanted) && k < |ps|
    ensures !AllIn(wanted, Or(g.bits, Union(ps[..k])))
  {
    hide Disjoint, Or, AllIn, Plain;
    var n := |ps| - 1;
    UnionDisjoint(ps[..k], ps[n].bits);
    DisjointUnion(g.bits, Union(ps[..k]), ps[n].bits);
    Missing(wanted, Union(ps[..n]), ps[n].bits, Or(g.bits, Union(ps[..k])));
  }

  /** Nobody is released until all have arrived. */
  lemma {:induction false} RendezvousWaits(g: Group, ps: seq<Party>, wanted: Bits, k: nat)
    requires Parties(g, ps, wanted) && k < |ps|
    ensures Arrived(g, ps[..k], wanted) == Group(Or(g.bits, Union(ps[..k])), Entries(ps[..k], wanted), g.released)
  {
    hide Disjoint, Or, AllIn, Minus, Matches, ItemValue, Left, Unblocked, ToClear, Plain, Parties;
    if k == 0 {
      SameTwice(g.bits);
      assert ps[..0] == [];
      assert g.waiting == [] by { PartiesFacts(g, ps, wanted); }
    } else {
      var before, p := ps[..k - 1], ps[k - 1];
      assert ps[..k][..k - 1] == before;
      RendezvousWaits(g, ps, wanted, k - 1);
      var h := Arrived(g, before, wanted);
      var now := Or(h.bits, p.bits);
      OrLaws(g.bits, Union(before), p.bits);
      NotYet(g, ps, wanted, k);
      assert Plain(wanted) by { PartiesFacts(g, ps, wanted); }
      ItemSaysIt(now, wanted, true, true);
      NobodyReady(h.waiting, now);
      MinusNothing(now);
      assert Entries(ps[..k], wanted) == Entries(before, wanted) + [Entry(p, wanted)];
    }
  }

  lemma PartiesFacts(g: Group, ps: seq<Party>, wanted: Bits)
    requires Parties(g, ps, wanted)
    ensures g.waiting == [] && ps != [] && Plain(wanted) && wanted == Union(ps) && Disjoint(g.bits, wanted)
  {
    hide Plain, Or;
    forall i | 0 <= i < |ps| ensures Disjoint(ps[i].bits, g.bits) {
      Symmetric(g.bits, ps[i].bits);
    }
    hide Disjoint;
    UnionDisjoint(ps, g.bits);
    Symmetric(wanted, g.bits);
  }

  lemma Symmetric(a: Bits, b: Bits)
    requires Disjoint(a, b)
    ensures Disjoint(b, a)
  {
  }

  lemma MinusNothing(a: Bits)
    ensures Minus(a, 0) == a
  {
  }

  lemma Withdrawn(a: Bits, wanted: Bits)
    requires Disjoint(a, wanted)
    ensures AllIn(wanted, Or(a, wanted))
    ensures Minus(Or(a, wanted), wanted) == a && Minus(a, wanted) == a
  {
    WithdrawnTwice(a, wanted);
    OrHolds(a, wanted);
    hide Or, Minus, AllIn;
  }

  lemma WithdrawnTwice(a: Bits, wanted: Bits)
    requires Disjoint(a, wanted)
    ensures Minus(Or(a, wanted), wanted) == a && Minus(a, wanted) == a
  {
  }

  lemma OrHolds(a: Bits, wanted: Bits)
    ensures AllIn(wanted, Or(a, wanted))
  {
  }

  /** The last to arrive releases everybody; all get all the bits, the last as its answer and the others in
      their items; and the group is left as it was, ready for the next round. */
  lemma RendezvousMeets(g: Group, ps: seq<Party>, wanted: Bits)
    requires Parties(g, ps, wanted)
    ensures var n, all := |ps| - 1, Or(g.bits, wanted);
            && Arrived(g, ps, wanted) == Group(g.bits, [], g.released + Answers(ps[..n], all))
            && Sync(Arrived(g, ps[..n], wanted), ps[n].task, ps[n].bits, wanted, true).1 == Answer(all)
  {
    hide Disjoint, Or, AllIn, Minus, Matches, ItemValue, Left, Unblocked, ToClear, Plain, Parties, ClearMask;
    PartiesFacts(g, ps, wanted);
    var n := |ps| - 1;
    RendezvousWaits(g, ps, wanted, n);
    var h := Arrived(g, ps[..n], wanted);
    var now := Or(h.bits, ps[n].bits);
    OrLaws(g.bits, Union(ps[..n]), ps[n].bits);
    assert now == Or(g.bits, wanted);
    Withdrawn(g.bits, wanted);
    ItemSaysIt(now, wanted, true, true);
    EverybodyReady(ps[..n], wanted, now);
    MinusNothing(now);
  }
}
