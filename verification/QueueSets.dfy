/** Queue sets (queue.c:2935-3085): a set is a queue of member handles, and every post to a member puts one
    handle into it.  Members are used as the documentation demands: a member is read only after it was
    selected, once for each selection. */
module QueueSets {
  import opened QueueState

  datatype Member = Member(
    joined: bool,
    length: nat,
    messages: nat,
    lock: int,        // cTxLock
    selected: nat,    // selections not yet followed by a receive
    asked: nat := 0,  // calls of xQueueRemoveFromSet that have seen it in the set
    leaving: nat := 0 // and have seen it empty too, but have not yet taken it out
  )

  datatype System = System(
    length: nat,            // of the set
    tasks: nat,             // uxTaskGetNumberOfTasks
    handles: seq<nat>,      // the set's items, each the index of a member
    members: seq<Member>
  )

  datatype Event =
    | Post(i: nat, overwrite: bool)     // a send, or an interrupt's while the member is unlocked
    | PostLocked(i: nat, overwrite: bool)
    | LockMember(i: nat)
    | UnlockMember(i: nat)
    | Select
    | Take(i: nat)
    | Join(i: nat)
    // The three steps of xQueueRemoveFromSet: two tests, and the store, which alone is in a critical section.
    // Tasks take them, so none falls between the lock and the unlock of a member.
    | SeeMember(i: nat)
    | SeeMessages(i: nat)
    | Leave(i: nat)

  predicate Accepts(m: Member, overwrite: bool) {
    if overwrite then m.length == 1 else m.messages < m.length
  }

  predicate Replaces(m: Member, overwrite: bool) {
    overwrite && m.messages != 0
  }

  predicate Enabled(s: System, e: Event) {
    match e
    case Post(i, overwrite) => i < |s.members| && s.members[i].lock == UNLOCKED && Accepts(s.members[i], overwrite)
    case PostLocked(i, overwrite) => i < |s.members| && s.members[i].lock >= 0 && Accepts(s.members[i], overwrite)
    case LockMember(i) => i < |s.members| && s.members[i].lock == UNLOCKED
    case UnlockMember(i) => i < |s.members| && s.members[i].lock >= 0
    case Select => s.handles != [] && s.handles[0] < |s.members|
    case Take(i) => i < |s.members| && (s.members[i].joined ==> s.members[i].selected > 0) && s.members[i].messages > 0
    case Join(i) => i < |s.members| && !s.members[i].joined && s.members[i].messages == 0
        && s.members[i].lock == UNLOCKED
    case SeeMember(i) => i < |s.members| && s.members[i].joined && s.members[i].lock == UNLOCKED
    case SeeMessages(i) => i < |s.members| && s.members[i].asked > 0 && s.members[i].lock == UNLOCKED
    case Leave(i) => i < |s.members| && s.members[i].leaving > 0 && s.members[i].lock == UNLOCKED
  }

  function Copies(i: nat, k: nat): (r: seq<nat>)
    ensures |r| == k
  {
    seq(k, _ => i)
  }

  /** prvNotifyQueueSetContainer, `k` times, where there is a set: a full set is left alone. */
  function Announce(s: System, i: nat, k: nat): seq<nat>
    requires i < |s.members|
  {
    if !s.members[i].joined then s.handles
    else if |s.handles| + k <= s.length then s.handles + Copies(i, k)
    else if |s.handles| <= s.length then s.handles + Copies(i, s.length - |s.handles|)
    else s.handles
  }

  function Step(s: System, e: Event): System
    requires Enabled(s, e)
  {
    match e
    case Post(i, overwrite) =>
      var m := s.members[i];
      if Replaces(m, overwrite) then s
      else s.(members := s.members[i := m.(messages := m.messages + 1)], handles := Announce(s, i, 1))
    case PostLocked(i, overwrite) =>
      var m := s.members[i];
      s.(members := s.members[i := m.(messages := if Replaces(m, overwrite) then m.messages else m.messages + 1,
                                      lock := Bump(m.lock, s.tasks))])
    case LockMember(i) => s.(members := s.members[i := s.members[i].(lock := 0)])
    case UnlockMember(i) =>
      s.(members := s.members[i := s.members[i].(lock := UNLOCKED)],
          handles := Announce(s, i, Deferred(s.members[i].lock)))
    case Select =>
      var i := s.handles[0];
      s.(handles := s.handles[1..], members := s.members[i := s.members[i].(selected := s.members[i].selected + 1)])
    case Take(i) =>
      var m := s.members[i];
      s.(members := s.members[i := m.(messages := m.messages - 1,
                                      selected := if m.joined then m.selected - 1 else m.selected)])
    case Join(i) => s.(members := s.members[i := s.members[i].(joined := true)])
    case SeeMember(i) => s.(members := s.members[i := s.members[i].(asked := s.members[i].asked + 1)])
    case SeeMessages(i) =>
      var m := s.members[i];
      s.(members := s.members[i := m.(asked := m.asked - 1,
                                      leaving := if m.messages == 0 then m.leaving + 1 else m.leaving)])
    case Leave(i) => s.(members := s.members[i := s.members[i].(joined := false, leaving := s.members[i].leaving - 1)])
  }

  // ---------------------------------------------------------------- conservation

  /** Every message of a member is accounted for by a handle in the set, a selection not used up, or a
      notification put off until the member is unlocked. */
  ghost predicate Conserved(s: System, i: nat)
    requires i < |s.members|
  {
    var m := s.members[i];
    && UNLOCKED <= m.lock
    && (if m.joined then multiset(s.handles)[i] + m.selected + Deferred(m.lock) == m.messages <= m.length
        else multiset(s.handles)[i] == 0 && m.selected == 0)
  }

  /** What a member contributes to the set. */
  function Share(m: Member): int {
    if m.joined then m.messages - m.selected - Deferred(m.lock) else 0
  }

  function Shares(ms: seq<Member>): int {
    if ms == [] then 0 else Share(ms[0]) + Shares(ms[1..])
  }

  function Room(m: Member): nat {
    if m.joined then m.length else 0
  }

  /** The documentation asks for a set as long as its members together. */
  function Rooms(ms: seq<Member>): nat {
    if ms == [] then 0 else Room(ms[0]) + Rooms(ms[1..])
  }

  ghost predicate Inv(s: System) {
    && (forall i :: 0 <= i < |s.members| ==> Conserved(s, i))
    && |s.handles| == Shares(s.members)
    && (forall h :: h in s.handles ==> h < |s.members|)
  }

  lemma {:induction false} SharesUpdate(ms: seq<Member>, i: nat, m: Member)
    requires i < |ms|
    ensures Shares(ms[i := m]) == Shares(ms) - Share(ms[i]) + Share(m)
    ensures Rooms(ms[i := m]) == Rooms(ms) - Room(ms[i]) + Room(m)
  {
    if i == 0 {
      assert ms[0 := m][1..] == ms[1..];
    } else {
      assert ms[i := m][1..] == ms[1..][i - 1 := m];
      SharesUpdate(ms[1..], i - 1, m);
    }
  }

  ghost predicate AllFit(ms: seq<Member>) {
    forall j :: 0 <= j < |ms| ==> Share(ms[j]) <= Room(ms[j])
  }

  lemma {:induction false} SharesFit(ms: seq<Member>)
    requires AllFit(ms)
    ensures Shares(ms) <= Rooms(ms)
  {
    if ms != [] {
      SharesFit(ms[1..]);
    }
  }

  /** A set as long as the sum of its members never overflows: there is room whenever one is told of a
      message not yet announced, so the assertion in prvNotifyQueueSetContainer never fails. */
  lemma RoomForMore(s: System, i: nat, more: nat)
    requires Inv(s) && Rooms(s.members) <= s.length
    requires i < |s.members| && s.members[i].joined
             && s.members[i].messages - Deferred(s.members[i].lock) + more <= s.members[i].length
    ensures |s.handles| + more <= s.length
  {
    var ms, m := s.members, s.members[i];
    var fuller := m.(messages := m.messages + more, lock := m.lock);
    SharesUpdate(ms, i, fuller);
    var fuller' := ms[i := fuller];
    forall j | 0 <= j < |ms| ensures Share(fuller'[j]) <= Room(fuller'[j]) {
      assert Conserved(s, j);
    }
    SharesFit(fuller');
  }

  lemma CountCopies(hs: seq<nat>, i: nat, k: nat, j: nat)
    ensures multiset(hs + Copies(i, k))[j] == multiset(hs)[j] + if j == i then k else 0
    ensures forall h :: h in hs + Copies(i, k) ==> h in hs || h == i
    decreases k
  {
    if k == 0 {
      assert hs + Copies(i, 0) == hs;
    } else {
      CountCopies(hs, i, k - 1, j);
      assert hs + Copies(i, k) == hs + Copies(i, k - 1) + [i];
    }
  }

  /** A member takes up its handles and its counts in one go. */
  lemma Settled(s: System, i: nat, m: Member, k: nat)
    requires Inv(s) && i < |s.members| && s.members[i].joined && m.joined
    requires Conserved(System(s.length, s.tasks, s.handles + Copies(i, k), s.members[i := m]), i)
    ensures Inv(System(s.length, s.tasks, s.handles + Copies(i, k), s.members[i := m]))
  {
    var t := System(s.length, s.tasks, s.handles + Copies(i, k), s.members[i := m]);
    SharesUpdate(s.members, i, m);
    CountCopies(s.handles, i, k, i);
    assert Conserved(s, i);
    forall j | 0 <= j < |t.members| ensures Conserved(t, j) {
      assert Conserved(s, j);
      CountCopies(s.handles, i, k, j);
    }
  }

  /** A queue in no set does as it likes. */
  lemma OutsideInv(s: System, i: nat, m: Member)
    requires Inv(s) && i < |s.members| && !s.members[i].joined && !m.joined
    requires UNLOCKED <= m.lock && m.selected == s.members[i].selected
    ensures Inv(s.(members := s.members[i := m]))
  {
    var t := s.(members := s.members[i := m]);
    SharesUpdate(s.members, i, m);
    forall j | 0 <= j < |t.members| ensures Conserved(t, j) {
      assert Conserved(s, j);
    }
  }

  /** Whether a post to a locked member is accounted for, and whether a member that is taken out is still as empty
      as it was seen to be. */
  predicate Kept(s: System, e: Event)
    requires Enabled(s, e)
  {
    match e
    case PostLocked(i, overwrite) =>
      s.members[i].joined ==> (s.members[i].lock < s.tasks <==> !Replaces(s.members[i], overwrite))
    case Leave(i) => s.members[i].joined ==> s.members[i].messages == 0
    case _ => true
  }

  /** An event keeps the conservation exactly if it is kept in that sense. */
  lemma StepInv(s: System, e: Event)
    requires Inv(s) && Enabled(s, e) && Rooms(s.members) <= s.length
    ensures Inv(Step(s, e)) <==> Kept(s, e)
  {
    match e
    case Post(i, overwrite) => PostInv(s, i, overwrite);
    case PostLocked(i, overwrite) => LockedPostKeeps(s, i, overwrite);
    case LockMember(i) => LockInv(s, i);
    case UnlockMember(i) => UnlockInv(s, i);
    case Select => SelectInv(s);
    case Take(i) => TakeInv(s, i);
    case Join(i) => JoinInv(s, i);
    case SeeMember(i) => SeenInv(s, e);
    case SeeMessages(i) => SeenInv(s, e);
    case Leave(i) => LeaveKeeps(s, i);
  }

  lemma PostInv(s: System, i: nat, overwrite: bool)
    requires Inv(s) && Enabled(s, Post(i, overwrite)) && Rooms(s.members) <= s.length
    ensures Inv(Step(s, Post(i, overwrite)))
  {
    var m := s.members[i];
    if !Replaces(m, overwrite) && !m.joined {
      assert Conserved(s, i);
      OutsideInv(s, i, m.(messages := m.messages + 1));
    } else if !Replaces(m, overwrite) {
      assert Conserved(s, i);
      RoomForMore(s, i, 1);
      CountCopies(s.handles, i, 1, i);
      Settled(s, i, m.(messages := m.messages + 1), 1);
    }
  }

  lemma UnlockInv(s: System, i: nat)
    requires Inv(s) && Enabled(s, UnlockMember(i)) && Rooms(s.members) <= s.length
    ensures Inv(Step(s, UnlockMember(i)))
  {
    var m := s.members[i];
    assert Conserved(s, i);
    if m.joined {
      RoomForMore(s, i, m.lock);
      CountCopies(s.handles, i, m.lock, i);
      Settled(s, i, m.(lock := UNLOCKED), m.lock);
    } else {
      OutsideInv(s, i, m.(lock := UNLOCKED));
    }
  }

  /** An interrupt's post to a locked member of a set is accounted for exactly when the lock count can still grow
      and the post adds an item; an overwrite that replaces an item is counted although it adds none. */
  lemma LockedPostKeeps(s: System, i: nat, overwrite: bool)
    requires Inv(s) && Enabled(s, PostLocked(i, overwrite))
    ensures Inv(Step(s, PostLocked(i, overwrite))) <==>
              !s.members[i].joined || (s.members[i].lock < s.tasks <==> !Replaces(s.members[i], overwrite))
  {
    var t := Step(s, PostLocked(i, overwrite));
    assert Conserved(s, i);
    if !s.members[i].joined {
      OutsideInv(s, i, t.members[i]);
    } else if s.members[i].lock < s.tasks <==> !Replaces(s.members[i], overwrite) {
      assert s.handles + Copies(i, 0) == s.handles;
      Settled(s, i, t.members[i], 0);
    } else {
      assert !Conserved(t, i);
    }
  }

  lemma TakeInv(s: System, i: nat)
    requires Inv(s) && Enabled(s, Take(i))
    ensures Inv(Step(s, Take(i)))
  {
    assert Conserved(s, i);
    if s.members[i].joined {
      assert s.handles + Copies(i, 0) == s.handles;
      Settled(s, i, Step(s, Take(i)).members[i], 0);
    } else {
      OutsideInv(s, i, Step(s, Take(i)).members[i]);
    }
  }

  lemma LockInv(s: System, i: nat)
    requires Inv(s) && Enabled(s, LockMember(i))
    ensures Inv(Step(s, LockMember(i)))
  {
    var t := Step(s, LockMember(i));
    SharesUpdate(s.members, i, t.members[i]);
    forall j | 0 <= j < |t.members| ensures Conserved(t, j) {
      assert Conserved(s, j);
    }
  }

  lemma JoinInv(s: System, i: nat)
    requires Inv(s) && Enabled(s, Join(i))
    ensures Inv(Step(s, Join(i)))
  {
    var t := Step(s, Join(i));
    SharesUpdate(s.members, i, t.members[i]);
    forall j | 0 <= j < |t.members| ensures Conserved(t, j) {
      assert Conserved(s, j);
    }
    assert Conserved(s, i);
  }

  lemma SeenInv(s: System, e: Event)
    requires Inv(s) && Enabled(s, e) && (e.SeeMember? || e.SeeMessages?)
    ensures Inv(Step(s, e))
  {
    var t := Step(s, e);
    SharesUpdate(s.members, e.i, t.members[e.i]);
    forall j | 0 <= j < |t.members| ensures Conserved(t, j) {
      assert Conserved(s, j);
    }
  }

  /** Taking a member out of the set is accounted for exactly when it is empty at that moment, whatever the tests
      before have seen: nothing may be left in it that was posted since. */
  lemma LeaveKeeps(s: System, i: nat)
    requires Inv(s) && Enabled(s, Leave(i))
    ensures Inv(Step(s, Leave(i))) <==> !s.members[i].joined || s.members[i].messages == 0
  {
    var t := Step(s, Leave(i));
    assert Conserved(s, i);
    if !s.members[i].joined || s.members[i].messages == 0 {
      SharesUpdate(s.members, i, t.members[i]);
      forall j | 0 <= j < |t.members| ensures Conserved(t, j) {
        assert Conserved(s, j);
      }
    } else {
      assert !Conserved(t, i);
    }
  }

  lemma SelectInv(s: System)
    requires Inv(s) && Enabled(s, Select)
    ensures Inv(Step(s, Select))
  {
    var t, i := Step(s, Select), s.handles[0];
    assert s.handles == [i] + t.handles;
    assert multiset(s.handles) == multiset{i} + multiset(t.handles);
    assert Conserved(s, i) && s.members[i].joined;
    SharesUpdate(s.members, i, t.members[i]);
    forall j | 0 <= j < |t.members| ensures Conserved(t, j) {
      assert Conserved(s, j);
    }
    forall h | h in t.handles ensures h < |t.members| {
      assert h in s.handles;
    }
  }

  // ---------------------------------------------------------------- whole runs

  ghost predicate Run(s: System, es: seq<Event>, t: System)
    decreases |es|
  {
    if es == [] then t == s
    else
      && Enabled(s, es[0]) && Kept(s, es[0]) && Rooms(Step(s, es[0]).members) <= s.length
      && Run(Step(s, es[0]), es[1..], t)
  }

  predicate Outside(m: Member) {
    !m.joined && m.lock == UNLOCKED && m.selected == 0
  }

  ghost predicate Initial(s: System) {
    && s.handles == [] && Rooms(s.members) <= s.length
    && (forall i :: 0 <= i < |s.members| ==> Outside(s.members[i]))
  }

  lemma {:induction false} NoShares(ms: seq<Member>)
    requires forall i :: 0 <= i < |ms| ==> !ms[i].joined
    ensures Shares(ms) == 0
  {
    if ms != [] {
      NoShares(ms[1..]);
    }
  }

  lemma {:induction false} RunInv(s: System, es: seq<Event>, t: System)
    requires Inv(s) && Rooms(s.members) <= s.length && Run(s, es, t)
    ensures Inv(t) && Rooms(t.members) <= t.length
    decreases |es|
  {
    if es != [] {
      StepInv(s, es[0]);
      RunInv(Step(s, es[0]), es[1..], t);
    }
  }

  /** Conservation over every run in which locked posts are accounted for and no member is taken out of the set
      after something was posted to it, as Kept asks for; the set never overflows; and whoever has
      selected a member finds a message in it without having to wait. */
  lemma SetsConserve(s: System, es: seq<Event>, t: System, i: nat)
    requires Initial(s) && Run(s, es, t) && i < |t.members| && t.members[i].joined
    ensures multiset(t.handles)[i] + t.members[i].selected + Deferred(t.members[i].lock) == t.members[i].messages
    ensures |t.handles| <= t.length
    ensures t.members[i].selected > 0 ==> Enabled(t, Take(i))
    ensures forall h :: h in t.handles ==> h < |t.members| && t.members[h].joined && t.members[h].messages > 0
  {
    NoShares(s.members);
    assert Inv(s);
    RunInv(s, es, t);
    assert Conserved(t, i);
    forall j | 0 <= j < |t.members| ensures Share(t.members[j]) <= Room(t.members[j]) {
      assert Conserved(t, j);
    }
    SharesFit(t.members);
    forall h | h in t.handles ensures h < |t.members| && t.members[h].joined && t.members[h].messages > 0 {
      assert Conserved(t, h);
      assert multiset(t.handles)[h] > 0;
    }
  }

  /** xQueueGenericReset of a member. */
  function ResetMember(s: System, i: nat): System
    requires i < |s.members|
  {
    s.(members := s.members[i := s.members[i].(messages := 0, lock := UNLOCKED)])
  }

  /** A reset empties a member without a word to the set; that is harmless exactly when it was empty. */
  lemma ResetKeeps(s: System, i: nat)
    requires Inv(s) && i < |s.members| && s.members[i].joined && s.members[i].lock == UNLOCKED
    ensures Inv(ResetMember(s, i)) <==> s.members[i].messages == 0
  {
    var t := ResetMember(s, i);
    assert Conserved(s, i);
    if s.members[i].messages == 0 {
      assert t.members == s.members;
    } else {
      assert !Conserved(t, i);
    }
  }

  // ---------------------------------------------------------------- failing inputs

  /** The run of some events, whatever becomes of the conservation. */
  ghost predicate Reaches(s: System, es: seq<Event>, t: System)
    decreases |es|
  {
    if es == [] then t == s else Enabled(s, es[0]) && Reaches(Step(s, es[0]), es[1..], t)
  }

  lemma OneStep(s: System, e: Event, es: seq<Event>, t: System)
    requires Enabled(s, e) && Reaches(Step(s, e), es, t)
    ensures Reaches(s, [e] + es, t)
  {
    assert ([e] + es)[1..] == es;
  }

  lemma OneKept(s: System, e: Event, es: seq<Event>, t: System)
    requires Enabled(s, e) && Kept(s, e) && Rooms(Step(s, e).members) <= s.length && Run(Step(s, e), es, t)
    ensures Run(s, [e] + es, t)
  {
    assert ([e] + es)[1..] == es;
  }

  /** A mailbox of one message joins a set and is written. */
  lemma MailboxWritten(start: System)
    requires start == System(2, 3, [], [Member(false, 1, 0, UNLOCKED, 0)])
    ensures Initial(start)
            && Run(start, [Join(0), Post(0, false)], System(2, 3, [0], [Member(true, 1, 1, UNLOCKED, 0)]))
  {
    var s1 := Step(start, Join(0));
    assert s1 == System(2, 3, [], [Member(true, 1, 0, UNLOCKED, 0)]);
    var s2 := Step(s1, Post(0, false));
    assert Copies(0, 1) == [0];
    assert s2 == System(2, 3, [0], [Member(true, 1, 1, UNLOCKED, 0)]);
    OneKept(s1, Post(0, false), [], s2);
    OneKept(start, Join(0), [Post(0, false)], s2);
    assert [Join(0)] + [Post(0, false)] == [Join(0), Post(0, false)];
  }

  /** The set of one mailbox that is a member. */
  function Mailbox(handles: seq<nat>, messages: nat, lock: int, selected: nat): System {
    System(2, 3, handles, [Member(true, 1, messages, lock, selected)])
  }

  lemma SelectedTwice(s: System, t: System)
    requires s == Mailbox([0, 0], 1, UNLOCKED, 0) && t == Mailbox([], 0, UNLOCKED, 1)
    ensures Reaches(s, [Select, Take(0), Select], t)
  {
    var s4, s5 := Mailbox([0], 1, UNLOCKED, 1), Mailbox([0], 0, UNLOCKED, 0);
    assert Step(s, Select) == s4;
    assert Step(s4, Take(0)) == s5;
    assert Step(s5, Select) == t;
    OneStep(s5, Select, [], t);
    OneStep(s4, Take(0), [Select], t);
    assert [Select] + [Take(0), Select] == [Select, Take(0), Select] && [Take(0)] + [Select] == [Take(0), Select];
    hide Step, Reaches;
    OneStep(s, Select, [Take(0), Select], t);
  }

  lemma OverwrittenLocked(s: System, t: System)
    requires s == Mailbox([0], 1, UNLOCKED, 0) && t == Mailbox([0, 0], 1, UNLOCKED, 0)
    ensures Enabled(s, LockMember(0)) && Enabled(Step(s, LockMember(0)), PostLocked(0, true))
    ensures var u := Step(Step(s, LockMember(0)), PostLocked(0, true));
            Enabled(u, UnlockMember(0)) && Step(u, UnlockMember(0)) == t
  {
    assert Copies(0, 1) == [0];
    assert Step(s, LockMember(0)) == Mailbox([0], 1, 0, 0);
    assert Step(Mailbox([0], 1, 0, 0), PostLocked(0, true)) == Mailbox([0], 1, 1, 0);
  }

  /** While the mailbox is locked an interrupt overwrites its message.  The set is told twice of one message, so
      that, after the first selection and receive, the mailbox is selected once more and is empty. */
  lemma OverwriteToldTwice()
    ensures exists start, s, es, t ::
              && Initial(start) && Run(start, [Join(0), Post(0, false)], s) && Reaches(s, es, t)
              && !Inv(t) && |t.members| == 1 && t.members[0].selected > 0 && t.members[0].messages == 0
  {
    var s, u, t := Mailbox([0], 1, UNLOCKED, 0), Mailbox([0, 0], 1, UNLOCKED, 0), Mailbox([], 0, UNLOCKED, 1);
    MailboxWritten(System(2, 3, [], [Member(false, 1, 0, UNLOCKED, 0)]));
    SelectedTwice(u, t);
    OverwrittenLocked(s, u);
    assert !Conserved(t, 0);
    hide Step, Enabled, Reaches, Run, Initial;
    var es := [Select, Take(0), Select];
    OneStep(Step(Step(s, LockMember(0)), PostLocked(0, true)), UnlockMember(0), es, t);
    OneStep(Step(s, LockMember(0)), PostLocked(0, true), [UnlockMember(0)] + es, t);
    OneStep(s, LockMember(0), [PostLocked(0, true)] + ([UnlockMember(0)] + es), t);
  }

  lemma CappedRun(s: System, t: System)
    requires s == System(2, 1, [], [Member(true, 2, 0, 0, 0)])
             && t == System(2, 1, [0], [Member(true, 2, 2, UNLOCKED, 0)])
    ensures Enabled(s, PostLocked(0, false)) && Enabled(Step(s, PostLocked(0, false)), PostLocked(0, false))
    ensures var u := Step(Step(s, PostLocked(0, false)), PostLocked(0, false));
            Enabled(u, UnlockMember(0)) && Step(u, UnlockMember(0)) == t
  {
    assert Copies(0, 1) == [0];
    assert Step(s, PostLocked(0, false)) == System(2, 1, [], [Member(true, 2, 1, 1, 0)]);
    assert Step(Step(s, PostLocked(0, false)), PostLocked(0, false)) == System(2, 1, [], [Member(true, 2, 2, 1, 0)]);
  }

  lemma JoinedAndLocked(start: System, s: System, u: System)
    requires start == System(2, 1, [], [Member(false, 2, 0, UNLOCKED, 0)])
    requires s == System(2, 1, [], [Member(true, 2, 0, UNLOCKED, 0)])
             && u == System(2, 1, [], [Member(true, 2, 0, 0, 0)])
    ensures Initial(start) && Run(start, [Join(0)], s) && Enabled(s, LockMember(0)) && Step(s, LockMember(0)) == u
  {
    assert Step(start, Join(0)) == s;
    OneKept(start, Join(0), [], s);
  }

  /** With a single task, two interrupts post to a locked queue: the count of deferred notifications stops at one,
      and the second message is never announced. */
  lemma CappedCountLosesOne()
    ensures exists start, s, es, t ::
              && Initial(start) && Run(start, [Join(0)], s) && Reaches(s, es, t)
              && !Inv(t) && t == System(2, 1, [0], [Member(true, 2, 2, UNLOCKED, 0)])
  {
    var start, s := System(2, 1, [], [Member(false, 2, 0, UNLOCKED, 0)]),
        System(2, 1, [], [Member(true, 2, 0, UNLOCKED, 0)]);
    var u, t := System(2, 1, [], [Member(true, 2, 0, 0, 0)]), System(2, 1, [0], [Member(true, 2, 2, UNLOCKED, 0)]);
    JoinedAndLocked(start, s, u);
    CappedRun(u, t);
    assert !Conserved(t, 0);
    assert Reaches(t, [], t);
    hide Step, Enabled, Reaches, Run, Initial, Conserved;
    var e := PostLocked(0, false);
    OneStep(Step(Step(u, e), e), UnlockMember(0), [], t);
    OneStep(Step(u, e), e, [UnlockMember(0)] + [], t);
    OneStep(u, e, [e] + ([UnlockMember(0)] + []), t);
    OneStep(s, LockMember(0), [e] + ([e] + ([UnlockMember(0)] + [])), t);
  }

  lemma SeenEmpty(s: System, t: System)
    requires s == System(2, 3, [], [Member(false, 1, 0, UNLOCKED, 0)])
    requires t == System(2, 3, [], [Member(true, 1, 0, UNLOCKED, 0, 0, 1)])
    ensures Initial(s) && Run(s, [Join(0), SeeMember(0), SeeMessages(0)], t)
  {
    var s1, s2 := Mailbox([], 0, UNLOCKED, 0), System(2, 3, [], [Member(true, 1, 0, UNLOCKED, 0, 1, 0)]);
    assert Step(s, Join(0)) == s1;
    assert Step(s1, SeeMember(0)) == s2;
    assert Step(s2, SeeMessages(0)) == t;
    OneKept(s2, SeeMessages(0), [], t);
    OneKept(s1, SeeMember(0), [SeeMessages(0)], t);
    assert [SeeMember(0)] + [SeeMessages(0)] == [SeeMember(0), SeeMessages(0)];
    assert [Join(0)] + [SeeMember(0), SeeMessages(0)] == [Join(0), SeeMember(0), SeeMessages(0)];
    hide Run, Step;
    OneKept(s, Join(0), [SeeMember(0), SeeMessages(0)], t);
  }

  lemma TakenOutFull(s: System, t: System)
    requires s == System(2, 3, [], [Member(true, 1, 0, UNLOCKED, 0, 0, 1)])
    requires t == System(2, 3, [0], [Member(false, 1, 1, UNLOCKED, 0)])
    ensures Enabled(s, Post(0, false)) && Enabled(Step(s, Post(0, false)), Leave(0))
    ensures Step(Step(s, Post(0, false)), Leave(0)) == t
  {
    assert Copies(0, 1) == [0];
    assert Step(s, Post(0, false)) == System(2, 3, [0], [Member(true, 1, 1, UNLOCKED, 0, 0, 1)]);
  }

  lemma TakenThenSelected(s: System, t: System)
    requires s == System(2, 3, [0], [Member(false, 1, 1, UNLOCKED, 0)])
             && t == System(2, 3, [], [Member(false, 1, 0, UNLOCKED, 1)])
    ensures Reaches(s, [Take(0), Select], t)
  {
    var u := System(2, 3, [0], [Member(false, 1, 0, UNLOCKED, 0)]);
    assert Step(s, Take(0)) == u;
    assert Step(u, Select) == t;
    OneStep(u, Select, [], t);
    OneStep(s, Take(0), [Select], t);
    assert [Take(0)] + [Select] == [Take(0), Select];
  }

  /** A task that takes a mailbox out of its set has seen it empty.  Before it stores that, an interrupt posts.  The
      set is left with the handle of a queue that is no member of it, and selects it even after its message was
      taken. */
  lemma TakenOutTooLate()
    ensures exists start, s, es, t, after, end ::
              && Initial(start) && Run(start, [Join(0), SeeMember(0), SeeMessages(0)], s)
              && Reaches(s, es, t) && !Inv(t) && t == System(2, 3, [0], [Member(false, 1, 1, UNLOCKED, 0)])
              && Reaches(t, after, end) && end == System(2, 3, [], [Member(false, 1, 0, UNLOCKED, 1)])
  {
    var start := System(2, 3, [], [Member(false, 1, 0, UNLOCKED, 0)]);
    var s := System(2, 3, [], [Member(true, 1, 0, UNLOCKED, 0, 0, 1)]);
    var t, end := System(2, 3, [0], [Member(false, 1, 1, UNLOCKED, 0)]),
        System(2, 3, [], [Member(false, 1, 0, UNLOCKED, 1)]);
    SeenEmpty(start, s);
    TakenOutFull(s, t);
    TakenThenSelected(t, end);
    assert multiset(t.handles)[0] == 1;
    assert !Conserved(t, 0);
    assert Reaches(t, [], t);
    hide Step, Enabled, Reaches, Run, Initial, Conserved;
    OneStep(Step(s, Post(0, false)), Leave(0), [], t);
    OneStep(s, Post(0, false), [Leave(0)] + [], t);
  }

  /** A member that holds a message is reset: the set still selects it, and it is empty. */
  lemma ResetMisleads()
    ensures exists start, s ::
              && Initial(start) && Run(start, [Join(0), Post(0, false)], s) && Enabled(ResetMember(s, 0), Select)
              && var t := Step(ResetMember(s, 0), Select);
                 !Inv(t) && |t.members| == 1 && t.members[0].selected > 0 && t.members[0].messages == 0
  {
    var start, s := System(2, 3, [], [Member(false, 1, 0, UNLOCKED, 0)]),
        System(2, 3, [0], [Member(true, 1, 1, UNLOCKED, 0)]);
    MailboxWritten(start);
    var t := Step(ResetMember(s, 0), Select);
    assert t == System(2, 3, [], [Member(true, 1, 0, UNLOCKED, 1)]);
    assert !Conserved(t, 0);
  }

  // ---------------------------------------------------------------- the queues behind it

  /** The set's items are the handles of members. */
  ghost function Coded(hs: seq<nat>, names: seq<Item>): (r: seq<Item>)
    requires forall k :: 0 <= k < |hs| ==> hs[k] < |names|
    ensures |r| == |hs|
  {
    seq(|hs|, k requires 0 <= k < |hs| => names[hs[k]])
  }

  ghost predicate Is(m: Member, q: Queue) {
    m.length == q.length && m.messages == |q.items| && m.lock == q.receivers.lock
  }

  /** Queues `qs` with handles `names` and the queue `c` that is their set. */
  ghost predicate Stands(s: System, qs: seq<Queue>, c: Queue, names: seq<Item>) {
    && |qs| == |names| == |s.members| && c.length == s.length
    && (forall k :: 0 <= k < |s.handles| ==> s.handles[k] < |names|) && c.items == Coded(s.handles, names)
    && (forall i :: 0 <= i < |qs| ==> Is(s.members[i], qs[i]))
  }

  lemma MemberFollows(s: System, qs: seq<Queue>, c: Queue, names: seq<Item>, i: nat, m: Member, q: Queue)
    requires Stands(s, qs, c, names) && i < |qs| && Is(m, q)
    ensures Stands(s.(members := s.members[i := m]), qs[i := q], c, names)
  {
  }

  /** Telling the set queue-wise and handle-wise. */
  lemma SetFollows(s: System, qs: seq<Queue>, c: Queue, names: seq<Item>, i: nat, k: nat)
    requires Stands(s, qs, c, names) && i < |qs| && s.members[i].joined && |s.handles| + k <= s.length
    ensures Stands(s.(handles := Announce(s, i, k)), qs, Announced(c, names[i], k, s.tasks), names)
  {
    var hs := s.handles + Copies(i, k);
    AnnouncedItems(c, names[i], k, s.tasks);
    assert Coded(hs, names) == Coded(s.handles, names) + seq(k, _ => names[i]);
  }

  /** What a post makes of a member's queue, and of the set it is in. */
  lemma PostFollows(s: System, qs: seq<Queue>, c: Queue, names: seq<Item>, i: nat, item: Item, place: Place)
    requires Stands(s, qs, c, names) && Inv(s) && Rooms(s.members) <= s.length && Enabled(s, Post(i, place.Overwrite?))
    ensures var t, q := Step(s, Post(i, place.Overwrite?)), qs[i];
            if s.members[i].joined then
              Stands(t, qs[i := q.(items := Stored(q.items, item, place))],
                     Announced(c, names[i], if place.Overwrite? && q.items != [] then 0 else 1, s.tasks), names)
            else
              && Stands(t, qs[i := TaskSend(q, item, place)], c, names)
              && Stands(t, qs[i := IsrSend(q, item, place, s.tasks)], c, names)
  {
    var m, q := s.members[i], qs[i];
    var m' := Step(s, Post(i, place.Overwrite?)).members[i];
    assert Conserved(s, i) && Is(m, q);
    assert s.members[i := m] == s.members;
    if m.joined {
      var k := if place.Overwrite? && q.items != [] then 0 else 1;
      RoomForMore(s, i, k);
      SetFollows(s, qs, c, names, i, k);
      assert s.handles + Copies(i, 0) == s.handles;
      MemberFollows(s.(handles := Announce(s, i, k)), qs, Announced(c, names[i], k, s.tasks), names, i, m',
                    q.(items := Stored(q.items, item, place)));
    } else {
      MemberFollows(s, qs, c, names, i, m', TaskSend(q, item, place));
      MemberFollows(s, qs, c, names, i, m', IsrSend(q, item, place, s.tasks));
    }
  }

  lemma LockedPostFollows(s: System, qs: seq<Queue>, c: Queue, names: seq<Item>, i: nat, item: Item, place: Place)
    requires Stands(s, qs, c, names) && Enabled(s, PostLocked(i, place.Overwrite?))
    ensures Stands(Step(s, PostLocked(i, place.Overwrite?)), qs[i := IsrSend(qs[i], item, place, s.tasks)], c, names)
  {
    var t := Step(s, PostLocked(i, place.Overwrite?));
    assert Is(s.members[i], qs[i]);
    MemberFollows(s, qs, c, names, i, t.members[i], IsrSend(qs[i], item, place, s.tasks));
  }

  lemma LockFollows(s: System, qs: seq<Queue>, c: Queue, names: seq<Item>, i: nat)
    requires Stands(s, qs, c, names) && Enabled(s, LockMember(i))
    ensures Stands(Step(s, LockMember(i)), qs[i := Lock(qs[i])], c, names)
  {
    assert Is(s.members[i], qs[i]);
    MemberFollows(s, qs, c, names, i, Step(s, LockMember(i)).members[i], Lock(qs[i]));
  }

  /** What an unlock makes of them, by the first critical section of prvUnlockQueue. */
  lemma UnlockFollows(s: System, qs: seq<Queue>, c: Queue, names: seq<Item>, i: nat)
    requires Stands(s, qs, c, names) && Inv(s) && Rooms(s.members) <= s.length && Enabled(s, UnlockMember(i))
    ensures var t, q := Step(s, UnlockMember(i)), qs[i];
            if s.members[i].joined then
              Stands(t, qs[i := q.(receivers := q.receivers.(lock := UNLOCKED))],
                     Announced(c, names[i], q.receivers.lock, s.tasks), names)
            else Stands(t, qs[i := q.(receivers := UnlockOne(q.receivers))], c, names)
  {
    var m, q := s.members[i], qs[i];
    assert Conserved(s, i) && Is(m, q);
    if m.joined {
      RoomForMore(s, i, m.lock);
      SetFollows(s, qs, c, names, i, m.lock);
      MemberFollows(s.(handles := Announce(s, i, m.lock)), qs, Announced(c, names[i], m.lock, s.tasks), names, i,
                    m.(lock := UNLOCKED), q.(receivers := q.receivers.(lock := UNLOCKED)));
    } else {
      MemberFollows(s, qs, c, names, i, m.(lock := UNLOCKED), q.(receivers := UnlockOne(q.receivers)));
    }
  }

  /** Selecting is receiving a handle from the set. */
  lemma SelectFollows(s: System, qs: seq<Queue>, c: Queue, names: seq<Item>)
    requires Stands(s, qs, c, names) && Enabled(s, Select)
    ensures c.items != [] && c.items[0] == names[s.handles[0]]
    ensures Stands(Step(s, Select), qs, TaskReceive(c), names)
  {
    var t, i := Step(s, Select), s.handles[0];
    assert Is(s.members[i], qs[i]) && qs[i := qs[i]] == qs;
    assert Coded(t.handles, names) == Coded(s.handles, names)[1..];
  }

  lemma TakeFollows(s: System, qs: seq<Queue>, c: Queue, names: seq<Item>, i: nat)
    requires Stands(s, qs, c, names) && Enabled(s, Take(i))
    ensures qs[i].items != []
    ensures var t := Step(s, Take(i));
            Stands(t, qs[i := TaskReceive(qs[i])], c, names) && Stands(t, qs[i := IsrReceive(qs[i], s.tasks)], c, names)
  {
    assert Is(s.members[i], qs[i]);
    MemberFollows(s, qs, c, names, i, Step(s, Take(i)).members[i], TaskReceive(qs[i]));
    MemberFollows(s, qs, c, names, i, Step(s, Take(i)).members[i], IsrReceive(qs[i], s.tasks));
  }
}
