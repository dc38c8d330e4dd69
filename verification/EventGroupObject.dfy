/** The event group object of event_groups.c; each method is proved to follow its function in EventGroups. */
module EventGroupObject {
  import opened G = EventGroups

  class EventGroup {
    var uxEventBits: Bits
    var xTasksWaitingForBits: seq<Waiter>
    /** The tasks handed back to the scheduler, with the value left in the item of each. */
    var released: seq<Waiter>

    function State(): Group
      reads this
    {
      Group(uxEventBits, xTasksWaitingForBits, released)
    }

    constructor ()
      ensures State() == Group(0, [], [])
    {
      uxEventBits, xTasksWaitingForBits, released := 0, [], [];
    }

    /** vTaskRemoveFromUnorderedEventList: the item at `at` leaves the list with a value for its task. */
    method Remove(at: nat, value: Bits)
      requires at < |xTasksWaitingForBits|
      modifies `xTasksWaitingForBits, `released
      ensures xTasksWaitingForBits == old(xTasksWaitingForBits[..at] + xTasksWaitingForBits[at + 1..])
      ensures released == old(released) + [Waiter(old(xTasksWaitingForBits[at].task), Or(value, ITEM_VALUE_IN_USE))]
    {
      released := released + [Waiter(xTasksWaitingForBits[at].task, Or(value, ITEM_VALUE_IN_USE))];
      xTasksWaitingForBits := xTasksWaitingForBits[..at] + xTasksWaitingForBits[at + 1..];
    }

    /** xEventGroupSetBits: exactly the tasks satisfied by the old and the new bits together are unblocked,
        each with that value, and the bits they clear are cleared once all have been looked at. */
    method SetBits(bits: Bits) returns (after: Bits)
      requires Plain(bits)
      modifies this
      ensures State() == G.SetBits(old(State()), bits) && after == uxEventBits
    {
      hide Matches, ClearMask, Or, Minus, Plain, Left, Unblocked, ToClear, StoredValue;
      ghost var was, before, now := xTasksWaitingForBits, released, Or(uxEventBits, bits);
      var item, toClear := 0, 0 as Bits;
      ghost var done, left, gone := 0, [], [];
      uxEventBits := Or(uxEventBits, bits);
      assert was[..0] == [];
      NobodyReady([], now);
      while item < |xTasksWaitingForBits|
        invariant done <= |was| && uxEventBits == now && item == |left|
        invariant left == Left(was[..done], now) && gone == Unblocked(was[..done], now)
                  && toClear == ToClear(was[..done], now)
        invariant xTasksWaitingForBits == left + was[done..] && released == before + gone
        decreases |was| - done
      {
        var value := xTasksWaitingForBits[item].value;
        RestOfList(left, was, done);
        if Matches(uxEventBits, value) {
          NextLeaves(was, done, now);
          StoredIs(now);
          toClear := Or(toClear, ClearMask(value));
          Remove(item, Or(uxEventBits, UNBLOCKED_DUE_TO_BIT_SET));
          gone := gone + [Waiter(was[done].task, StoredValue(now))];
        } else {
          NextStays(was, done, now);
          item := item + 1;
          left := left + [was[done]];
        }
        done := done + 1;
      }
      assert done == |was| && was[..done] == was;
      uxEventBits := Minus(uxEventBits, toClear);
      after := uxEventBits;
    }

    /** xEventGroupClearBits. */
    method ClearBits(bits: Bits) returns (before: Bits)
      requires Plain(bits)
      modifies this
      ensures State() == G.ClearBits(old(State()), bits) && before == old(uxEventBits)
      ensures uxEventBits == old(uxEventBits) & !bits && xTasksWaitingForBits == old(xTasksWaitingForBits)
    {
      before := uxEventBits;
      uxEventBits := Minus(uxEventBits, bits);
    }

    /** vTaskPlaceOnUnorderedEventList. */
    method Place(t: Task, value: Bits)
      modifies `xTasksWaitingForBits
      ensures xTasksWaitingForBits == old(xTasksWaitingForBits) + [Waiter(t, Or(value, ITEM_VALUE_IN_USE))]
    {
      xTasksWaitingForBits := xTasksWaitingForBits + [Waiter(t, Or(value, ITEM_VALUE_IN_USE))];
    }

    /** xEventGroupWaitBits up to the point where the scheduler is resumed. */
    method WaitBits(t: Task, wanted: Bits, clear: bool, all: bool, wait: bool) returns (outcome: Outcome)
      requires Plain(wanted) && wanted != 0
      modifies this
      ensures (State(), outcome) == G.WaitBits(old(State()), t, wanted, clear, all, wait)
      ensures var met := if all then wanted & old(uxEventBits) == wanted else wanted & old(uxEventBits) != 0;
              && (outcome == Blocks <==> !met && wait)
              && (outcome.Answer? ==>
                    outcome.bits == old(uxEventBits) && xTasksWaitingForBits == old(xTasksWaitingForBits))
              && uxEventBits == if met && clear then old(uxEventBits) & !wanted else old(uxEventBits)
    {
      ConditionIs(uxEventBits, wanted, all);
      MinusIs(uxEventBits, wanted);
      hide TestWaitCondition, Minus, Or, Plain, Control;
      var current := uxEventBits;
      outcome := Answer(current);
      if TestWaitCondition(current, wanted, all) {
        if clear {
          uxEventBits := Minus(uxEventBits, wanted);
        }
      } else if wait {
        Place(t, Or(wanted, Control(clear, all)));
        outcome := Blocks;
      }
    }

    /** xEventGroupSync up to the point where the scheduler is resumed. */
    method Sync(t: Task, bits: Bits, wanted: Bits, wait: bool) returns (outcome: Outcome)
      requires Plain(bits) && Plain(wanted) && wanted != 0
      modifies this
      ensures (State(), outcome) == G.Sync(old(State()), t, bits, wanted, wait)
      ensures var now := Or(old(uxEventBits), bits);
              var met := AllIn(wanted, now);
              && (outcome == Blocks <==> !met && wait)
              && (met ==> outcome == Answer(now))
              && (outcome.Answer? && !met ==> outcome == Answer(uxEventBits))
    {
      hide G.SetBits, AllIn, AnyIn, Or, Minus, Plain;
      var original := uxEventBits;
      var _ := SetBits(bits);
      if TestWaitCondition(Or(original, bits), wanted, true) {
        outcome := Answer(Or(original, bits));
        uxEventBits := Minus(uxEventBits, wanted);
      } else if wait {
        Place(t, Or(wanted, Control(true, true)));
        outcome := Blocks;
      } else {
        outcome := Answer(uxEventBits);
      }
    }

    /** The rest of xEventGroupWaitBits for a task that had blocked, given the value of its item; with
        `clear` and `all` it is the rest of xEventGroupSync. */
    method AfterBlock(value: Bits, wanted: Bits, clear: bool, all: bool) returns (bits: Bits)
      modifies this
      ensures (State(), bits) == G.AfterBlock(old(State()), value, wanted, clear, all)
    {
      hide TestWaitCondition, Minus, TimedOut;
      bits := value;
      if TimedOut(value) {
        bits := uxEventBits;
        if TestWaitCondition(bits, wanted, all) {
          if clear {
            uxEventBits := Minus(uxEventBits, wanted);
          }
        }
      }
      bits := Minus(bits, EVENT_BITS_CONTROL_BYTES);
    }

    /** vEventGroupDelete up to freeing the memory: everybody is unblocked, and told of no bits. */
    method Delete()
      modifies this
      ensures xTasksWaitingForBits == [] && uxEventBits == old(uxEventBits)
      ensures released == old(released) + Dismissed(old(xTasksWaitingForBits))
    {
      hide Or;
      ghost var was, before, done := xTasksWaitingForBits, released, 0;
      while |xTasksWaitingForBits| > 0
        invariant done <= |was| && xTasksWaitingForBits == was[done..] && uxEventBits == old(uxEventBits)
        invariant released == before + Dismissed(was[..done])
        decreases |was| - done
      {
        OrLaws(0, 0, UNBLOCKED_DUE_TO_BIT_SET);
        Remove(0, UNBLOCKED_DUE_TO_BIT_SET);
        done := done + 1;
        assert Dismissed(was[..done]) == Dismissed(was[..done - 1]) + [Waiter(was[done - 1].task, StoredValue(0))];
      }
      assert was[..done] == was;
    }
  }

  /** The list at the cursor, when `done` entries have been looked at. */
  lemma RestOfList(left: seq<Waiter>, was: seq<Waiter>, done: nat)
    requires done < |was|
    ensures var list := left + was[done..]; var at := |left|;
            && at < |list| && list[at] == was[done]
            && list[..at] + list[at + 1..] == left + was[done + 1..]
            && list == left + [was[done]] + was[done + 1..]
  {
  }

  function Dismissed(ws: seq<Waiter>): (r: seq<Waiter>)
    ensures |r| == |ws|
  {
    seq(|ws|, i requires 0 <= i < |ws| => Waiter(ws[i].task, StoredValue(0)))
  }

  lemma StoredIs(current: Bits)
    ensures StoredValue(current) == Or(Or(current, UNBLOCKED_DUE_TO_BIT_SET), ITEM_VALUE_IN_USE)
  {
    hide Or;
  }

  lemma NextLeaves(ws: seq<Waiter>, k: nat, current: Bits)
    requires k < |ws| && Matches(current, ws[k].value)
    ensures Left(ws[..k + 1], current) == Left(ws[..k], current)
    ensures Unblocked(ws[..k + 1], current) == Unblocked(ws[..k], current) + [Waiter(ws[k].task, StoredValue(current))]
    ensures ToClear(ws[..k + 1], current) == Or(ToClear(ws[..k], current), ClearMask(ws[k].value))
  {
    hide Matches, Or, ClearMask, StoredValue;
    assert ws[..k + 1] == ws[..k] + [ws[k]];
    LeftAppend(ws[..k], [ws[k]], current);
    UnblockedAppend(ws[..k], [ws[k]], current);
    SameTwice(ClearMask(ws[k].value));
  }

  lemma NextStays(ws: seq<Waiter>, k: nat, current: Bits)
    requires k < |ws| && !Matches(current, ws[k].value)
    ensures Left(ws[..k + 1], current) == Left(ws[..k], current) + [ws[k]]
    ensures Unblocked(ws[..k + 1], current) == Unblocked(ws[..k], current)
    ensures ToClear(ws[..k + 1], current) == ToClear(ws[..k], current)
  {
    hide Matches, Or, ClearMask, StoredValue;
    assert ws[..k + 1] == ws[..k] + [ws[k]];
    LeftAppend(ws[..k], [ws[k]], current);
    UnblockedAppend(ws[..k], [ws[k]], current);
    SameTwice(ToClear(ws[..k], current));
  }
}

