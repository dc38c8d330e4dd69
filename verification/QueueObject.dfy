/** The queue object of queue.c: a byte ring used from both ends, the event lists and lock counts, and the
    critical sections of the calls.  Each method is proved to follow its function in module QueueState. */
module QueueObject {
  import opened EventLists
  import opened Rings
  import opened QueueState

  const INT8_MAX: int := 127

  datatype Got = Nothing | Got(item: Item)

  /** Where the k-th item slot starts. */
  function Offset(k: nat, size: nat): nat {
    k * size
  }

  lemma OffsetStep(k: nat, size: nat)
    ensures Offset(k + 1, size) == Offset(k, size) + size && Offset(0, size) == 0
  {
  }

  lemma {:induction false} OffsetOrder(k: nat, j: nat, size: nat)
    requires k < j
    ensures Offset(k, size) + size <= Offset(j, size)
  {
    hide Offset;
    OffsetStep(j - 1, size);
    if k < j - 1 {
      OffsetOrder(k, j - 1, size);
    }
  }

  /** The storage cut into its item slots. */
  ghost function SlotsOf(storage: seq<byte>, n: nat, size: nat): (r: seq<Item>)
    requires |storage| == Offset(n, size)
    ensures |r| == n
  {
    seq(n, k requires 0 <= k < n => SlotAt(storage, n, size, k))
  }

  ghost function SlotAt(storage: seq<byte>, n: nat, size: nat, k: nat): (r: Item)
    requires |storage| == Offset(n, size) && k < n
    ensures |r| == size
  {
    OffsetOrder(k, n, size);
    storage[Offset(k, size)..Offset(k, size) + size]
  }

  /** A copy into one slot leaves the others alone. */
  lemma SlotWritten(was: seq<byte>, now: seq<byte>, n: nat, size: nat, k: nat, item: Item)
    requires |was| == |now| == Offset(n, size) && k < n && |item| == size
    requires forall i :: 0 <= i < |was| ==>
               now[i] == if Offset(k, size) <= i < Offset(k, size) + size then item[i - Offset(k, size)] else was[i]
    ensures SlotsOf(now, n, size) == SlotsOf(was, n, size)[k := item]
  {
    hide Offset, SlotAt;
    forall j | 0 <= j < n ensures SlotAt(now, n, size, j) == if j == k then item else SlotAt(was, n, size, j) {
      OneSlot(was, now, n, size, k, item, j);
    }
  }

  lemma OneSlot(was: seq<byte>, now: seq<byte>, n: nat, size: nat, k: nat, item: Item, j: nat)
    requires |was| == |now| == Offset(n, size) && k < n && j < n && |item| == size
    requires forall i :: 0 <= i < |was| ==>
               now[i] == if Offset(k, size) <= i < Offset(k, size) + size then item[i - Offset(k, size)] else was[i]
    ensures SlotAt(now, n, size, j) == if j == k then item else SlotAt(was, n, size, j)
  {
    hide Offset;
    OffsetOrder(j, n, size);
    var from := Offset(j, size);
    if j < k {
      OffsetOrder(j, k, size);
      assert now[from..from + size] == was[from..from + size];
    } else if k < j {
      OffsetOrder(k, j, size);
      assert now[from..from + size] == was[from..from + size];
    } else {
      assert now[from..from + size] == item;
    }
  }

  // The ring of slots at both ends.

  /** Writing behind the last item appends. */
  lemma WriteBehind(slots: seq<Item>, front: nat, m: nat, item: Item)
    requires front < |slots| && m < |slots|
    ensures var w := Slot(|slots|, front + m);
            w < |slots| && Window(slots[w := item], front, m + 1) == Window(slots, front, m) + [item]
    ensures Slot(|slots|, front + (m + 1)) == (var w := Slot(|slots|, front + m); if w + 1 == |slots| then 0 else w + 1)
  {
  }

  /** Writing in front of the first item prepends. */
  lemma WriteInFront(slots: seq<Item>, read: nat, m: nat, item: Item)
    requires read < |slots| && m < |slots|
    ensures Slot(|slots|, read + 1) < |slots|
    ensures Window(slots[read := item], read, m + 1) == [item] + Window(slots, Slot(|slots|, read + 1), m)
    ensures Slot(|slots|, read + (m + 1)) == Slot(|slots|, Slot(|slots|, read + 1) + m)
  {
  }

  class Queue {
    const pucStorage: array<byte>               // from pcHead to pcTail
    const pcTail: nat
    const uxLength: nat
    const uxItemSize: nat
    const handle: Item                          // the bytes of the pointer to this queue
    var pcWriteTo: nat
    var pcReadFrom: nat
    var uxMessagesWaiting: nat
    var xTasksWaitingToSend: seq<Entry<Task>>
    var xTasksWaitingToReceive: seq<Entry<Task>>
    var cRxLock: int
    var cTxLock: int
    var pxQueueSetContainer: Queue?

    ghost var writeSlot: nat
    ghost var readSlot: nat

    /** pcWriteTo is always messages + 1 slots after pcReadFrom.  Where nothing is stored, as in semaphores, the
        count is not held within the length by this alone: see CopyDataToQueue. */
    ghost predicate Valid()
      reads this, pucStorage
    {
      && 0 < uxLength && pucStorage.Length == pcTail == Offset(uxLength, uxItemSize)
      && readSlot < uxLength && writeSlot < uxLength
      && pcReadFrom == Offset(readSlot, uxItemSize) && pcWriteTo == Offset(writeSlot, uxItemSize)
      && (uxItemSize > 0 ==> uxMessagesWaiting <= uxLength && writeSlot == Slot(uxLength, Front() + uxMessagesWaiting))
      && UNLOCKED <= cRxLock <= INT8_MAX && UNLOCKED <= cTxLock <= INT8_MAX
    }

    ghost function Front(): nat
      reads this
    {
      Slot(uxLength, readSlot + 1)
    }

    ghost function Items(): (r: seq<Item>)
      requires Valid()
      reads this, pucStorage
      ensures |r| == uxMessagesWaiting
    {
      if uxItemSize == 0 then seq(uxMessagesWaiting, _ => [])
      else Window(SlotsOf(pucStorage[..], uxLength, uxItemSize), Front(), uxMessagesWaiting)
    }

    ghost function State(): QueueState.Queue
      requires Valid()
      reads this, pucStorage
    {
      QueueState.Queue(uxLength, Items(), Waiters(xTasksWaitingToSend, cRxLock),
          Waiters(xTasksWaitingToReceive, cTxLock))
    }

    /** xQueueGenericCreate and prvInitialiseNewQueue. */
    constructor (length: nat, itemSize: nat, handle: Item)
      requires 0 < length
      ensures Valid() && State() == QueueState.Queue(length, [], Waiters([], UNLOCKED), Waiters([], UNLOCKED))
      ensures uxItemSize == itemSize && this.handle == handle && pxQueueSetContainer == null && fresh(pucStorage)
    {
      uxLength, uxItemSize, this.handle := length, itemSize, handle;
      pcTail := Offset(length, itemSize);
      pucStorage := new byte[Offset(length, itemSize)];
      uxMessagesWaiting := 0;
      pcWriteTo, pcReadFrom := 0, Offset(length - 1, itemSize);
      xTasksWaitingToSend, xTasksWaitingToReceive := [], [];
      cRxLock, cTxLock := UNLOCKED, UNLOCKED;
      pxQueueSetContainer := null;
      writeSlot, readSlot := 0, length - 1;
    }

    /** A memcpy of one item into a slot. */
    method CopyIn(to: nat, item: Item, ghost slot: nat)
      requires pucStorage.Length == Offset(uxLength, uxItemSize) && slot < uxLength && to == Offset(slot, uxItemSize)
      requires |item| == uxItemSize
      modifies pucStorage
      ensures SlotsOf(pucStorage[..], uxLength, uxItemSize)
              == SlotsOf(old(pucStorage[..]), uxLength, uxItemSize)[slot := item]
    {
      hide Offset, SlotsOf;
      OffsetOrder(slot, uxLength, uxItemSize);
      forall j | 0 <= j < uxItemSize {
        pucStorage[to + j] := item[j];
      }
      SlotWritten(old(pucStorage[..]), pucStorage[..], uxLength, uxItemSize, slot, item);
    }

    /** Where an item goes in effect: with no bytes to overwrite, an overwrite adds one more. */
    function InEffect(place: Place): Place {
      if uxItemSize == 0 then Place.Back else place
    }

    /** prvCopyDataToQueue.  The count stays within the length, unless a full queue that stores nothing is
        overwritten. */
    method CopyDataToQueue(item: Item, place: Place)
      requires Valid() && |item| == uxItemSize && Accepts(State(), place)
      requires place.Overwrite? ==> uxLength == 1
      modifies `pcWriteTo, `pcReadFrom, `uxMessagesWaiting, `writeSlot, `readSlot, pucStorage
      ensures Valid() && Items() == Stored(old(Items()), item, InEffect(place))
      ensures uxItemSize > 0 && place.Front? ==> Items() == [item] + old(Items())
      ensures uxItemSize > 0 && place.Overwrite? ==> Items() == [item]
      ensures uxItemSize == 0 || place.Back? ==> Items() == old(Items()) + [item]
      ensures uxMessagesWaiting <= uxLength <==> uxItemSize > 0 || old(uxMessagesWaiting) < uxLength
    {
      hide Offset, SlotsOf, Window, Slot;
      var messages := uxMessagesWaiting;
      ghost var slots := SlotsOf(pucStorage[..], uxLength, uxItemSize);
      if uxItemSize == 0 {
        assert item == [];
      } else if place.Back? {
        WriteBehind(slots, Front(), messages, item);
        NextSlot(writeSlot);
        CopyIn(pcWriteTo, item, writeSlot);
        pcWriteTo := pcWriteTo + uxItemSize;
        writeSlot := writeSlot + 1;
        if pcWriteTo >= pcTail {
          pcWriteTo := 0;
          writeSlot := 0;
        }
      } else {
        WriteInFront(slots, readSlot, if messages < uxLength then messages else 0, item);
        PreviousSlot(readSlot);
        CopyIn(pcReadFrom, item, readSlot);
        readSlot := if readSlot == 0 then uxLength - 1 else readSlot - 1;
        if pcReadFrom < uxItemSize {
          pcReadFrom := pcTail - uxItemSize;
        } else {
          pcReadFrom := pcReadFrom - uxItemSize;
        }
        if place.Overwrite? {
          if messages > 0 {
            messages := messages - 1;
          }
        }
      }
      uxMessagesWaiting := messages + 1;
    }

    lemma NextSlot(k: nat)
      requires k < uxLength && pcTail == Offset(uxLength, uxItemSize) && uxItemSize > 0
      ensures Offset(k, uxItemSize) + uxItemSize == Offset(k + 1, uxItemSize) && Offset(0, uxItemSize) == 0
      ensures Offset(k, uxItemSize) + uxItemSize >= pcTail <==> k + 1 == uxLength
    {
      hide Offset;
      OffsetStep(k, uxItemSize);
      if k + 1 < uxLength {
        OffsetOrder(k + 1, uxLength, uxItemSize);
      }
    }

    lemma PreviousSlot(k: nat)
      requires k < uxLength && pcTail == Offset(uxLength, uxItemSize) && uxItemSize > 0
      ensures Offset(k, uxItemSize) < uxItemSize <==> k == 0
      ensures k > 0 ==> Offset(k, uxItemSize) - uxItemSize == Offset(k - 1, uxItemSize)
      ensures pcTail - uxItemSize == Offset(uxLength - 1, uxItemSize)
      ensures Slot(uxLength, (if k == 0 then uxLength - 1 else k - 1) + 1) == k
    {
      hide Offset;
      OffsetStep(uxLength - 1, uxItemSize);
      if k > 0 {
        OffsetStep(k - 1, uxItemSize);
        OffsetOrder(0, k, uxItemSize);
      }
    }

    /** prvCopyDataFromQueue: the read pointer moves on, the count is the caller's business. */
    method CopyDataFromQueue() returns (item: Item)
      requires Valid() && uxMessagesWaiting > 0
      modifies `pcReadFrom, `readSlot
      ensures item == old(Items())[0]
      ensures readSlot == (if uxItemSize == 0 then old(readSlot) else old(Front())) < uxLength
      ensures pcReadFrom == Offset(readSlot, uxItemSize)
    {
      hide Offset;
      item := [];
      if uxItemSize != 0 {
        NextSlot(readSlot);
        pcReadFrom := pcReadFrom + uxItemSize;
        readSlot := readSlot + 1;
        if pcReadFrom >= pcTail {
          pcReadFrom := 0;
          readSlot := 0;
        }
        OffsetOrder(readSlot, uxLength, uxItemSize);
        item := pucStorage[pcReadFrom..pcReadFrom + uxItemSize];
        assert item == SlotAt(pucStorage[..], uxLength, uxItemSize, readSlot);
      }
    }

    // ---------------------------------------------------------------- event lists

    /** xTaskRemoveFromEventList, if a receiver waits. */
    method WakeReceiver()
      modifies `xTasksWaitingToReceive
      ensures old(xTasksWaitingToReceive) == [] ==> xTasksWaitingToReceive == []
      ensures old(xTasksWaitingToReceive) != [] ==> xTasksWaitingToReceive == old(xTasksWaitingToReceive)[1..]
      ensures xTasksWaitingToReceive == WakeOne(Waiters(old(xTasksWaitingToReceive), cTxLock)).list
    {
      if xTasksWaitingToReceive != [] {
        xTasksWaitingToReceive := xTasksWaitingToReceive[1..];
      }
    }

    method WakeSender()
      modifies `xTasksWaitingToSend
      ensures old(xTasksWaitingToSend) == [] ==> xTasksWaitingToSend == []
      ensures old(xTasksWaitingToSend) != [] ==> xTasksWaitingToSend == old(xTasksWaitingToSend)[1..]
      ensures xTasksWaitingToSend == WakeOne(Waiters(old(xTasksWaitingToSend), cRxLock)).list
    {
      if xTasksWaitingToSend != [] {
        xTasksWaitingToSend := xTasksWaitingToSend[1..];
      }
    }

    /** prvIncrementQueueTxLock, with its assertion. */
    method IncrementTxLock(tasks: nat)
      requires 0 <= cTxLock <= INT8_MAX && (cTxLock < tasks ==> cTxLock != INT8_MAX)
      modifies `cTxLock
      ensures cTxLock == Bump(old(cTxLock), tasks) <= INT8_MAX
      ensures cTxLock == old(cTxLock) + if old(cTxLock) < tasks then 1 else 0
    {
      if cTxLock < tasks {
        cTxLock := cTxLock + 1;
      }
    }

    method IncrementRxLock(tasks: nat)
      requires 0 <= cRxLock <= INT8_MAX && (cRxLock < tasks ==> cRxLock != INT8_MAX)
      modifies `cRxLock
      ensures cRxLock == Bump(old(cRxLock), tasks) <= INT8_MAX
      ensures cRxLock == old(cRxLock) + if old(cRxLock) < tasks then 1 else 0
    {
      if cRxLock < tasks {
        cRxLock := cRxLock + 1;
      }
    }

    // ---------------------------------------------------------------- queue sets

    /** The set of a member can be told of one more item. */
    ghost predicate SetReady(items: nat, tasks: nat)
      reads this, pxQueueSetContainer, if pxQueueSetContainer == null then {} else {pxQueueSetContainer.pucStorage}
    {
      pxQueueSetContainer != null ==>
        var c := pxQueueSetContainer;
        && c != this && c.pucStorage != pucStorage && c.Valid() && c.uxItemSize == |handle|
        && c.uxMessagesWaiting + items <= c.uxLength && tasks <= INT8_MAX
    }

    /** What may change when a set is told. */
    ghost function SetFrame(): set<object>
      reads this
    {
      if pxQueueSetContainer == null then {} else {pxQueueSetContainer, pxQueueSetContainer.pucStorage}
    }

    /** prvNotifyQueueSetContainer: the set gets the handle of this queue. */
    method NotifyQueueSetContainer(tasks: nat)
      requires pxQueueSetContainer != null && SetReady(1, tasks)
      modifies pxQueueSetContainer, pxQueueSetContainer.pucStorage
      ensures pxQueueSetContainer.Valid()
      ensures pxQueueSetContainer.State() == IsrSend(old(pxQueueSetContainer.State()), handle, Place.Back, tasks)
      ensures pxQueueSetContainer.Items() == old(pxQueueSetContainer.Items()) + [handle]
      ensures pxQueueSetContainer.pxQueueSetContainer == old(pxQueueSetContainer.pxQueueSetContainer)
    {
      hide Valid, Items, Notify;
      var c: Queue := pxQueueSetContainer;
      c.CopyDataToQueue(handle, Place.Back);
      c.NotifyReceiver(tasks);
    }

    /** What an interrupt does for the receivers. */
    method NotifyReceiver(tasks: nat)
      requires Valid() && (cTxLock < tasks ==> cTxLock != INT8_MAX)
      modifies `cTxLock, `xTasksWaitingToReceive
      ensures Valid() && State() == old(State()).(receivers := Notify(old(State().receivers), tasks))
      ensures pxQueueSetContainer == old(pxQueueSetContainer)
    {
      hide Offset, SlotsOf, Window, Slot;
      if cTxLock == UNLOCKED {
        WakeReceiver();
      } else {
        IncrementTxLock(tasks);
      }
    }

    /** The notification that follows a post: to the set, if there is one, and else to a receiver.  A set is
        told nothing when an item was overwritten. */
    method Notified(place: Place, previous: nat, tasks: nat)
      requires Valid() && SetReady(1, tasks)
      modifies `xTasksWaitingToReceive, SetFrame()
      ensures Valid() && pxQueueSetContainer == old(pxQueueSetContainer)
      ensures Items() == old(Items()) && cTxLock == old(cTxLock) && cRxLock == old(cRxLock)
      ensures xTasksWaitingToSend == old(xTasksWaitingToSend)
      ensures pxQueueSetContainer == null ==>
                xTasksWaitingToReceive == WakeOne(Waiters(old(xTasksWaitingToReceive), cTxLock)).list
      ensures pxQueueSetContainer != null ==>
                && xTasksWaitingToReceive == old(xTasksWaitingToReceive) && pxQueueSetContainer.Valid()
                && pxQueueSetContainer.State()
                   == Announced(old(pxQueueSetContainer.State()), handle,
                                if place.Overwrite? && previous != 0 then 0 else 1, tasks)
    {
      if pxQueueSetContainer != null {
        if place.Overwrite? && previous != 0 {
        } else {
          ghost var was := pxQueueSetContainer.State();
          NotifyQueueSetContainer(tasks);
          assert Announced(was, handle, 0, tasks) == was;
        }
      } else {
        WakeReceiver();
      }
    }

    // ---------------------------------------------------------------- the calls

    /** What a post does to the set of the queue. */
    ghost predicate SetTold(container: Queue?, was: QueueState.Queue, items: nat, tasks: nat)
      reads container, if container == null then {} else {container.pucStorage}
    {
      container != null ==> container.Valid() && container.State() == Announced(was, handle, items, tasks)
    }

    /** The state of the set, if there is one. */
    ghost function SetState(): QueueState.Queue
      requires Valid() && SetReady(0, 0)
      reads this, pucStorage, pxQueueSetContainer,
            if pxQueueSetContainer == null then {} else {pxQueueSetContainer.pucStorage}
    {
      if pxQueueSetContainer == null then State() else pxQueueSetContainer.State()
    }

    /** The critical section of xQueueGenericSend. */
    method TrySend(item: Item, place: Place, tasks: nat) returns (sent: bool)
      requires Valid() && |item| == uxItemSize && SetReady(1, tasks)
      requires place.Overwrite? ==> uxLength == 1
      modifies this, pucStorage, SetFrame()
      ensures Valid() && pxQueueSetContainer == old(pxQueueSetContainer)
      ensures sent <==> |old(Items())| < uxLength || place.Overwrite?
      ensures Items() ==
                if !sent then old(Items())
                else if uxItemSize > 0 && place.Front? then [item] + old(Items())
                else if uxItemSize > 0 && place.Overwrite? then [item]
                else old(Items()) + [item]
      ensures pxQueueSetContainer == null && sent && old(xTasksWaitingToReceive) != [] ==>
                xTasksWaitingToReceive == old(xTasksWaitingToReceive)[1..]
      ensures State() ==
                if !sent then old(State())
                else if pxQueueSetContainer == null then TaskSend(old(State()), item, InEffect(place))
                else old(State()).(items := Stored(old(Items()), item, InEffect(place)))
      ensures SetTold(pxQueueSetContainer, old(SetState()),
                      if !sent || (place.Overwrite? && old(Items()) != []) then 0 else 1, tasks)
    {
      hide Offset, SlotsOf, Window, Slot;
      sent := uxMessagesWaiting < uxLength || place.Overwrite?;
      if sent {
        var previous := uxMessagesWaiting;
        CopyDataToQueue(item, place);
        Notified(place, previous, tasks);
      }
    }

    /** xQueueGenericSendFromISR: while the queue is locked the notification is put off. */
    method SendFromISR(item: Item, place: Place, tasks: nat) returns (sent: bool)
      requires Valid() && |item| == uxItemSize && SetReady(1, tasks)
      requires place.Overwrite? ==> uxLength == 1
      requires cTxLock < tasks ==> cTxLock != INT8_MAX
      modifies this, pucStorage, SetFrame()
      ensures Valid() && pxQueueSetContainer == old(pxQueueSetContainer)
      ensures sent <==> |old(Items())| < uxLength || place.Overwrite?
      ensures Items() ==
                if !sent then old(Items())
                else if uxItemSize > 0 && place.Front? then [item] + old(Items())
                else if uxItemSize > 0 && place.Overwrite? then [item]
                else old(Items()) + [item]
      ensures pxQueueSetContainer == null && sent && old(cTxLock) == UNLOCKED && old(xTasksWaitingToReceive) != [] ==>
                xTasksWaitingToReceive == old(xTasksWaitingToReceive)[1..]
      ensures sent && old(cTxLock) != UNLOCKED ==>
                && cTxLock == old(cTxLock) + (if old(cTxLock) < tasks then 1 else 0)
                && xTasksWaitingToReceive == old(xTasksWaitingToReceive)
      ensures State() ==
                if !sent then old(State())
                else if pxQueueSetContainer == null || old(cTxLock) != UNLOCKED then
                  IsrSend(old(State()), item, InEffect(place), tasks)
                else old(State()).(items := Stored(old(Items()), item, InEffect(place)))
      ensures SetTold(pxQueueSetContainer, old(SetState()),
                      if !sent || old(cTxLock) != UNLOCKED || (place.Overwrite? && old(Items()) != []) then 0
                      else 1, tasks)
    {
      hide Offset, SlotsOf, Window, Slot;
      sent := uxMessagesWaiting < uxLength || place.Overwrite?;
      if sent {
        var previous := uxMessagesWaiting;
        CopyDataToQueue(item, place);
        if cTxLock == UNLOCKED {
          Notified(place, previous, tasks);
        } else {
          IncrementTxLock(tasks);
        }
      }
    }

    /** xQueueGiveFromISR: a semaphore counts, and copies nothing. */
    method GiveFromISR(tasks: nat) returns (given: bool)
      requires Valid() && uxItemSize == 0 && SetReady(1, tasks)
      requires cTxLock < tasks ==> cTxLock != INT8_MAX
      modifies this, SetFrame()
      ensures Valid() && pxQueueSetContainer == old(pxQueueSetContainer)
      ensures given <==> old(uxMessagesWaiting) < uxLength
      ensures uxMessagesWaiting == old(uxMessagesWaiting) + if given then 1 else 0
      ensures State() ==
                if !given then old(State())
                else if pxQueueSetContainer == null || old(cTxLock) != UNLOCKED then
                  IsrSend(old(State()), [], Place.Back, tasks)
                else old(State()).(items := Stored(old(Items()), [], Place.Back))
      ensures SetTold(pxQueueSetContainer, old(SetState()), if !given || old(cTxLock) != UNLOCKED then 0 else 1, tasks)
    {
      hide Offset, SlotsOf, Window, Slot;
      given := uxMessagesWaiting < uxLength;
      if given {
        uxMessagesWaiting := uxMessagesWaiting + 1;
        if cTxLock == UNLOCKED {
          Notified(Place.Back, 0, tasks);
        } else {
          IncrementTxLock(tasks);
        }
      }
    }

    /** Taking the first item moves the front of the window. */
    lemma FrontTaken(slots: seq<Item>, front: nat, m: nat)
      requires front < |slots| && 0 < m <= |slots|
      ensures Slot(|slots|, front + 1) < |slots|
      ensures Window(slots, front, m)[1..] == Window(slots, Slot(|slots|, front + 1), m - 1)
      ensures Slot(|slots|, front + m) == Slot(|slots|, Slot(|slots|, front + 1) + (m - 1))
    {
    }

    /** prvCopyDataFromQueue and the count, as every taking call does. */
    method TakeFront() returns (item: Item)
      requires Valid() && uxMessagesWaiting > 0
      modifies `pcReadFrom, `readSlot, `uxMessagesWaiting
      ensures Valid() && item == old(Items())[0] && Items() == old(Items())[1..]
    {
      hide Offset, SlotsOf, Window, Slot;
      if uxItemSize > 0 {
        FrontTaken(SlotsOf(pucStorage[..], uxLength, uxItemSize), Front(), uxMessagesWaiting);
      }
      item := CopyDataFromQueue();
      uxMessagesWaiting := uxMessagesWaiting - 1;
    }

    /** The critical section of xQueueReceive, and of xQueueSemaphoreTake where items are empty. */
    method TryReceive() returns (got: Got)
      requires Valid()
      modifies this
      ensures Valid() && pxQueueSetContainer == old(pxQueueSetContainer)
      ensures got == if old(Items()) == [] then Nothing else Got(old(Items())[0])
      ensures Items() == if old(Items()) == [] then [] else old(Items())[1..]
      ensures got.Got? && old(xTasksWaitingToSend) != [] ==> xTasksWaitingToSend == old(xTasksWaitingToSend)[1..]
      ensures State() == if got.Nothing? then old(State()) else TaskReceive(old(State()))
    {
      hide Offset, SlotsOf, Window, Slot;
      got := Nothing;
      if uxMessagesWaiting > 0 {
        var item := TakeFront();
        got := Got(item);
        WakeSender();
      }
    }

    /** xQueueReceiveFromISR. */
    method ReceiveFromISR(tasks: nat) returns (got: Got)
      requires Valid() && (cRxLock < tasks ==> cRxLock != INT8_MAX)
      modifies this
      ensures Valid() && pxQueueSetContainer == old(pxQueueSetContainer)
      ensures got == if old(Items()) == [] then Nothing else Got(old(Items())[0])
      ensures Items() == if old(Items()) == [] then [] else old(Items())[1..]
      ensures got.Got? && old(cRxLock) == UNLOCKED && old(xTasksWaitingToSend) != [] ==>
                xTasksWaitingToSend == old(xTasksWaitingToSend)[1..]
      ensures got.Got? && old(cRxLock) != UNLOCKED ==>
                && cRxLock == old(cRxLock) + (if old(cRxLock) < tasks then 1 else 0)
                && xTasksWaitingToSend == old(xTasksWaitingToSend)
      ensures State() == if got.Nothing? then old(State()) else IsrReceive(old(State()), tasks)
    {
      hide Valid, Items, Notify;
      got := Nothing;
      if uxMessagesWaiting > 0 {
        var item := TakeFront();
        got := Got(item);
        NotifySender(tasks);
      }
    }

    /** What an interrupt does for the senders. */
    method NotifySender(tasks: nat)
      requires Valid() && (cRxLock < tasks ==> cRxLock != INT8_MAX)
      modifies `cRxLock, `xTasksWaitingToSend
      ensures Valid() && State() == old(State()).(senders := Notify(old(State().senders), tasks))
      ensures old(cRxLock) == UNLOCKED && old(xTasksWaitingToSend) != [] ==>
                xTasksWaitingToSend == old(xTasksWaitingToSend)[1..]
      ensures old(cRxLock) != UNLOCKED ==>
                && cRxLock == old(cRxLock) + (if old(cRxLock) < tasks then 1 else 0)
                && xTasksWaitingToSend == old(xTasksWaitingToSend)
    {
      hide Offset, SlotsOf, Window, Slot;
      if cRxLock == UNLOCKED {
        WakeSender();
      } else {
        IncrementRxLock(tasks);
      }
    }

    /** xQueuePeekFromISR: the read pointer is put back. */
    method PeekFromISR() returns (got: Got)
      requires Valid() && uxItemSize != 0
      modifies this
      ensures Valid() && pxQueueSetContainer == old(pxQueueSetContainer) && State() == old(State())
      ensures got == if Items() == [] then Nothing else Got(Items()[0])
    {
      got := Nothing;
      if uxMessagesWaiting > 0 {
        var original := pcReadFrom;
        ghost var slot := readSlot;
        var item := CopyDataFromQueue();
        pcReadFrom := original;
        readSlot := slot;
        got := Got(item);
      }
    }

    /** The critical section of xQueuePeek: the next receiver is woken for the item left. */
    method TryPeek() returns (got: Got)
      requires Valid()
      modifies this
      ensures Valid() && pxQueueSetContainer == old(pxQueueSetContainer)
      ensures got == if old(Items()) == [] then Nothing else Got(old(Items())[0])
      ensures Items() == old(Items())
      ensures got.Got? && old(xTasksWaitingToReceive) != [] ==>
                xTasksWaitingToReceive == old(xTasksWaitingToReceive)[1..]
      ensures State() == if got.Nothing? then old(State()) else TaskPeek(old(State()))
    {
      got := Nothing;
      if uxMessagesWaiting > 0 {
        var original := pcReadFrom;
        ghost var slot := readSlot;
        var item := CopyDataFromQueue();
        pcReadFrom := original;
        readSlot := slot;
        got := Got(item);
        WakeReceiver();
      }
    }

    /** prvLockQueue. */
    method LockQueue()
      requires Valid()
      modifies `cRxLock, `cTxLock
      ensures Valid() && State() == Lock(old(State()))
      ensures cRxLock == (if old(cRxLock) == UNLOCKED then 0 else old(cRxLock))
              && cTxLock == if old(cTxLock) == UNLOCKED then 0 else old(cTxLock)
    {
      if cRxLock == UNLOCKED {
        cRxLock := 0;
      }
      if cTxLock == UNLOCKED {
        cTxLock := 0;
      }
    }

    /** The first critical section of prvUnlockQueue. */
    method UnlockTx(tasks: nat)
      requires Valid() && SetReady(Deferred(cTxLock), tasks)
      modifies this, SetFrame()
      ensures Valid() && pxQueueSetContainer == old(pxQueueSetContainer)
      ensures State() ==
                if pxQueueSetContainer == null then old(State()).(receivers := UnlockOne(old(State().receivers)))
                else old(State()).(receivers := old(State().receivers).(lock := UNLOCKED))
      ensures pxQueueSetContainer == null ==>
                var n, list := if old(cTxLock) > 0 then old(cTxLock) else 0, old(xTasksWaitingToReceive);
                xTasksWaitingToReceive == if n < |list| then list[n..] else []
      ensures cTxLock == UNLOCKED
      ensures pxQueueSetContainer != null ==>
                && xTasksWaitingToReceive == old(xTasksWaitingToReceive) && pxQueueSetContainer.Valid()
                && pxQueueSetContainer.Items() == old(pxQueueSetContainer.Items())
                   + seq(if old(cTxLock) > 0 then old(cTxLock) else 0, _ => handle)
      ensures SetTold(pxQueueSetContainer, old(SetState()), Deferred(old(cTxLock)), tasks)
    {
      hide Offset, SlotsOf, Window, Slot, Announced, IsrSend;
      var lock := cTxLock;
      NoneAnnounced(SetState(), handle, tasks);
      ghost var list, told, was := xTasksWaitingToReceive, 0, SetState();
      while lock > 0
        invariant Valid() && pxQueueSetContainer == old(pxQueueSetContainer)
        invariant cTxLock == old(cTxLock) && cRxLock == old(cRxLock) && Items() == old(Items())
        invariant xTasksWaitingToSend == old(xTasksWaitingToSend)
        invariant lock <= cTxLock && told + Deferred(lock) == Deferred(cTxLock)
        invariant SetReady(Deferred(lock), tasks) && SetTold(pxQueueSetContainer, was, told, tasks)
        invariant pxQueueSetContainer != null ==> xTasksWaitingToReceive == list
        invariant pxQueueSetContainer == null ==> told <= |list| && xTasksWaitingToReceive == list[told..]
      {
        if pxQueueSetContainer != null {
          OneMoreAnnounced(was, handle, told, tasks);
          NotifyQueueSetContainer(tasks);
        } else {
          if xTasksWaitingToReceive != [] {
            WakeReceiver();
          } else {
            break;
          }
        }
        lock := lock - 1;
        told := told + 1;
      }
      AnnouncedItems(was, handle, told, tasks);
      cTxLock := UNLOCKED;
    }

    /** The second critical section of prvUnlockQueue. */
    method UnlockRx()
      requires Valid()
      modifies `cRxLock, `xTasksWaitingToSend
      ensures Valid() && State() == old(State()).(senders := UnlockOne(old(State().senders)))
      ensures var n, list := if old(cRxLock) > 0 then old(cRxLock) else 0, old(xTasksWaitingToSend);
              cRxLock == UNLOCKED && xTasksWaitingToSend == if n < |list| then list[n..] else []
    {
      hide Offset, SlotsOf, Window, Slot;
      var lock := cRxLock;
      ghost var list, woken := xTasksWaitingToSend, 0;
      while lock > 0
        invariant Valid() && Items() == old(Items()) && cRxLock == old(cRxLock)
        invariant lock <= cRxLock && woken + Deferred(lock) == Deferred(cRxLock)
        invariant woken <= |list| && xTasksWaitingToSend == list[woken..]
      {
        if xTasksWaitingToSend != [] {
          WakeSender();
          lock := lock - 1;
          woken := woken + 1;
        } else {
          break;
        }
      }
      assert woken == Released(Waiters(list, cRxLock));
      cRxLock := UNLOCKED;
    }

    /** prvIsQueueEmpty and prvIsQueueFull. */
    method IsEmpty() returns (empty: bool)
      requires Valid()
      ensures empty <==> Items() == []
    {
      empty := uxMessagesWaiting == 0;
    }

    method IsFull() returns (full: bool)
      requires Valid()
      ensures full <==> |Items()| == uxLength
    {
      full := uxMessagesWaiting == uxLength;
    }

    /** xQueueGenericReset of a queue in use. */
    method GenericReset()
      requires Valid()
      modifies this
      ensures Valid() && pxQueueSetContainer == old(pxQueueSetContainer) && State() == QueueState.Reset(old(State()))
      ensures Items() == [] && cRxLock == cTxLock == UNLOCKED
      ensures xTasksWaitingToReceive == old(xTasksWaitingToReceive)
      ensures old(xTasksWaitingToSend) != [] ==> xTasksWaitingToSend == old(xTasksWaitingToSend)[1..]
    {
      hide Offset, SlotsOf;
      OffsetStep(0, uxItemSize);
      uxMessagesWaiting := 0;
      pcWriteTo, pcReadFrom := 0, Offset(uxLength - 1, uxItemSize);
      writeSlot, readSlot := 0, uxLength - 1;
      cRxLock, cTxLock := UNLOCKED, UNLOCKED;
      WakeSender();
    }

    /** xQueueAddToSet: a queue joins one set at most, and only while it is empty. */
    method AddToSet(container: Queue) returns (ok: bool)
      requires Valid()
      modifies `pxQueueSetContainer
      ensures Valid() && State() == old(State())
      ensures ok <==> old(pxQueueSetContainer) == null && Items() == []
      ensures pxQueueSetContainer == if ok then container else old(pxQueueSetContainer)
    {
      ok := pxQueueSetContainer == null && uxMessagesWaiting == 0;
      if ok {
        pxQueueSetContainer := container;
      }
    }

    /** The tests of xQueueRemoveFromSet, which are in no critical section. */
    method MayLeave(container: Queue) returns (ok: bool)
      requires Valid()
      ensures ok <==> pxQueueSetContainer == container && Items() == []
    {
      ok := pxQueueSetContainer == container && uxMessagesWaiting == 0;
    }

    /** The store of xQueueRemoveFromSet, which is in one, and which looks at nothing again. */
    method LeaveSet()
      requires Valid()
      modifies `pxQueueSetContainer
      ensures Valid() && State() == old(State()) && pxQueueSetContainer == null
    {
      pxQueueSetContainer := null;
    }

    /** xQueueRemoveFromSet, when nothing falls between the tests and the store; QueueSets has the other runs. */
    method RemoveFromSet(container: Queue) returns (ok: bool)
      requires Valid()
      modifies `pxQueueSetContainer
      ensures Valid() && State() == old(State())
      ensures ok <==> old(pxQueueSetContainer) == container && Items() == []
      ensures pxQueueSetContainer == if ok then null else old(pxQueueSetContainer)
    {
      ok := MayLeave(container);
      if ok {
        LeaveSet();
      }
    }
  }

  /** A semaphore of one is given, and then overwritten while it is full: it counts two. */
  method OverwrittenSemaphore() returns (q: Queue)
    ensures fresh(q) && q.Valid() && q.uxItemSize == 0 && q.uxLength == 1 && q.uxMessagesWaiting == 2
  {
    q := new Queue(1, 0, []);
    var first := q.TrySend([], Place.Back, 1);
    assert first && q.Items() == [[]];
    var second := q.TrySend([], Place.Overwrite, 1);
    assert second && q.Items() == [[], []];
  }
}
