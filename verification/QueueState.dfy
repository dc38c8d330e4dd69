/** A queue as a value (queue.c): the items, the two event lists with their lock counts, and each critical
    section as one function.  Class QueueObject.Queue is proved to follow these functions, and module
    QueueProtocol is about their interleavings. */
module QueueState {
  import opened EventLists
  import opened Rings

  /** queueUNLOCKED; a locked queue counts from 0. */
  const UNLOCKED: int := -1

  type Task = nat
  type Item = seq<byte>

  /** queueSEND_TO_BACK, queueSEND_TO_FRONT, queueOVERWRITE. */
  datatype Place = Back | Front | Overwrite

  /** An event list in priority order, and the count of wake-ups deferred while the queue is locked. */
  datatype Waiters = Waiters(list: seq<Entry<Task>>, lock: int)

  /** `receivers.lock` is cTxLock: it counts what was posted.  `senders.lock` is cRxLock. */
  datatype Queue = Queue(length: nat, items: seq<Item>, senders: Waiters, receivers: Waiters)

  // ---------------------------------------------------------------- one event list

  /** xTaskRemoveFromEventList, if anybody waits. */
  function WakeOne(w: Waiters): Waiters {
    if w.list == [] then w else w.(list := w.list[1..])
  }

  /** The wake-ups, or notifications, that a lock has put off. */
  function Deferred(lock: int): nat {
    if lock < 0 then 0 else lock
  }

  /** prvIncrementQueueTxLock and prvIncrementQueueRxLock. */
  function Bump(lock: int, tasks: nat): int {
    if lock < tasks then lock + 1 else lock
  }

  /** What an interrupt does: the list is left alone while the queue is locked. */
  function Notify(w: Waiters, tasks: nat): Waiters {
    if w.lock == UNLOCKED then WakeOne(w) else w.(lock := Bump(w.lock, tasks))
  }

  function LockOne(w: Waiters): Waiters {
    if w.lock == UNLOCKED then w.(lock := 0) else w
  }

  /** How many waiters an unlock releases. */
  function Released(w: Waiters): (k: nat)
    ensures k <= |w.list|
  {
    if w.lock <= 0 then 0 else if w.lock < |w.list| then w.lock else |w.list|
  }

  /** Half of prvUnlockQueue. */
  function UnlockOne(w: Waiters): Waiters {
    Waiters(w.list[Released(w)..], UNLOCKED)
  }

  /** vTaskPlaceOnEventList. */
  function Add(w: Waiters, e: Entry<Task>): Waiters {
    w.(list := SortedInsert(w.list, e))
  }

  // ---------------------------------------------------------------- the items

  predicate Accepts(q: Queue, place: Place) {
    |q.items| < q.length || place.Overwrite?
  }

  function Stored(items: seq<Item>, item: Item, place: Place): seq<Item> {
    match place
    case Back => items + [item]
    case Front => [item] + items
    case Overwrite => if items == [] then [item] else [item] + items[1..]
  }

  function TaskSend(q: Queue, item: Item, place: Place): Queue {
    q.(items := Stored(q.items, item, place), receivers := WakeOne(q.receivers))
  }

  function IsrSend(q: Queue, item: Item, place: Place, tasks: nat): Queue {
    q.(items := Stored(q.items, item, place), receivers := Notify(q.receivers, tasks))
  }

  function TaskReceive(q: Queue): Queue
    requires q.items != []
  {
    q.(items := q.items[1..], senders := WakeOne(q.senders))
  }

  function IsrReceive(q: Queue, tasks: nat): Queue
    requires q.items != []
  {
    q.(items := q.items[1..], senders := Notify(q.senders, tasks))
  }

  /** The data stays, so the next receiver is woken in turn. */
  function TaskPeek(q: Queue): Queue {
    q.(receivers := WakeOne(q.receivers))
  }

  function Lock(q: Queue): Queue {
    q.(senders := LockOne(q.senders), receivers := LockOne(q.receivers))
  }

  /** xQueueGenericReset of a queue in use: one sender is woken, however many there are. */
  function Reset(q: Queue): Queue {
    q.(items := [], senders := WakeOne(q.senders).(lock := UNLOCKED), receivers := q.receivers.(lock := UNLOCKED))
  }

  /** A set hears of `k` posts to one of its members, one after another. */
  function Announced(container: Queue, handle: Item, k: nat, tasks: nat): (r: Queue)
    ensures r.length == container.length && |r.items| == |container.items| + k
  {
    if k == 0 then container else IsrSend(Announced(container, handle, k - 1, tasks), handle, Back, tasks)
  }

  lemma NoneAnnounced(container: Queue, handle: Item, tasks: nat)
    ensures Announced(container, handle, 0, tasks) == container
  {
  }

  lemma OneMoreAnnounced(container: Queue, handle: Item, k: nat, tasks: nat)
    ensures Announced(container, handle, k + 1, tasks)
            == IsrSend(Announced(container, handle, k, tasks), handle, Back, tasks)
  {
  }

  /** The set then holds as many more handles and has woken as many receivers, or all; a locked one counts them,
      up to the number of tasks.  Its senders are left alone. */
  lemma {:induction false} AnnouncedItems(container: Queue, handle: Item, k: nat, tasks: nat)
    ensures var r, w := Announced(container, handle, k, tasks), container.receivers;
            && r.items == container.items + seq(k, _ => handle) && r.senders == container.senders
            && (w.lock == UNLOCKED ==>
                  r.receivers == Waiters(w.list[if k < |w.list| then k else |w.list|..], UNLOCKED))
            && (w.lock >= 0 ==> r.receivers.list == w.list)
            && (0 <= w.lock && tasks <= w.lock ==> r.receivers.lock == w.lock)
            && (0 <= w.lock < tasks <= w.lock + k ==> r.receivers.lock == tasks)
            && (0 <= w.lock && w.lock + k <= tasks ==> r.receivers.lock == w.lock + k)
  {
    if k > 0 {
      AnnouncedItems(container, handle, k - 1, tasks);
    }
  }
}
