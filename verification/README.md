# Verified models of the FreeRTOS kernel services and the boot loader

This project models, in Dafny, the parts of this repository's FreeRTOS V10.5.1 kernel whose behaviour is
decided outside `tasks.c`, and the XMODEM receiver of the boot ROM, and proves what they promise.
Run `dafny verify dfyconfig.toml` to check all of it.

| part | modules | main results |
|---|---|---|
| lists | EventLists (values), IntrusiveList (the linked ring as a class) | sorted and stable insertion, a valid index after every removal, each item served once a round |
| timers | TimerService (an ideal clock that never wraps), WrappedLists, TimerDaemon (the daemon as a class) | every wrapped decision equals the ideal one, exact catch-up, every expiry reached is served, no drift over whole runs, list switches that end and lose nothing, the exact condition for a late command to be judged rightly |
| allocator | HeapBlocks (values), HeapMemory (headers in memory) | free and live blocks tile the heap, the free list depends on the live blocks alone, success exactly when a block is large enough, no more taken than needed |
| stream and message buffers | Rings, StreamBytes, StreamProtocol (single loads, byte copies and publications interleaved), StreamBuffer (the object) | bytes out are a prefix of bytes in, messages whole and in order, each call moves exactly what fits, no lost wake-up, in every interleaving |
| queues | QueueState (each critical section as a function), QueueProtocol (tasks and interrupts interleaved), QueueObject (the byte ring and the calls), QueueSets | no lost wake-up, one double-ended queue and no item lost in every interleaving, a call that waits ends with its item or a time-out, a double-ended ring for any item size, conservation in queue sets |
| event groups | EventGroups, Rendezvous (xEventGroupSync among other users of the group), EventGroupObject | exactly the satisfied tasks are unblocked, nobody satisfied is left waiting, in every run a rendezvous releases nobody early and then everybody with all the bits |
| co-routines | CoRoutineService (ideal ticks, interrupts between any two steps), CoRoutines (wrapped ticks, two lists) | one list for each co-routine, over every run a delay of n at tick t ends at t + n exactly, across a wrap too, highest priority chosen and signalled, no signal lost |
| boot loader | Crc16, Xmodem | the CRC is the polynomial remainder, bursts of up to 16 bits never pass, what is stored is what was accepted, round trip |

Where the C code changes objects in place, a class with the code's own fields and loops does so here, and each
method is proved to follow a function on values; what the source promises is proved about those functions, for
every input and every run. Arithmetic is on unbounded integers, with the 32-bit wrap-around, the top bit of block
sizes, the 8-bit lock counts and block numbers written out where they matter; event bits and CRC words are bit
vectors.

Steps that the kernel makes atomic (a critical section, a region with the scheduler suspended, one access of a
`volatile` index) are single steps; everything else may interleave. Of `tasks.c` only contracts are used:
`vTaskPlaceOnEventList` inserts by priority, `xTaskRemoveFromEventList` takes the head, a notification is one
pending bit, a task whose time runs out is taken off its list.

## Results that limit what the code promises

- Resetting a queue wakes one sender (sw/FreeRTOS/queue.c:320-331). QueueProtocol.ResetServes says exactly when that is
  enough, and QueueProtocol.ResetStrandsASender is a run after which it is not.
- Lowering a trigger level wakes nobody (sw/FreeRTOS/stream_buffer.c:583-587). StreamProtocol.SetTriggerInv says
  exactly when that is harmless, StreamProtocol.LevelAboveBytes what a caller can go by, and
  StreamProtocol.LoweredLevelStrands is a run that strands a reader.
- An interrupt that overwrites the item of a locked queue is counted as if it had added one
  (sw/FreeRTOS/queue.c:1191-1196), and the count stops at the number of tasks (sw/FreeRTOS/queue.c:270-278).
  QueueSets.LockedPostKeeps says exactly when the set still accounts for every message; QueueSets.OverwriteToldTwice
  and QueueSets.CappedCountLosesOne are runs in which it does not.
- A queue without item bytes counts one more when it is overwritten, even if it is full (sw/FreeRTOS/queue.c:2186-2252).
  QueueObject.Queue.CopyDataToQueue says exactly when the count stays within the length;
  QueueObject.OverwrittenSemaphore is a case in which it does not.
- xQueueRemoveFromSet tests that a member is empty before it enters the critical section
  (sw/FreeRTOS/queue.c:2975-2994), so something may be posted before the member is out. QueueSets.LeaveKeeps says
  exactly when that is harmless, and QueueSets.TakenOutTooLate is a run in which the set selects a queue that is no
  member of it and is empty.
- A member of a set is reset without a word to the set (sw/FreeRTOS/queue.c:305-312): QueueSets.ResetKeeps, and
  QueueSets.ResetMisleads as a run.
- CoRoutineService.DelayMustBePositive says exactly which co-routine delays are kept. One of no ticks, which the callers
  rule out, ends one tick late (CoRoutineService.ZeroDelayLate), and at the last count before a wrap two turns of the
  tick count late (CoRoutines.ZeroDelayAtWrap).
- A timer command that waits for a wrap of the tick count or longer may be misjudged. TimerDaemon.RightlyJudged says
  exactly when it is not; TimerDaemon.StaleCommandMisjudged is a case where it is.
- A timer command with an identifier outside the switch leaves an active timer in no list:
  TimerService.UnknownCommandStrands says exactly when, and TimerService.StrandedTimer is a run.
- The boot loader tests the size limit after a block is stored (sw/bootrom/main.c:183-191), so one block beyond it may
  be written before it gives up: exactly when more is sent than fits (Xmodem.OverrunExactly), as in
  Xmodem.OneBlockTooMany, and never more than that block (Xmodem.ReceiveSound).
- It answers a repeated block with NAK (sw/bootrom/main.c:140-143): a sound frame is acknowledged exactly if its number is
  the next (Xmodem.AcknowledgedIffNext), so a lost acknowledgement ends the download (Xmodem.RepetitionsFail).
- It counts two CAN bytes as an error like any other (sw/bootrom/main.c:195-196): Xmodem.CancelCounts.
- sw/FreeRTOS/list.h:340-345 says that every other item is returned before one inserted by vListInsertEnd. The item the
  index is on is returned after it; EventLists.InsertEndServedLast follows the code.

## Model

| member | source | states |
|---|---|---|
| EventLists.InsertKeepsOrder | sw/FreeRTOS/list.c:128-196 | insertion keeps the list sorted and puts an entry behind all entries of equal value, portMAX_DELAY included |
| EventLists.InsertOwners | sw/FreeRTOS/list.c:128-196 | insertion adds exactly the new owner and loses nobody |
| EventLists.InsertDistinct | sw/FreeRTOS/list.c:128-196 | an owner not yet in the list is in it once afterwards |
| EventLists.RemoveOwners | sw/FreeRTOS/list.c:199-225 | removal takes out exactly the owner named |
| EventLists.RemoveKeeps | sw/FreeRTOS/list.c:199-225 | a sorted list stays sorted when an item is removed, and owners stay distinct |
| EventLists.WalkClosedForm | sw/FreeRTOS/list.h:285-296 | where the walking index is after k calls on an unchanged list |
| EventLists.EachServedOnce | sw/FreeRTOS/list.h:285-296 | n calls of listGET_OWNER_OF_NEXT_ENTRY on a list of n items return each item exactly once, wherever the index starts |
| EventLists.InsertEndServedLast | sw/FreeRTOS/list.c:98-125 | an item added at the end is served after all others, except the one the index is on, which comes last |
| EventLists.RemoveKeepsTurn | sw/FreeRTOS/list.c:199-225 | removing any item, even the one the index is on, does not change who is served next, unless that very item was to be next |
| IntrusiveList.List.Initialise | sw/FreeRTOS/list.c:50-83 | the list is empty: its end marker is linked to itself and carries portMAX_DELAY |
| IntrusiveList.List.InsertEnd | sw/FreeRTOS/list.c:98-125 | the pointer structure stays a ring in both directions and becomes the value EventLists.Ring.InsertEnd describes |
| IntrusiveList.List.Insert | sw/FreeRTOS/list.c:128-196 | the pointer structure stays a ring and the item stands before the first larger one, or last |
| IntrusiveList.List.FindPlace | sw/FreeRTOS/list.c:146-187 | the search ends, for every value up to and including portMAX_DELAY, at the last item not larger |
| IntrusiveList.List.Remove | sw/FreeRTOS/list.c:199-225 | the ring closes over the gap, pxIndex stays on an item of the list, the item's container is NULL, and the count is returned |
| IntrusiveList.List.GetOwnerOfNextEntry | sw/FreeRTOS/list.h:285-296 | the index moves to the next item, never to the end marker unless the list is empty, and the owner there is returned |
| IntrusiveList.Splice | sw/FreeRTOS/list.c:106-122 | the four link writes of an insertion turn a ring into the longer ring |
| IntrusiveList.Unsplice | sw/FreeRTOS/list.c:205-213 | the two link writes of a removal turn a ring into the shorter ring |
| WrappedLists.MirrorInsertCurrent | sw/FreeRTOS/timers.c:748 | inserting a wrapped expiry of the current epoch into the current list is inserting the ideal expiry into the one sorted queue |
| WrappedLists.MirrorInsertOverflow | sw/FreeRTOS/timers.c:732 | the same for the next epoch and the overflow list |
| WrappedLists.MirrorsWithout | sw/FreeRTOS/timers.c:796-803 | taking a timer off whichever list it is in is taking it off the ideal queue |
| TimerService.CatchUpExact | sw/FreeRTOS/timers.c:522-538 | an expired auto-reload timer runs its callback exactly 1 + floor((now - due) / period) times, once for each missed expiry, and is queued again at the first expiry after now |
| TimerService.FireHeadFewerDue | sw/FreeRTOS/timers.c:908-931 | serving the head takes one due entry out of the queue and puts none back, so draining ends |
| TimerService.DrainInv | sw/FreeRTOS/timers.c:908-931 | draining a list keeps the invariant and every timer, also while one timer is in the hands of a command |
| TimerService.DrainFires | sw/FreeRTOS/timers.c:908-931 | when the lists are switched nothing is lost: the callback of every expiry due in the ending epoch runs for that expiry |
| TimerService.DrainSurvivors | sw/FreeRTOS/timers.c:908-931 | listed after a switch are exactly the timers that were ahead and the auto-reload timers: one-shot timers that were due are not |
| TimerService.SampleServes | sw/FreeRTOS/timers.c:693-713 | after a look at the clock that finds a wrap, also while a command has a timer in hand, every expiry of the ended epoch has been served and is listed no more, and its timer is listed again exactly if it reloads |
| TimerService.SampleInv | sw/FreeRTOS/timers.c:693-713 | looking at the clock keeps the invariant, also while one timer is in the hands of a command |
| TimerService.ExecuteInv | sw/FreeRTOS/timers.c:790-903 | a command keeps the invariant (sorted queue, ACTIVE set exactly for listed timers, every expiry one period after the last start or callback) exactly unless its identifier is outside the switch and the timer was active |
| TimerService.UnknownCommandStrands | sw/FreeRTOS/timers.c:796-902 | a command identifier outside the switch leaves an active timer in no list although its status says it is active |
| TimerService.StrandedTimer | sw/FreeRTOS/timers.c:796-902 | a run that ends with such a timer: created, started, then named by an unknown command, it says it is active and is in no list |
| TimerService.StepInv | sw/FreeRTOS/timers.c:604-905 | every event keeps the invariant, but for an unknown command to an active timer, which breaks it; an idle daemon may look at the clock as late as it likes |
| TimerService.StepNotEarly | sw/FreeRTOS/timers.c:541-565 | no event runs a callback before its time |
| TimerService.PollServes | sw/FreeRTOS/timers.c:618-625 | a poll within an epoch that finds the earliest expiry reached runs the callback for it, leaves one reached expiry fewer, lists the timer again exactly if it reloads, and keeps every other |
| TimerService.PollIdle | sw/FreeRTOS/timers.c:626-650 | a poll that finds no expiry reached changes nothing but the time last seen |
| TimerService.PollsServeAll | sw/FreeRTOS/timers.c:568-601 | over a run of polls at one time that ends with nothing reached, the callback of every listed expiry that the clock had reached has run |
| TimerService.PollsEnd | sw/FreeRTOS/timers.c:568-601 | polling gets there, within an epoch in as many polls as expiries were reached |
| TimerService.CommandMeans | sw/FreeRTOS/timers.c:790-903 | whenever it is processed: after a start the first callback is for the time stamp plus the period, run if past and else listed; a new period counts from now; a stop leaves the timer idle as it was; a delete also forgets it, if it is not static |
| TimerService.RunsAreGood | sw/FreeRTOS/timers.c:568-601 | in every run the head of the queue is the earliest expiry of all active timers, ACTIVE is exact, no callback was early and every one came exactly one period after the start or callback before it |
| TimerService.FromTheStart | sw/FreeRTOS/timers.c:568-601 | the same for every run that starts with no timers |
| TimerService.NoDrift | sw/FreeRTOS/timers.c:522-538 | the n-th callback after a start at t with period p is for t + n * p, however late the daemon ran |
| TimerDaemon.WrappedDecision | sw/FreeRTOS/timers.c:716-757 | each comparison of wrapped values decides as the ideal times do, when less than a wrap lies between issue and processing |
| TimerDaemon.DecisionByGuards | sw/FreeRTOS/timers.c:724-751 | each of the two guards is true exactly when the expiry has passed, and else the list chosen is the one of its epoch |
| TimerDaemon.RightlyJudged | sw/FreeRTOS/timers.c:716-757 | however late a command is processed, it is judged rightly exactly if it waited less than a wrap, or if its period has passed in the wait taken modulo the wrap |
| TimerDaemon.StaleCommandMisjudged | sw/FreeRTOS/timers.c:735-751 | a command that waited exactly one wrap is misjudged: the timer is queued although its expiry has passed |
| TimerDaemon.HeadRepresented | sw/FreeRTOS/timers.c:666-690 | the head of a non-empty current list is the earliest expiry of all active timers |
| TimerDaemon.SwitchRepresented | sw/FreeRTOS/timers.c:926-930 | swapping the list pointers once the current list is empty keeps the ideal queue |
| TimerDaemon.TimerDaemon.InsertTimerInActiveList | sw/FreeRTOS/timers.c:716-757 | returns true exactly when the ideal expiry has passed, and else the timer is queued at that expiry |
| TimerDaemon.TimerDaemon.ReloadTimer | sw/FreeRTOS/timers.c:522-538 | runs the callbacks of all missed expiries but the last and queues the timer at the first expiry after now, across a wrap too; the loop ends |
| TimerDaemon.TimerDaemon.ServeExpired | sw/FreeRTOS/timers.c:552-564 | an expired timer is reloaded or marked idle, and its callback runs |
| TimerDaemon.TimerDaemon.ProcessExpiredTimer | sw/FreeRTOS/timers.c:541-565 | the head of the current list is served as the ideal service serves it |
| TimerDaemon.TimerDaemon.SwitchTimerLists | sw/FreeRTOS/timers.c:908-931 | the loop ends, everything due by the end of the epoch has its callback run, exactly those ahead and the auto-reload timers are listed, and the ideal queue is then in the other list |
| TimerDaemon.TimerDaemon.SampleTimeNow | sw/FreeRTOS/timers.c:693-713 | the lists are switched exactly when the tick count is below the last one, which with timers active is when it wrapped, and the ideal service sees the same time |
| TimerDaemon.TimerDaemon.GetNextExpireTime | sw/FreeRTOS/timers.c:666-690 | the time of the head, or 0 for an empty list, and whether it was empty |
| TimerDaemon.TimerDaemon.ProcessTimerOrBlockTask | sw/FreeRTOS/timers.c:604-663 | a due head of the current list has its callback run by this call, and when the tick count has wrapped everything of the old list is served; else it blocks exactly until the head is due, or until the wrap if the current list is empty, and indefinitely if no timer is active |
| TimerDaemon.TimerDaemon.StartTimer | sw/FreeRTOS/timers.c:821-850 | a start, restart or reset counts from the time stamp of the command; one already expired is served at once |
| TimerDaemon.TimerDaemon.RestartWithPeriod | sw/FreeRTOS/timers.c:858-871 | a period change restarts the timer from now with the new period |
| TimerDaemon.TimerDaemon.Dispatch | sw/FreeRTOS/timers.c:819-902 | each command identifier has the effect the ideal service gives it, and one outside the switch has none |
| TimerDaemon.TimerDaemon.ProcessCommand | sw/FreeRTOS/timers.c:790-903 | by number: identifiers 1, 2, 6 and 7 start the timer from the time stamp carried; 3 and 8 leave it idle with its period and reload mode; 4 and 9 restart it from now with the new period; 5 leaves it idle, or forgets it if it is not static; the invariant is kept exactly unless the command is unknown and the timer active |
| TimerDaemon.TimerDaemon.ProcessReceivedCommands | sw/FreeRTOS/timers.c:760-905 | the queued messages are worked off in order, pended function calls among them |
| TimerDaemon.TimerDaemon.SetReloadMode | sw/FreeRTOS/timers.c:451-469 | the reload mode of the timer is the one asked for, and nothing else changes |
| TimerDaemon.TimerDaemon.Create | sw/FreeRTOS/timers.c:355-383 | a new timer has the period and reload mode asked for, is idle, and is in no list |
| HeapBlocks.CoalesceFrees | sw/FreeRTOS/heap_4.c:424-484 | inserting a block frees exactly its bytes and leaves an address-ordered list with a gap between any two blocks |
| HeapBlocks.GapsUnique | sw/FreeRTOS/heap_4.c:424-484 | there is only one such list for a set of free bytes |
| HeapBlocks.FreeListCanonical | sw/FreeRTOS/heap_4.c:424-484 | the free list is a function of the live blocks alone |
| HeapBlocks.InitialInv | sw/FreeRTOS/heap_4.c:379-421 | one block covers the whole heap up to pxEnd |
| HeapBlocks.AllFreed | sw/FreeRTOS/heap_4.c:289-339 | when nothing is live the free list is the single block that initialisation made |
| HeapBlocks.RoundedFits | sw/FreeRTOS/heap_4.c:159-184 | the rounded size is aligned, holds the header and the request, and less than a header and one alignment step more |
| HeapBlocks.NoSize | sw/FreeRTOS/heap_4.c:159-184 | from the request alone: there is no size exactly if nothing is asked for, or the request with header and padding does not fit a size_t |
| HeapBlocks.MallocInv | sw/FreeRTOS/heap_4.c:138-286 | allocation keeps free and live blocks tiling the heap and the minimum-ever counter at most the free bytes |
| HeapBlocks.FreeInv | sw/FreeRTOS/heap_4.c:289-339 | freeing a live block keeps the tiling |
| HeapBlocks.MallocSucceeds | sw/FreeRTOS/heap_4.c:159-201 | from the request alone: a block is returned exactly if something is asked for, the request with header and padding does not reach the top bit, and some free block is that large |
| HeapBlocks.MallocRegion | sw/FreeRTOS/heap_4.c:193-249 | the region is aligned, at least as large as requested, in the lowest-addressed free block that is large enough, and disjoint from every live block |
| HeapBlocks.MallocSplits | sw/FreeRTOS/heap_4.c:193-249 | no more is taken than the request, its header and its padding, or up to two headers more if no more would be left; the block comes from the first that is large enough, the free bytes fall by exactly its bytes, and all beyond them stay free |
| HeapBlocks.FreeReturns | sw/FreeRTOS/heap_4.c:289-339 | a free gives back exactly the bytes of the block, counts one more, and leaves the minimum-ever counter |
| HeapBlocks.MallocThenFree | sw/FreeRTOS/heap_4.c:138-339 | a malloc followed at once by a free of its result restores the free list and the live blocks |
| HeapBlocks.FreeCommutes | sw/FreeRTOS/heap_4.c:289-339 | two frees give the same heap in either order |
| HeapBlocks.RunInv | sw/FreeRTOS/heap_4.c:235-244 | after any sequence of calls the heap is tiled and the minimum-ever counter is the running minimum of the free bytes |
| HeapBlocks.HistoryForgotten | sw/FreeRTOS/heap_4.c:138-339 | histories that end with the same live blocks end with the same free list |
| HeapMemory.ChainSplice | sw/FreeRTOS/heap_4.c:424-484 | rewriting two headers replaces a stretch of the linked free list by one block |
| HeapMemory.Heap.constructor | sw/FreeRTOS/heap_4.c:379-421 | the aligned heap is one free block followed by the end marker |
| HeapMemory.Heap.Malloc | sw/FreeRTOS/heap_4.c:138-286 | headers, counters and pointer are those of the value-level allocator; the bytes taken are within two headers of what the request needs, xFreeBytesRemaining falls by exactly them, and on NULL nothing changes |
| HeapMemory.Heap.FindFit | sw/FreeRTOS/heap_4.c:188-201 | the traversal stops at the lowest-addressed block that is large enough, or at the end marker |
| HeapMemory.Heap.Allocate | sw/FreeRTOS/heap_4.c:205-250 | the block is taken out, cut to the size asked for exactly if more than two headers are left over, charged and marked |
| HeapMemory.Heap.Carve | sw/FreeRTOS/heap_4.c:213-233 | the header keeps the size asked for exactly if more than two headers are left over, and the rest is then in the list, merged with its neighbours |
| HeapMemory.Heap.Release | sw/FreeRTOS/heap_4.c:289-339 | a marked block goes back to the list and its bytes to the free bytes; a pointer whose header is not marked changes nothing |
| HeapMemory.Heap.InsertBlockIntoFreeList | sw/FreeRTOS/heap_4.c:424-484 | the linked list in memory becomes the coalesced list, and no other header is written |
| HeapMemory.Heap.Calloc | sw/FreeRTOS/heap_4.c:360-377 | a product that overflows returns NULL, and else it allocates the product |
| HeapMemory.Heap.GetHeapStats | sw/FreeRTOS/heap_4.c:487-536 | number, largest, smallest and sum of the free blocks |
| StreamBytes.BytesPlusSpaces | sw/FreeRTOS/stream_buffer.c:597-627 | bytes and spaces reported add up to the length less one |
| StreamBytes.CopyInOrder | sw/FreeRTOS/stream_buffer.c:1248-1335 | the two memcpy halves of a copy fill consecutive slots of the ring, and the index returned is behind them |
| StreamBytes.LengthRoundTrip | sw/FreeRTOS/stream_buffer.c:1084-1089 | a length stored in four bytes is read back |
| StreamBytes.FramesAppend | sw/FreeRTOS/stream_buffer.c:839-870 | a message written behind whole frames gives whole frames |
| StreamBytes.NoPartialFrame | sw/FreeRTOS/stream_buffer.c:991-1007 | whole frames of at most a header's length are no bytes at all, and else begin with the first message |
| StreamProtocol.ByteStepInv | sw/FreeRTOS/stream_buffer.c:1248-1291 | writing the next byte of a copy changes no unread byte |
| StreamProtocol.PublishInv | sw/FreeRTOS/stream_buffer.c:865-870 | writing xHead makes exactly the bytes copied readable, as one whole frame in a message buffer |
| StreamProtocol.ConsumeInv | sw/FreeRTOS/stream_buffer.c:1118-1123 | writing xTail frees exactly the bytes copied out |
| StreamProtocol.WriterControlInv | sw/FreeRTOS/stream_buffer.c:699-767 | waiting, waking, timing out, loading and comparing xTail and completing keep the invariant |
| StreamProtocol.ReaderControlInv | sw/FreeRTOS/stream_buffer.c:899-961 | waiting, waking, loading xHead and completing keep the invariant |
| StreamProtocol.LengthRead | sw/FreeRTOS/stream_buffer.c:1084-1115 | the length copied is that of the first unread message and no more than the bytes available, so the minimum never cuts a message |
| StreamProtocol.PlanInv | sw/FreeRTOS/stream_buffer.c:1084-1123 | a message is copied whole or not at all |
| StreamProtocol.TooSmallBuffer | sw/FreeRTOS/stream_buffer.c:1095-1105 | a message too long for the caller's buffer stays where it is |
| StreamProtocol.SendBlocks | sw/FreeRTOS/stream_buffer.c:648-741 | a send blocks exactly if it may and the space is below what the message and its length need, or for a stream below both the bytes and the most the buffer can hold; a message that can never fit is not waited with; and with which space it goes on |
| StreamProtocol.SendOutcome | sw/FreeRTOS/stream_buffer.c:733-871 | the copy is a whole message or the first bytes of a stream, as many as fit the space seen; what is published is exactly what was copied; the reader is told exactly if the bytes reach its level |
| StreamProtocol.ReceiveBlocks | sw/FreeRTOS/stream_buffer.c:874-960 | a receive blocks exactly if it may and finds nothing, and looks once more after that; it takes what it counts then |
| StreamProtocol.ReceiveOutcome | sw/FreeRTOS/stream_buffer.c:1075-1124 | handed over are min(room, bytes counted) bytes of a stream, or the oldest message exactly if it fits; the writer is told exactly if it waits |
| StreamProtocol.ArgumentsKept | sw/FreeRTOS/stream_buffer.c:642-962 | a call keeps its data, or its room, from start to end, and no step of one side touches the other |
| StreamProtocol.SetTriggerInv | sw/FreeRTOS/stream_buffer.c:567-594 | a new trigger level keeps the wake-up promise exactly when no blocked reader has that many bytes already, unless the writer is about to look |
| StreamProtocol.LevelAboveBytes | sw/FreeRTOS/stream_buffer.c:567-594 | a level above the bytes available is always safe, and while a reader is blocked and the writer idle no other is |
| StreamProtocol.LoweredLevelStrands | sw/FreeRTOS/stream_buffer.c:567-594 | a run that fails: a reader waits for two bytes, one is sent, the level is set to 1, and nobody wakes the reader |
| StreamProtocol.StepInv | sw/FreeRTOS/stream_buffer.c:642-1124 | every interleaved step keeps the invariant |
| StreamProtocol.WriterNeverStuck | sw/FreeRTOS/stream_buffer.c:1256-1273 | the assertions and array bounds of a copy never stop the writer |
| StreamProtocol.ReaderNeverStuck | sw/FreeRTOS/stream_buffer.c:1302-1314 | nor the reader |
| StreamProtocol.AnyInterleaving | sw/FreeRTOS/stream_buffer.c:62-150 | in every interleaving bytes come out as a prefix of those that went in, messages whole and in order; each receive hands over exactly the smaller of its room and the bytes it counted, or a message that fits, and each send adds exactly the bytes of its caller that fit the space it counted; stale counts are under-estimates, and nobody sleeps through what it waits for |
| StreamBuffer.Buffer.constructor | sw/FreeRTOS/stream_buffer.c:321-390 | an empty buffer with one byte more than asked for, and a trigger level of at least 1 |
| StreamBuffer.Buffer.SpacesAvailable | sw/FreeRTOS/stream_buffer.c:597-627 | the free bytes of the ring less the one kept free |
| StreamBuffer.Buffer.BytesInBuffer | sw/FreeRTOS/stream_buffer.c:1338-1356 | the number of unread bytes |
| StreamBuffer.Buffer.WriteBytesToBuffer | sw/FreeRTOS/stream_buffer.c:1248-1291 | exactly the slots from the index on are written, round the end of the storage |
| StreamBuffer.Buffer.ReadBytesFromBuffer | sw/FreeRTOS/stream_buffer.c:1294-1335 | the bytes from the index on, round the end of the storage |
| StreamBuffer.Buffer.WriteMessageToBuffer | sw/FreeRTOS/stream_buffer.c:824-871 | a stream takes what fits; a message is appended whole, with its length, or not at all |
| StreamBuffer.Buffer.SendFromISR | sw/FreeRTOS/stream_buffer.c:773-821 | the unread bytes grow by what was taken, and a waiting receiver is notified exactly when its trigger level is reached |
| StreamBuffer.Buffer.ReadMessageFromBuffer | sw/FreeRTOS/stream_buffer.c:1075-1124 | of the bytes that were counted before, the oldest, or the oldest message if it fits, are taken and the rest stays, whatever was sent since the count |
| StreamBuffer.Buffer.ReceiveFromISR | sw/FreeRTOS/stream_buffer.c:1018-1072 | the same with the waiting sender notified if anything was taken |
| StreamBuffer.Buffer.NextMessageLengthBytes | sw/FreeRTOS/stream_buffer.c:978-1015 | the length of the oldest message or 0, and its assertion never fails |
| StreamBuffer.Buffer.IsEmpty | sw/FreeRTOS/stream_buffer.c:1127-1148 | true exactly when nothing is unread |
| StreamBuffer.Buffer.IsFull | sw/FreeRTOS/stream_buffer.c:1151-1183 | true exactly when not one more byte, or one-byte message, can be sent |
| StreamBuffer.Buffer.SetTriggerLevel | sw/FreeRTOS/stream_buffer.c:567-594 | a level the buffer can hold is taken, 0 as 1 |
| StreamBuffer.Buffer.Reset | sw/FreeRTOS/stream_buffer.c:510-563 | refused while anybody waits, and else the buffer is empty with its size, kind and level kept |
| StreamBuffer.Buffer.SendCompletedFromISR | sw/FreeRTOS/stream_buffer.c:1186-1214 | a waiting receiver is notified once and forgotten |
| StreamBuffer.Buffer.ReceiveCompletedFromISR | sw/FreeRTOS/stream_buffer.c:1217-1245 | a waiting sender is notified once and forgotten |
| QueueState.AnnouncedItems | sw/FreeRTOS/queue.c:2298-2311 | k deferred notifications put k handles behind the set's items, wake k receivers or all, or are counted up to the number of tasks while the set is locked, and leave its senders alone |
| QueueProtocol.WakeOneServed | sw/FreeRTOS/queue.c:908-919 | waking one waiter for one more item or place keeps the wake-up promise |
| QueueProtocol.NotifyServed | sw/FreeRTOS/queue.c:1119-1196 | so does an interrupt's post or take, locked or not, with the lock count capped at the number of tasks |
| QueueProtocol.UnlockServed | sw/FreeRTOS/queue.c:2287-2396 | so does the unlock |
| QueueProtocol.Added | sw/FreeRTOS/queue.c:1484-1488 | a task that found nothing since the lock was taken may join the event list |
| QueueProtocol.EnterStep | sw/FreeRTOS/queue.c:860-1003 | the critical section at the top of the loop keeps the promise, for senders, receivers and peekers alike |
| QueueProtocol.LockStep | sw/FreeRTOS/queue.c:251-261 | only one task, which has suspended the scheduler, is between lock and unlock, and its counts remember what interrupts did |
| QueueProtocol.StepInv | sw/FreeRTOS/queue.c:856-1043 | every step of every task and interrupt keeps the invariant |
| QueueProtocol.NoLostWakeUp | sw/FreeRTOS/queue.c:1403-1517 | in every interleaving, with the queue unlocked, a receiver stays on the event list only if a woken receiver is still to come for every item, a sender only if one is still to come for every free place, and all sleepers are on a list or woken |
| QueueProtocol.UrgentFirst | sw/FreeRTOS/queue.c:2315-2337 | the waiter woken next is one of the highest priority that waits |
| QueueProtocol.StepWakes | sw/FreeRTOS/queue.c:908-919 | a send, receive or peek that goes through wakes just the first waiter on the other side, or the next receiver after a peek |
| QueueProtocol.IsrWakes | sw/FreeRTOS/queue.c:1119-1196 | an interrupt wakes just the first waiter, or none while the queue is locked, when it counts one more up to the number of tasks |
| QueueProtocol.UnlockWakes | sw/FreeRTOS/queue.c:2279-2396 | an unlock wakes just as many waiters as were counted, or all if fewer wait |
| QueueProtocol.WaitsForItsItem | sw/FreeRTOS/queue.c:856-1043 | over every run a call that may wait ends in no other way than with its item put, taken or seen, unless it looks at the clock and finds its time run out |
| QueueProtocol.EndsAtOnce | sw/FreeRTOS/queue.c:966-979 | a call that may not wait ends at once, with its item exactly if there is room, or an item, and else without any effect |
| QueueProtocol.EndsEmptyHanded | sw/FreeRTOS/queue.c:1500-1512 | in every run a call ends without its item only if a send may not wait and finds the queue full or has timed out, or a receive or peek finds the queue empty at that moment |
| QueueProtocol.LooksAgain | sw/FreeRTOS/queue.c:1500-1517 | a receive that timed out tries once more exactly if there is an item |
| QueueProtocol.FirstInFirstOut | sw/FreeRTOS/queue.c:2175-2276 | in every interleaving what was sent to the back comes out in that order, nothing lost and nothing twice |
| QueueProtocol.DoubleEnded | sw/FreeRTOS/queue.c:2175-2276 | whatever the interleaving, all accesses make up one history in which sends to the back append, sends to the front prepend, an overwrite replaces the first item, and only the first item is taken or seen |
| QueueProtocol.LastInFirstOut | sw/FreeRTOS/queue.c:2219-2247 | in every interleaving what is sent to the front, or over the first item, is the next that is taken or seen, whatever goes to the back meanwhile and whatever more goes to the front and is taken again first |
| QueueProtocol.NothingLost | sw/FreeRTOS/queue.c:2175-2276 | in every run each item stored is taken once, was overwritten, or is still there |
| QueueProtocol.ResetServes | sw/FreeRTOS/queue.c:305-341 | a reset keeps the promise to receivers, and to senders exactly when at most one was waiting or woken senders are enough for the whole queue |
| QueueProtocol.ResetStrandsASender | sw/FreeRTOS/queue.c:320-331 | a run that fails: two senders block on a full queue, it is reset, and one of them stays blocked beside a free place that nobody was woken for |
| QueueObject.SlotWritten | sw/FreeRTOS/queue.c:2208-2224 | a memcpy into one item slot leaves all other slots alone, for any item size |
| QueueObject.WriteBehind | sw/FreeRTOS/queue.c:2206-2218 | writing at pcWriteTo appends, and pcWriteTo stays messages + 1 slots after pcReadFrom |
| QueueObject.WriteInFront | sw/FreeRTOS/queue.c:2222-2234 | writing at pcReadFrom and moving it back prepends |
| QueueObject.Queue.constructor | sw/FreeRTOS/queue.c:494-535 | an empty unlocked queue in no set, with pcWriteTo at the first and pcReadFrom at the last slot |
| QueueObject.Queue.CopyDataToQueue | sw/FreeRTOS/queue.c:2175-2255 | back: the items and then the new one; front: the new one and then the items; overwriting a queue of one: the new one alone; items without bytes: one more; and the count stays within the length exactly if items have bytes or the queue was not full |
| QueueObject.Queue.CopyDataFromQueue | sw/FreeRTOS/queue.c:2258-2276 | the first item, with the read pointer moved to it |
| QueueObject.Queue.NotifyQueueSetContainer | sw/FreeRTOS/queue.c:3033-3085 | the set gets the handle and wakes a receiver, or counts it while locked; the assertion holds |
| QueueObject.Queue.TrySend | sw/FreeRTOS/queue.c:856-962 | accepted exactly if there is room or it overwrites; then the item is behind, before or instead of the others and one receiver is woken, or the set is told unless an item was replaced; else nothing changes |
| QueueObject.Queue.SendFromISR | sw/FreeRTOS/queue.c:1047-1209 | the same for an interrupt, but while the queue is locked nobody is woken and one more is counted, up to the number of tasks |
| QueueObject.Queue.GiveFromISR | sw/FreeRTOS/queue.c:1212-1375 | a semaphore below its maximum counts one more, and a receiver or the set hears of it at once or at the unlock |
| QueueObject.Queue.TryReceive | sw/FreeRTOS/queue.c:1405-1436 | the first item is taken and one sender woken |
| QueueObject.Queue.TryPeek | sw/FreeRTOS/queue.c:1758-1799 | nothing changes but that the next receiver is woken |
| QueueObject.Queue.ReceiveFromISR | sw/FreeRTOS/queue.c:1912-1972 | the first item is taken and a sender woken, or counted while locked |
| QueueObject.Queue.PeekFromISR | sw/FreeRTOS/queue.c:1975-2027 | the first item, and nothing changes |
| QueueObject.Queue.LockQueue | sw/FreeRTOS/queue.c:251-261 | both counts start at 0 unless the queue is locked already |
| QueueObject.Queue.UnlockTx | sw/FreeRTOS/queue.c:2287-2351 | the loop wakes as many receivers as items were posted, or all, or tells the set as often |
| QueueObject.Queue.UnlockRx | sw/FreeRTOS/queue.c:2355-2396 | the loop wakes as many senders as items were taken, or all |
| QueueObject.Queue.GenericReset | sw/FreeRTOS/queue.c:296-341 | the queue is empty and unlocked and one sender is woken |
| QueueObject.Queue.AddToSet | sw/FreeRTOS/queue.c:2935-2963 | an empty queue in no set joins |
| QueueObject.Queue.MayLeave | sw/FreeRTOS/queue.c:2975-2986 | the two tests of a removal: a member of this set, and empty |
| QueueObject.Queue.LeaveSet | sw/FreeRTOS/queue.c:2989-2994 | the store of a removal, which looks at nothing again |
| QueueObject.Queue.RemoveFromSet | sw/FreeRTOS/queue.c:2969-2999 | when nothing falls between the tests and the store, an empty member leaves, and no other does |
| QueueObject.OverwrittenSemaphore | sw/FreeRTOS/queue.c:865-873 | a call sequence that fails: a full semaphore of one is overwritten, and counts two |
| QueueSets.RoomForMore | sw/FreeRTOS/queue.c:3041-3044 | a set as long as its members together has room for every message not yet announced |
| QueueSets.StepInv | sw/FreeRTOS/queue.c:868-894 | every use of members and set keeps handles in the set + selections not used + deferred notifications = messages, for each member, exactly if a locked post is accounted for and a member taken out is empty at that moment |
| QueueSets.LockedPostKeeps | sw/FreeRTOS/queue.c:1191-1196 | an interrupt's post to a locked member is accounted for exactly when the count is below its cap and the post adds an item, or neither |
| QueueSets.OverwriteToldTwice | sw/FreeRTOS/queue.c:1191-1196 | a run that fails: an interrupt overwrites a locked mailbox, the set is told twice, and the mailbox is selected while it is empty |
| QueueSets.CappedCountLosesOne | sw/FreeRTOS/queue.c:270-278 | a run that fails: with one task two interrupts post to a locked member, and the second message is never announced |
| QueueSets.LeaveKeeps | sw/FreeRTOS/queue.c:2975-2994 | taking a member out of the set, whatever the tests before saw, is accounted for exactly when it is empty when NULL is stored |
| QueueSets.TakenOutTooLate | sw/FreeRTOS/queue.c:2975-2994 | a run that fails: an interrupt posts between the tests and the store; the set keeps the handle of a queue that is no member, and selects it while it is empty |
| QueueSets.ResetKeeps | sw/FreeRTOS/queue.c:305-312 | a reset of a member is accounted for exactly when it was empty |
| QueueSets.ResetMisleads | sw/FreeRTOS/queue.c:305-312 | a run that fails: a member that holds a message is reset, and the set selects it while it is empty |
| QueueSets.SetsConserve | sw/FreeRTOS/queue.h:1592-1601 | over every run in which locked posts are accounted for and nothing is left in a member when it is taken out, conservation holds, the set never overflows, and a selected member has a message to receive at once |
| QueueSets.PostFollows | sw/FreeRTOS/queue.c:856-912 | a post does to the queues themselves, member and set, what the counts say: the set gets the member's handle unless an item was replaced or the member is in no set |
| QueueSets.LockedPostFollows | sw/FreeRTOS/queue.c:1124-1196 | the same for an interrupt's post to a locked queue |
| QueueSets.LockFollows | sw/FreeRTOS/queue.c:251-263 | the same for locking |
| QueueSets.UnlockFollows | sw/FreeRTOS/queue.c:2281-2364 | the same for unlocking: the set gets as many handles as posts were counted |
| QueueSets.SelectFollows | sw/FreeRTOS/queue.c:3006-3013 | selecting is receiving from the set, and what is received is the handle of the member selected |
| QueueSets.TakeFollows | sw/FreeRTOS/queue.c:1405-1440 | the same for receiving from a member |
| EventGroups.ItemSaysIt | sw/FreeRTOS/event_groups.c:541-580 | the control bits of a list item stand for the conditions of the call, so the test in xEventGroupSetBits is prvTestWaitCondition |
| EventGroups.StoredSaysIt | sw/FreeRTOS/event_groups.c:289-305 | an unblocked task reads the bits from its item and can tell them from a time-out |
| EventGroups.UntouchedTimesOut | sw/FreeRTOS/event_groups.c:289-305 | an item that no bits were stored in reads as a time-out, whatever its task waits for |
| EventGroups.LateLook | sw/FreeRTOS/event_groups.c:425-462 | a task that timed out is answered with the bits as they are, and clears its bits if it asked for that and they meet its condition by now |
| EventGroups.WaitBitsOutcome | sw/FreeRTOS/event_groups.c:336-390 | if the condition is met the answer is the bits as they were, and the wanted bits are cleared exactly if asked for; if not, the bits are the answer and nothing changes, or the caller is the one new entry at the end, satisfied by just the bits that meet its condition and clearing what it asked to |
| EventGroups.SyncOutcome | sw/FreeRTOS/event_groups.c:206-260 | the bits are set first; if all that are wanted are there then, they are the answer and are withdrawn; if not, the caller waits for all of them, or is answered with the bits as they are |
| EventGroups.UnblocksExactly | sw/FreeRTOS/event_groups.c:561-611 | setting bits unblocks exactly the waiters that old and new bits satisfy: each of them gets those bits, nobody else is unblocked, and the others go on waiting |
| EventGroups.ClearsExactly | sw/FreeRTOS/event_groups.c:587-615 | exactly the bits that some unblocked waiter asked to have cleared are cleared |
| EventGroups.SetBitsOutcome | sw/FreeRTOS/event_groups.c:533-626 | bits are there after a set exactly if they were there or set and no satisfied waiter asked to have any of them cleared; the list keeps exactly those not satisfied, and exactly the others are released, with the bits |
| EventGroups.SetBitsInv | sw/FreeRTOS/event_groups.c:533-626 | after a set nobody on the list is satisfied by what is left of the bits |
| EventGroups.StepInv | sw/FreeRTOS/event_groups.c:194-498 | every call, time-out and late look keeps that so |
| EventGroups.RunInv | sw/FreeRTOS/event_groups.c:194-626 | and so does every run |
| EventGroups.RendezvousWaits | sw/FreeRTOS/event_groups.c:194-260 | parties that arrive one after another with nothing in between: while one is missing the group holds exactly their bits and entries |
| EventGroups.RendezvousMeets | sw/FreeRTOS/event_groups.c:212-232 | then the last party releases everybody in order, all get all the bits, and the group is exactly as before the round |
| Rendezvous.ForeignKeeps | sw/FreeRTOS/event_groups.c:194-626 | other tasks that set or clear other bits, wait, meet elsewhere or time out neither release a party nor count as one |
| Rendezvous.NobodyLeavesEarly | sw/FreeRTOS/event_groups.c:194-626 | in every run among such others: as long as a party is missing, all who arrived wait and none was released |
| Rendezvous.LastArrives | sw/FreeRTOS/event_groups.c:212-232 | whatever else waits or is set by then, the last party is answered with bits that hold all of the rendezvous, the others are released with the same, and the bits are withdrawn |
| Rendezvous.RoundAmongOthers | sw/FreeRTOS/event_groups.c:194-626 | the whole round over every run, and that what the parties got stays as it is during the next |
| EventGroupObject.EventGroup.SetBits | sw/FreeRTOS/event_groups.c:533-626 | the traversal removes exactly the satisfied items, in order, and clears their bits once at the end |
| EventGroupObject.EventGroup.ClearBits | sw/FreeRTOS/event_groups.c:473-498 | the bits before are returned, the bits named are cleared and no others, and nobody is unblocked |
| EventGroupObject.EventGroup.WaitBits | sw/FreeRTOS/event_groups.c:336-407 | blocks exactly if the condition is not met and it may; else the answer is the bits as they were, which lose those wanted exactly if the condition was met and clearing was asked for |
| EventGroupObject.EventGroup.Sync | sw/FreeRTOS/event_groups.c:212-260 | sets the bits, and then answers or waits for all the bits wanted |
| EventGroupObject.EventGroup.AfterBlock | sw/FreeRTOS/event_groups.c:425-462 | the value from the item, or after a time-out one more look at the group |
| EventGroupObject.EventGroup.Delete | sw/FreeRTOS/event_groups.c:629-646 | every waiter is unblocked and told of no bits |
| CoRoutineService.AddReadyOk | sw/FreeRTOS/croutine.c:68-75 | readying keeps every item in exactly one list |
| CoRoutineService.DelayOk | sw/FreeRTOS/croutine.c:163-191 | so does delaying |
| CoRoutineService.AwaitOk | sw/FreeRTOS/croutine.c:193-198 | so does joining an event list |
| CoRoutineService.DetachOk | sw/FreeRTOS/croutine.c:259-274 | so does leaving whatever event or pending list holds the event item |
| CoRoutineService.SignalOk | sw/FreeRTOS/croutine.c:339-349 | what an interrupt readies is put on the pending list once and is not lost |
| CoRoutineService.SignalHighest | sw/FreeRTOS/croutine.c:194-198 | in every run the co-routine that an interrupt readies waits for the event, and none that waits for it has a higher priority; it goes to the end of the pending list and nobody else moves |
| CoRoutineService.SignalledGetsReady | sw/FreeRTOS/croutine.c:202-222 | in every run, however interrupts fall, a co-routine that was signalled or whose delay ran out is on its way until it is ready, and is ready before the pending list is found empty |
| CoRoutineService.ChooseHighest | sw/FreeRTOS/croutine.c:297-311 | the co-routine chosen is the next in turn of the highest priority that has a ready one |
| CoRoutineService.CreateReadies | sw/FreeRTOS/croutine.c:119-152 | a new co-routine is ready, with the priority asked for or the highest there is, is current if nobody was, and changes no other |
| CoRoutineService.EmptyAtSwap | sw/FreeRTOS/croutine.c:236-246 | when the lists are swapped nobody is due in the epoch that ends |
| CoRoutineService.DelayMustBePositive | sw/FreeRTOS/croutine.h:310-315 | a delay keeps the schedule exactly when it is positive and below the width of the tick count |
| CoRoutineService.ZeroDelayLate | sw/FreeRTOS/croutine.c:249-277 | a delay of no ticks is worked off with the next tick, one late |
| CoRoutines.ZeroDelayStuck | sw/FreeRTOS/croutine.c:163-191 | at the last count before a wrap it leaves the co-routine on the list that is about to be swapped out |
| CoRoutines.ZeroDelayAtWrap | sw/FreeRTOS/croutine.c:230-256 | from there it is readied only after two whole turns of the tick count: one on the list not in use, one until the count is back |
| CoRoutineService.StepInv | sw/FreeRTOS/croutine.c:163-361 | every step keeps the invariant, with interrupts between any two |
| CoRoutineService.EveryRun | sw/FreeRTOS/croutine.c:202-316 | in every run each generic item is in exactly one ready or delayed list but for one being moved, pending ones are pending once, and every delay runs out exactly at its tick |
| CoRoutineService.SleepsUntil | sw/FreeRTOS/croutine.c:225-281 | over every run a delayed co-routine, one that waits for an event too, sleeps until its tick and is woken at that tick, if nobody signals it before |
| CoRoutineService.DelayExact | sw/FreeRTOS/croutine.c:163-281 | a delay of n called at tick t ends at tick t + n: not before, and once that tick is worked off |
| CoRoutineService.TimeOutExact | sw/FreeRTOS/croutine.c:163-281 | a wait for an event with a time-out of n that begins at tick t ends at tick t + n, neither before nor later, when no interrupt signals the co-routine |
| CoRoutineService.WakeDueAhead | sw/FreeRTOS/croutine.c:249-277 | after a tick nobody due at it is left |
| CoRoutineService.WakeDueReadies | sw/FreeRTOS/croutine.c:249-277 | readied at a tick are exactly those due by it, off event lists too, and nobody else has moved |
| CoRoutineService.DeliverAllReadies | sw/FreeRTOS/croutine.c:202-222 | readied from the pending list is everybody on it, off the delayed list, and nobody else has moved |
| CoRoutineService.ScheduleIsARun | sw/FreeRTOS/croutine.c:284-316 | a whole call of the scheduler, all pending delivered, each tick worked off and the next co-routine chosen, is a run of the interleaved steps with nothing in between |
| CoRoutines.WakeTimeWraps | sw/FreeRTOS/croutine.c:168-191 | the wake time is below the count exactly when it lies in the next epoch |
| CoRoutines.TickMirrored | sw/FreeRTOS/croutine.c:233-246 | at a wrap the list in use is empty and the swap keeps the ideal queue |
| CoRoutines.CoRoutineScheduler.constructor | sw/FreeRTOS/croutine.c:319-336 | all lists are empty |
| CoRoutines.CoRoutineScheduler.AddToReadyQueue | sw/FreeRTOS/croutine.c:68-75 | the co-routine goes to the end of its priority's list and the top priority is raised |
| CoRoutines.CoRoutineScheduler.AddToDelayedList | sw/FreeRTOS/croutine.c:163-199 | the current co-routine moves to the list of its wake time's epoch, at its ideal wake time |
| CoRoutines.CoRoutineScheduler.CheckPendingReadyList | sw/FreeRTOS/croutine.c:202-222 | the loop ends and readies everybody pending, in order |
| CoRoutines.CoRoutineScheduler.CheckDelayedList | sw/FreeRTOS/croutine.c:225-281 | the loops work off exactly the ticks passed, one by one, waking whoever is due at each |
| CoRoutines.CoRoutineScheduler.TickOver | sw/FreeRTOS/croutine.c:233-246 | one tick more, and the swap at a wrap, whatever is on the lists |
| CoRoutines.CoRoutineScheduler.WakeExpired | sw/FreeRTOS/croutine.c:249-277 | everybody before the first entry ahead is woken, in order |
| CoRoutines.CoRoutineScheduler.Schedule | sw/FreeRTOS/croutine.c:284-316 | the pending, then the delayed, then the choice, as the ideal scheduler does |
| CoRoutines.CoRoutineScheduler.RemoveFromEventList | sw/FreeRTOS/croutine.c:339-361 | the head goes to the pending list; true if it is at least as urgent as the current co-routine |
| CoRoutines.CoRoutineScheduler.Create | sw/FreeRTOS/croutine.c:103-160 | a new co-routine is ready, its priority capped, and the first one is current |
| Crc16.CalcCrc16 | sw/bootrom/main.c:44-57 | the nested loops compute the CRC of the bytes |
| Crc16.CrcLinear | sw/bootrom/main.c:44-57 | the CRC of a sum of units is the sum of their CRCs |
| Crc16.CrcBitSerial | sw/bootrom/main.c:44-57 | the byte-wise register is the bit-serial one, most significant bit first |
| Crc16.CrcIsRemainder | sw/bootrom/main.c:44-57 | the CRC is the remainder of the message followed by sixteen zero bits, divided by x^16 + x^12 + x^5 + 1 |
| Crc16.AcceptedIff | sw/bootrom/main.c:107-111 | a unit is accepted exactly if the CRC over data and CRC bytes together is zero |
| Crc16.BurstSeen | sw/bootrom/main.c:44-57 | no non-zero burst within sixteen bits has CRC zero |
| Crc16.BurstRejected | sw/bootrom/main.c:107-136 | a sound unit hit by such a burst, wherever it falls, is never accepted |
| Xmodem.Loader.ReceiveBlock | sw/bootrom/main.c:62-156 | for any stream, the code returned, the bytes read, the answer sent and the memory written |
| Xmodem.Loader.ReceiveAll | sw/bootrom/main.c:179-203 | for any stream, result, answers and memory are those of the block-wise specification, and nothing beyond one block past the limit is written |
| Xmodem.ParsedSound | sw/bootrom/main.c:66-155 | an accepted block is a sound frame with the expected number, and any other leaves memory and number as they were |
| Xmodem.ReceiveSound | sw/bootrom/main.c:179-203 | for any stream a result that is not negative is a multiple of 128 and at most the limit; a negative one means four errors in a row or a block too many, and memory beyond the limit is written just in the second case |
| Xmodem.OverrunExactly | sw/bootrom/main.c:183-192 | for a sender that is never refused, memory beyond the limit is written exactly when more is sent than the limit: the blocks that fit and one more are stored and acknowledged, then the download is cancelled |
| Xmodem.OneBlockTooMany | sw/bootrom/main.c:213-214 | one block more than the 512 KiB of the first download puts 128 bytes behind them |
| Xmodem.AcknowledgedIffNext | sw/bootrom/main.c:138-155 | a sound frame is acknowledged exactly if it has the next number |
| Xmodem.RepetitionRefused | sw/bootrom/main.c:138-143 | a repeated block, as after a lost acknowledgement, is refused and counted as an error |
| Xmodem.RepetitionsFail | sw/bootrom/main.c:138-200 | a sender that goes on repeating it is never acknowledged, and the download fails at the fourth error |
| Xmodem.CancelCounts | sw/bootrom/main.c:77-83 | two CAN bytes are acknowledged and counted as one error: the download goes on unless it is the fourth |
| Xmodem.NoiseRefused | sw/bootrom/main.c:66-136 | a stray header byte, CAN with another byte, a number that does not go with its complement and a frame that fails its CRC take 1, 2, 3 and 133 bytes; each is answered with NAK and counted, and the fourth error ends the download |
| Xmodem.WaitsForMore | sw/bootrom/main.c:66-107 | the receiver waits for more exactly while what it has read may still become a frame or a cancellation |
| Xmodem.NextStored | sw/bootrom/main.c:138-192 | the next frame is stored and acknowledged and the errors are counted from 0 again; past the limit the download is cancelled |
| Xmodem.EndReturns | sw/bootrom/main.c:71-75 | EOT is acknowledged and the size stored is returned |
| Xmodem.ReceivedWhole | sw/bootrom/main.c:159-203 | memory holds the data of the accepted blocks in order, the i-th of them a sound frame numbered i mod 256 |
| Xmodem.NumberValue | sw/bootrom/main.c:139-151 | block numbers count 1, 2, ... and go round after 255 |
| Xmodem.FrameParsed | sw/bootrom/main.c:91-155 | a sender's frame with the expected number is accepted |
| Xmodem.RoundTrip | sw/bootrom/main.c:159-203 | what a sender that is never refused sends is received byte for byte, and all of it is acknowledged |
| Xmodem.BurstRefused | sw/bootrom/main.c:107-136 | a frame damaged by a burst is answered with NAK and counted, and memory and the expected number are as before |

## Left out

- HeapMemory.Heap.Calloc: the clearing of the block's bytes is not modelled, because the memory kept is that of the block headers.
- HeapMemory.Heap.constructor: initialisation at the first allocation is done at construction; the heap is the same from then on.
- HeapMemory.Heap.Release: the source's assertions about the header are not preconditions, so a header that is not marked changes nothing, as when assertions are off. That holds of the headers the allocator wrote: what an application writes over the bytes of a block, stale headers inside it included, is not modelled.
- QueueObject.Queue.CopyDataToQueue: giving a mutex and giving up an inherited priority are not modelled, because ownership is decided in tasks.c.
- QueueObject.Queue.TryReceive: recording the holder of a mutex is not modelled, for the same reason.
- QueueObject.Queue.NotifyQueueSetContainer: at most 127 tasks, so that the assertion on the 8-bit lock count holds.
- QueueProtocol.NoLostWakeUp: for a queue in no set, and without tasks being deleted, suspended or changed in priority while they wait.
- QueueSets.SetsConserve: for members that are read only after they were selected, that store data if they are overwritten, and without a reset of a member that holds messages.
- StreamBuffer.Buffer.SendFromISR: a message and its length together are shorter than 2^32 bytes; no longer one fits the address space.
- StreamProtocol.AnyInterleaving: one writer and one reader, as the documentation demands; reset and deletion are not part of the interleavings.
- TimerDaemon.TimerDaemon.ProcessReceivedCommands: without an identifier outside the switch for an active timer, after which the invariant its later steps rest on is gone; ProcessCommand covers that command itself.
- Rendezvous.RoundAmongOthers: others do not set or clear bits of the rendezvous, and no party times out; with either, nothing is promised by the source.
- TimerDaemon.TimerDaemon.SetReloadMode: the two non-atomic updates of the status byte are one step.
- Xmodem.Loader.ReceiveAll: the memory given has room for one block beyond the limit; sending 'C' until the first byte arrives is left out, as it depends on a cycle counter only.
- CoRoutines.CoRoutineScheduler.CheckPendingReadyList: and the other methods of that class are for calls no interrupt falls into; interrupts at any point are in CoRoutineService.
- The return values that only say whether to yield at once, except for co-routines, because the ready lists of tasks are in tasks.c.
- Timers, co-routine control blocks and list items in the schedulers are values in maps and sequences; IntrusiveList shows once that the linked structure behaves like them, so aliasing between list items is not modelled there.
- Timer callbacks are entries in a history, and so a pended function call is a step that changes nothing: both may post commands, but never touch the lists.
- ucStatus of a timer is three booleans, and timer names and identifiers are left out.
- The waiting part of xStreamBufferSend, xStreamBufferReceive, xQueueGenericSend and xQueueReceive is in the state machines only, as a method cannot be interrupted.
- xQueueCRSend, xQueueCRReceive and their interrupt forms, mutexes and recursive mutexes, static creation, deletion, the queue registry, trace hooks and MPU wrappers would add only easy members, or need tasks.c.
- vQueueWaitForMessageRestricted is used with its contract: the daemon sleeps no longer than it asks for.
- Time-outs, task notifications, priority inheritance and the tick interrupt live in tasks.c and are used by contract.
- The jump to the loaded image, the second download and the debug output of the boot ROM are left out; the two CRC bytes are read from left to right, an order C leaves open.
