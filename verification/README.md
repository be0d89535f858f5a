# VortexMQ, verified model

A Dafny model of VortexMQ's delivery engine, its write-ahead log and its wire protocol, with
proofs of what they promise. `dafny verify dfyconfig.toml` checks all of it.

**Ring** (`Ring`, `PopWait`). The circular buffer with wrapping 64-bit cursors, masks, doubling and
dropping at saturation refines a plain deque. Its condition-variable protocol is a state machine
whose steps are the sections under the mutex, and no wake-up is lost in any run.

**Timing wheel** (`Wheel`, `WheelTime`, `WheelOrder`). Doubly linked buckets on the heap, relinked in
place, refine one list of timers per slot, and those refine a bag of (message, ticks left); the order
in which equal delays fire is proved as well.

**Topic** (`Topic` to `TopicTheorems`). Publishing, consuming, checkout, acknowledgement,
rejection, sweeps, expiry, replay and closing are cut into the sections that run under one lock.
Any number of calls interleave at these steps, so a message can also be in the hands of a call.
Conservation, delivery budget, single resolution and accounting are proved for every state of every
run. `TopicObject` puts the topic together from the ring, wheel, consumer group, message and dead
letter objects and proves what each call makes of all its fields and that it continues a run of those
steps (`TopicMemory`, `TopicCalls`, `TopicFiles`), so the theorems hold of its fields; `Lifecycle` is
a client of it. `Group` and `DeadLetters` are the consumer group and dead letter objects,
`LetterOrder` the order of dead letters and `Backoff` the retry delay; `Retries` and `Overflow` say when
a failed message comes back, `Journeys` where a message of a call lands, and `Closing` what a closed
topic still does.

**Log** (`Crc`, `Frames`, `Wal`, `Recovery`, `SegmentNames`, `Directory`, `ManySegments`). The record
format with its CRC-32 (section 8 of RFC 1952), the buffered, segmented writer, and replay by file
name after a crash or damage.

**Broker** (`Broker`, `BrokerTopics`). Logging before enqueueing, recovery at start-up, and both
together: what a broker's queues are after any crash. The topics inside the broker agree with the
topic object, operation by operation.

**Protocol** (`Resp`, `Wire`). Reader and writer of RESP2 arrays, for any bytes and any pipelining, and
what the reader makes of the bytes on the wire.

`Bits`, `Sums`, `Decimals` and `Options` hold what the others need.

Where documentation and code differ, the model follows the code. The ring is described as lock-free
but has a mutex; the wheel is described as hierarchical but has one level; the documented backoff
overflows from retry 38 on, and `Backoff.DelayIsAsIntended` gives the exact retry counts that are
unaffected. Replay is meant to follow the order of writing, and does so for fewer than a million
segments only (`ManySegments.PrefixIffFewSegments`).

Message IDs are taken to be fresh, time is an input that does not decrease, and encoding a message
as JSON is a parameter with the law that decoding gives the message back.

## Model

| member | source | states |
|---|---|---|
| Ring.RoundUp | internal/queue/ring.go:22-30 | the capacity is a power of two, at least the request and 1024, and less than twice the request unless it is 1024 |
| Ring.RoundingStops | internal/queue/ring.go:24-27 | the rounding loop ends if and only if the request is at most 2^63 |
| Ring.RingBuffer.constructor | internal/queue/ring.go:22-39 | a new ring stands for the empty deque, with every slot nil |
| Ring.RingBuffer.Len | internal/queue/ring.go:42-46 | the difference of the wrapping cursors is the length of the deque |
| Ring.RingBuffer.Grow | internal/queue/ring.go:209-224 | doubling keeps the messages in order and every slot outside the live window nil |
| Ring.RingBuffer.Push | internal/queue/ring.go:55-77 | appends to the deque: grows when full below 16,777,216 slots, drops exactly the oldest message at that size, refuses when closed |
| Ring.RingBuffer.PushFront | internal/queue/ring.go:80-100 | prepends to the deque, with the head cursor running below zero modulo 2^64; at saturation drops exactly the newest message |
| Ring.RingBuffer.Pop | internal/queue/ring.go:104-117 | takes the first message of the deque, or none, and clears its slot |
| Ring.RingBuffer.WaitPass | internal/queue/ring.go:121-169 | one pass of the waiting loop: takes the first message if and only if there is one, open or closed, expired or not; sleeps if and only if the ring is empty and open and the deadline is not over; gives up otherwise |
| Ring.RingBuffer.PopBatch | internal/queue/ring.go:172-198 | takes the first min(max, length) messages in order; nil for a max that is not positive or an empty ring |
| Ring.RingBuffer.Close | internal/queue/ring.go:201-206 | the ring is closed afterwards, with the messages it had |
| Ring.CursorSlot | internal/queue/ring.go:72-73 | for every power-of-two capacity, masking a cursor that has wrapped round 2^64 gives the slot that is i places after the head |
| Ring.CursorBackward | internal/queue/ring.go:95-96 | moving the head below zero modulo 2^64 moves it one slot back round the array |
| Ring.PushAllKeepsNewest | internal/queue/ring.go:62-73 | any series of pushes, with all the growing and dropping on the way, leaves the newest messages in order, up to the limit |
| PopWait.StepKeepsInv | internal/queue/ring.go:55-206 | every section under the mutex keeps the invariant: a sleeper never coexists with more messages than notified waiters, and a closed ring has no sleeper |
| PopWait.NoWakeUpIsLost | internal/queue/ring.go:121-169 | that invariant holds after every run of producers, bounded and unbounded waiters, late timers and Close |
| PopWait.WokenWaitersTake | internal/queue/ring.go:121-169 | once the notified waiters have run, in any order, they have taken one message each or emptied the ring |
| PopWait.NobodySleepsBesideMessages | internal/queue/ring.go:72-76 | in every reachable state in which someone sleeps, the wake-ups under way suffice to hand out every message |
| PopWait.ClosedRingDrainsInOrder | internal/queue/ring.go:201-206 | after Close nothing enters, and whatever runs takes the remaining messages from the front in order |
| PopWait.FirstInFirstOut | internal/queue/ring.go:55-198 | in every run without PushFront, what left the ring followed by what is in it is what was pushed, in order |
| PopWait.EveryMessageOnce | internal/queue/ring.go:55-198 | in every run at all, what left and what is there is, as a bag, what was pushed |
| PopWait.EmptyRingPutsToSleep | internal/queue/ring.go:125-128 | on an empty ring, a waiter that looks is asleep afterwards if and only if the ring is open and its time is not up, and nothing else changes |
| PopWait.WaiterTakesFirst | internal/queue/ring.go:129-136 | on a ring with messages, a waiter that looks takes the first of them and leaves, closed or not, late or not |
| PopWait.UnboundedWaitEndsWithMessage | internal/queue/ring.go:125-136 | in every run, from the moment a call without a time limit comes, as long as the ring is open it is asleep or on its way until it gets a message; it never comes back without one |
| PopWait.ClosedForGood | internal/queue/ring.go:201-206 | in every run, once closed a ring stays closed, takes nothing, and nobody is asleep beside it |
| PopWait.SomeSleepSomeWake | internal/queue/ring.go:72-76 | a run at the end of which one waiter sleeps while another is on its way to the only message |
| Ring.PushFrontAllStacks | internal/queue/ring.go:80-100 | a series pushed to the front comes out backwards before what was there, with exactly what exceeds the limit missing at the end |
| Wheel.TimingWheel.constructor | internal/queue/timingwheel.go:29-48 | defaults for arguments that are not positive; all buckets empty |
| Wheel.TimingWheel.Add | internal/queue/timingwheel.go:62-96 | links the entry in front of its bucket on the heap so that all buckets stay disjoint, acyclic and doubly linked, and the wheel gains exactly this timer; a delay that is not positive is left to the callback, a stopped wheel forgets the message |
| Wheel.TimingWheel.Advance | internal/queue/timingwheel.go:98-132 | relinks the visited bucket in place: the expired messages come out in walking order, the others stay with one round less in reversed order, and no other bucket changes |
| Wheel.TimingWheel.Stop | internal/queue/timingwheel.go:135-144 | closes the wheel to new timers and leaves the old ones alone |
| Wheel.LinkInto | internal/queue/timingwheel.go:85-95 | linking one entry into one bucket keeps all buckets well formed and pairwise disjoint |
| Wheel.SplitIn | internal/queue/timingwheel.go:102-123 | the list walk splits one bucket exactly into expired and retained entries and keeps all buckets well formed |
| Wheel.Split | internal/queue/timingwheel.go:105-122 | the walk over one linked list: every entry is either expired, in order, or relinked in front of the retained ones |
| WheelTime.EveryTimerWaits | internal/queue/timingwheel.go:82-83 | slot and rounds of every entry encode a number of ticks left, and the bag of (message, ticks left) misses no entry |
| WheelTime.AddWaits | internal/queue/timingwheel.go:77-95 | for every slot count, current slot and delay, adding puts exactly one copy in the bag, at exactly the requested ticks |
| WheelTime.AdvanceTicks | internal/queue/timingwheel.go:98-123 | an advance takes one tick off every timer that has one left |
| WheelTime.DueIsZeroTicks | internal/queue/timingwheel.go:105-111 | an advance fires exactly the timers with no tick left |
| WheelTime.FiresWhenWaiting | internal/queue/timingwheel.go:62-132 | in every sequence of adds, advances and stops, the k-th batch fires a message as often as it had k ticks left |
| WheelTime.AddedFiresExactlyOnce | internal/queue/timingwheel.go:77-132 | a message added once fires exactly once, on advance number max(1, delay / interval) + 1, whatever else is added |
| WheelOrder.ExpiredInWalkingOrder | internal/queue/timingwheel.go:98-123 | of two timers of one bucket that fire together, the one linked later fires first |
| WheelOrder.RetainedTurnsRound | internal/queue/timingwheel.go:106-117 | of two timers that stay in a bucket, an advance turns the order round |
| WheelOrder.LaterFiresFirst | internal/queue/timingwheel.go:85-123 | of two messages scheduled one after the other with the same delay, whatever else is scheduled, the later one fires first if the number of full rounds they wait is even, and the earlier one if it is odd |
| Backoff.DelayIsAsIntended | internal/queue/consumer_group.go:105-109 | the delay computed in 64-bit arithmetic is min(10 s, 100 ms * 2^(n-1)), and is positive, if and only if the retry count is at most 37 or one of 39, 45, 47, 52, 53, 54, 55 |
| Backoff.DelayGrows | internal/queue/consumer_group.go:105-109 | up to retry 37 a later delay is never shorter, and all lie between zero and ten seconds |
| Retries.NackDelayIsPositiveIffSafe | internal/queue/consumer_group.go:100-113 | a rejected message goes to the wheel if and only if it has retries left, and then with a positive delay if and only if the retry count is a safe one |
| Retries.NackDelayIsIntendedIffSafe | internal/queue/consumer_group.go:105-112 | a rejected message with retries left waits the documented min(10 s, 100 ms doubled per retry) if and only if the retry count is a safe one |
| Retries.EveryRetryIsDelayed | internal/queue/consumer_group.go:100-113 | with MaxRetries at most 38 every retry reaches the wheel with a positive delay |
| Backoff.FirstOverflow | internal/queue/consumer_group.go:105-109 | retry 38 gets a delay that is not positive where ten seconds were meant |
| Backoff.OverflowsToZero | internal/queue/consumer_group.go:105-106 | from retry 65 on the product is zero |
| Group.ConsumerGroup.constructor | internal/queue/consumer_group.go:29-48 | no pending entries; thirty seconds unless a positive timeout is given |
| Group.ConsumerGroup.Checkout | internal/queue/consumer_group.go:51-71 | files the message under its ID with consumer, time and deadline, and stamps the message itself |
| Group.ConsumerGroup.Ack | internal/queue/consumer_group.go:74-83 | removes the entry of that ID, whoever checked it out, and answers whether there was one |
| Group.ConsumerGroup.Nack | internal/queue/consumer_group.go:86-115 | removes the entry, counts one failure on the message and routes it: dead letters from the limit on, else the wheel with the delay that `Retries.NackDelayIsIntendedIffSafe` gives; other messages are untouched; required is only what keeps the source from shifting by a negative number |
| Group.ConsumerGroup.TakeOverdue | internal/queue/consumer_group.go:118-129 | takes out all and only the entries whose deadline is not after now, each once |
| Group.ConsumerGroup.SweepTimeouts | internal/queue/consumer_group.go:118-145 | every overdue message and no other counts one failure and is routed: dead letters from the limit on, else 500 ms |
| DeadLetters.DeadLetterQueue.constructor | internal/queue/dlq.go:25-34 | empty; 50,000 entries unless a positive bound is given |
| DeadLetters.DeadLetterQueue.Add | internal/queue/dlq.go:37-59 | map and order list together stand for the bounded FIFO list: a known ID is replaced in place, any other goes last, and the oldest entry is evicted first when full |
| DeadLetters.DeadLetterQueue.List | internal/queue/dlq.go:70-92 | returns as many entries as lie between the offset and the end, up to the limit, and entry i is the one at offset + i, for all bounds on which the source does not panic |
| DeadLetters.DeadLetterQueue.Remove | internal/queue/dlq.go:95-112 | returns the entry and closes the gap; nothing happens for an unknown ID |
| DeadLetters.DeadLetterQueue.Len | internal/queue/dlq.go:115-119 | the size of the map is the length of the list |
| DeadLetters.DeadLetterQueue.Purge | internal/queue/dlq.go:122-130 | empties the queue and answers how many entries there were |
| DeadLetters.PutKeepsShape | internal/queue/dlq.go:37-59 | adding keeps the IDs distinct and the bound, and the new entry is found |
| DeadLetters.PutLosesOnlyOldest | internal/queue/dlq.go:41-46 | adding loses another entry if and only if the queue is full and it is the oldest one |
| LetterOrder.LettersAreInOrderOfArrival | internal/queue/dlq.go:37-130 | after any sequence of additions, removals and purges, the queue lists exactly the surviving letters, each with its latest entry, in the order in which they came in; a full queue gives up the one that came in first |
| LetterOrder.NewLetterIsLast | internal/queue/dlq.go:41-58 | an unknown letter is the last one after its addition, and before it is the old queue without its first letter if it was full |
| DeadLetters.DropForgetsOnlyTheKey | internal/queue/dlq.go:95-112 | removing forgets that ID and no other |
| DeadLetters.PagesReadInOrder | internal/queue/dlq.go:70-92 | n consecutive pages are one page of n times the size, without gap or repetition |
| DeadLetters.PagesListEverything | internal/queue/dlq.go:70-92 | enough pages from the start list the whole queue, oldest first |
| Conservation.StepConserves | internal/queue/topic.go:56-223 | no step of any call, in any interleaving, creates, duplicates or forgets a message |
| Accounting.StepBalances | internal/queue/topic.go:69-223 | every step keeps the counters and the flows between ring, wheel, pending lists and dead letters in balance |
| Delivery.StepKeepsBudget | internal/queue/consumer_group.go:86-145 | every step keeps deliveries, retry count and place of every message in agreement |
| Leases.SweepIsOrderly | internal/queue/consumer_group.go:118-129 | a sweep at time now removes from the group all and only the entries with deadline at most now, and ends each of these checkouts once |
| Leases.StepIsOrderly | internal/queue/consumer_group.go:51-145 | under every step, each checkout that has begun has ended exactly once or is still pending, and no sweep ends one early |
| TopicRuns.StepKeepsLaws | internal/queue/topic.go:47-273 | all these laws together are kept by every step |
| TopicRuns.EveryRunKeepsTheLaws | internal/queue/topic.go:47-273 | they hold in every state of every run of every interleaving of calls |
| TopicTheorems.EveryMessageInOnePlace | internal/queue/topic.go:56-223 | in every reachable state a submitted message is exactly once in exactly one of ring, wheel, one pending list, dead letters, the hands of one call, or its end; no other message is anywhere |
| TopicTheorems.DeliveriesAreBounded | internal/queue/consumer_group.go:96-143 | in every reachable state a message has been checked out at most max(1, MaxRetries) times since its publication or last replay, exactly RetryCount times while it waits, once more while pending or acknowledged, and exactly the limit when it is a dead letter |
| TopicTheorems.AcknowledgedIsGone | internal/queue/consumer_group.go:74-83 | once acknowledged, a message is never again in the ring, the wheel, a pending list, the dead letters or the hands of a call |
| TopicTheorems.CheckoutsEndOnceAndNotEarly | internal/queue/consumer_group.go:51-145 | in every reachable state, checkouts begun equal checkouts ended plus those pending, per group and message, and every time-out is of a genuine checkout at least thirty seconds old |
| TopicTheorems.AccountsBalanceWhenQuiet | internal/queue/topic.go:69-261 | whenever no call is under way: published + retries + replays = consumed + ring + wheel + losses; checkouts = acked + nacked + timed out + pending; nacked + timed out = retries + dead-lettered; dead-lettered = dead letters + replays + dead letters lost |
| Fates.FateIsFinal | internal/queue/topic.go:69-223 | refused, consumed, acknowledged or lost, in every run it stays so |
| Fates.NothingLostWithoutReason | internal/queue/topic.go:56-58 | in every run a message is lost only to ring saturation, a full or purged dead letter queue, or a ring or wheel already closed, and refused only when closed |
| Fates.CalmRunsLoseNothing | internal/queue/topic.go:69-223 | as long as a topic is open, has room and is not purged, every message is still in it, consumed or acknowledged |
| Retries.RoutedStraightIffOverflown | internal/queue/consumer_group.go:96-113 | in every run, a failed message is in the ring right after it was routed if and only if it was rejected with retries left, the delay for this retry has overflowed, and the ring is open |
| Retries.FewRetriesAreNeverStraight | internal/queue/consumer_group.go:96-113 | in every run, a message with MaxRetries at most 38 is never routed straight to the ring |
| Overflow.RetryThirtyEightIsNotDelayed | internal/queue/consumer_group.go:105-112 | a run from an empty topic, with MaxRetries 39, in which the 38th rejection puts the message straight back into the ring |
| Retries.StepKeepsTimer | internal/queue/timingwheel.go:62-132 | every step of every call leaves the timer of a waiting message as it is, but an advance takes one tick off or, with none left, hands exactly then the message to the expiry callback |
| Retries.TimerRunsDown | internal/queue/timingwheel.go:77-123 | in every run, a waiting message has the ticks left that its timer had less the advances since |
| Retries.RetriedOnTime | internal/queue/topic.go:139-146 | in every run, a failed message that goes round the wheel is dispatched by exactly the advance number max(1, delay / tick) + 1 after it was routed |
| Retries.RejectedComesBackOnTime | internal/queue/consumer_group.go:96-113 | in every run, a message rejected for the (n + 1)-th time, n + 1 a safe count, is dispatched by exactly the advance number p / 50 ms + 1 after it was routed, with p = min(10 s, 100 ms * 2^n) |
| Retries.TimedOutComesBackOnTime | internal/queue/consumer_group.go:131-143 | in every run, a message that timed out with retries left is dispatched by exactly the eleventh advance after it was routed, which is 500 ms |
| Retries.LastFailureIsDeadLetter | internal/queue/consumer_group.go:100-104 | in every run, a message that fails for the last time is the last dead letter right after it was routed, with the number of its failures |
| Journeys.CallWaits | internal/queue/topic.go:69-223 | in every run, what a call holds between two of its steps is not changed by any step of other calls |
| Journeys.PublishedIsPlaced | internal/queue/topic.go:69-100 | in every run, the message of a Publish is the last in the ring and that of a PublishFront the first; the others keep their order and at most the one at the other end of a ring of 16,777,216 is gone |
| Journeys.ExpiredIsPlaced | internal/queue/timingwheel.go:118-123 | in every run, a message that the wheel lets go becomes the last in an open ring |
| Journeys.ReplayedIsPlaced | internal/queue/topic.go:212-223 | in every run, a replayed dead letter becomes the last in an open ring |
| Journeys.DelayedComesOnTime | internal/queue/topic.go:103-108 | in every run, a message published with a positive delay is dispatched by exactly the advance number max(1, delay / 50 ms) + 1 after its timer was set |
| Journeys.CheckedOutForThirtySeconds | internal/queue/topic.go:158-170 | in every run, a group read takes the first message and writes it down for this consumer until thirty seconds from then; no other pending entry changes |
| Closing.ClosedRingDrains | internal/queue/topic.go:264-273 | in every run, once its ring is closed it stays closed, nothing enters it, and what was in it is taken from the front in order |
| Closing.ClosedTopicRefuses | internal/queue/topic.go:69-100 | in every run, once a topic has begun to close, every later Publish and PublishFront is refused at once: its message is recorded as refused and nothing else changes |
| Closing.StoppedWheelRunsDown | internal/queue/timingwheel.go:135-144 | in every run, once the wheel is stopped no timer is set, and those that are set lose one tick per advance as before |
| TopicObject.Topic.constructor | internal/queue/topic.go:47-61 | a new topic, with a ring of the given capacity, 3600 slots of 50 ms and room for 50,000 dead letters, is the start state of the machine |
| TopicObject.Topic.Publish | internal/queue/topic.go:69-100 | on the real ring and with a new message object: all fields afterwards are those of the published message, refused where the topic or the ring is closed; the run goes on by the steps submit, push, count, cut short accordingly |
| TopicObject.Topic.PublishDelayed | internal/queue/topic.go:103-108 | counts, then schedules on the real wheel, whether or not the topic is closed; all fields and the steps are stated |
| TopicObject.Topic.Consume | internal/queue/topic.go:111-118 | takes the first message of the ring, if any, and counts it; all fields and the steps are stated |
| TopicObject.Topic.GetOrCreateGroup | internal/queue/topic.go:131-155 | the group is there afterwards, as an object of its own, and was created only if it was not |
| TopicObject.Topic.ConsumeGroup | internal/queue/topic.go:158-170 | creates the group if needed, takes the first message if any, and checks it out of the real group for thirty seconds from whatever time the clock shows then |
| TopicObject.Topic.Ack | internal/queue/topic.go:173-187 | succeeds if and only if the group has the message pending; then the entry is gone and counted, and nothing else changes |
| TopicObject.Topic.Nack | internal/queue/topic.go:190-204 | succeeds if and only if the group has the message pending; then the entry is gone, the message object has one more failure, and the message is in the wheel, the ring or the dead letters as the group decided, with the counts; nothing else changes |
| TopicObject.Topic.Deliver | internal/queue/topic.go:139-152 | the two callbacks on the real parts: the dead letter queue with the retry count of the message object, or the wheel, or the ring when the delay is not positive |
| TopicObject.Topic.SweepGroup | internal/queue/consumer_group.go:118-145 | at any later time: exactly the overdue entries are gone from the real group, each of their message objects has one more failure, and each message is where the group sent it |
| TopicObject.Topic.SweepConsumerTimeouts | internal/queue/topic.go:248-261 | every group is visited once, each at the time the clock shows then, and finds exactly what is overdue; all fields, the steps and the total are stated |
| TopicObject.EveryGroupIsSweptOnce | internal/queue/topic.go:248-261 | after a sweep of all groups each of them has lost exactly what was overdue when its turn came |
| TopicObject.Topic.Tick | internal/queue/topic.go:56-58 | pushes exactly the messages that are due to the ring, in order, one step each, and changes nothing else |
| TopicObject.Topic.ReplayDeadLetter | internal/queue/topic.go:212-223 | succeeds if and only if the message is a dead letter; then it is gone from that queue, its object has no retries, and it is in the ring |
| TopicObject.Topic.Purge | internal/queue/dlq.go:122-130 | the dead letters of the topic are empty and the answer is how many there were |
| TopicObject.Topic.Close | internal/queue/topic.go:264-273 | topic, ring and wheel are closed and nothing else changes; once |
| TopicObject.MessageIsInOnePlace | internal/queue/topic.go:47-273 | between two calls on the object, every message it was given is in exactly one of its ring, its wheel, one pending list, its dead letters, or gone |
| TopicObject.CountersBalance | internal/queue/topic.go:69-261 | between two calls the counter fields of the object balance with the contents of its parts |
| Lifecycle.OneTimesOutOneIsAcknowledged | internal/queue/topic.go:69-261 | a client: of two messages published to a new topic one is checked out; thirty seconds later the sweep takes back exactly that one, which has then failed once, and the other is checked out and acknowledged |
| Lifecycle.NewTopic | internal/queue/topic.go:47-61 | a new topic is what that client starts from: open, quiet and empty |
| TopicFiles.NackIn | internal/queue/consumer_group.go:86-115 | a rejection by one group takes the entry away and counts one failure on the message object that the whole topic shares |
| TopicFiles.SweepIn | internal/queue/consumer_group.go:118-145 | a sweep of one group counts one failure on exactly the overdue message objects and says where each goes |
| TopicCalls.NackRun | internal/queue/topic.go:190-204 | an uninterrupted rejection is a continuation of any run, by exactly these steps and with exactly this effect on all fields |
| TopicCalls.SweepRun | internal/queue/consumer_group.go:118-145 | so is an uninterrupted sweep of a group: clock, removal of the overdue entries, one routing each, end |
| TopicCalls.TickRun | internal/queue/topic.go:56-58 | so is a tick with the dispatch of everything that is due |
| TopicMemory.SweepDoes | internal/queue/consumer_group.go:118-129 | the sweep step removes from memory the overdue entries of that group and changes nothing else |
| TopicMemory.RouteDoes | internal/queue/consumer_group.go:96-143 | the routing step changes memory as the failure of that one message does, and nothing else |
| Crc.StreamingIsOneShot | internal/wal/wal.go:127-131 | for all byte strings, the checksum written in two parts is the one-shot checksum of the concatenation |
| Crc.BurstIsDetected | internal/wal/wal.go:221-225 | for data of any length, changing up to four consecutive bytes changes the checksum |
| Crc.DivisorIsThatOfTheStandard | internal/wal/wal.go:127-131 | the divisor is the CRC-32 polynomial with its bits reversed: the terms with exponents 26, 23, 22, 16, 12, 11, 10, 8, 7, 5, 4, 2, 1 and 0 |
| Crc.CheckValues | internal/wal/wal.go:127-131 | known checksums: of the empty string, of four bytes FF, and of those followed by 80 |
| Frames.RoundTripsIffEncodable | internal/wal/wal.go:119-134 | a record survives writing and reading if and only if its payload is shorter than 2^32 - 9 bytes |
| Frames.BigIsBigEndian | internal/wal/wal.go:125-132 | lengths and checksums are written with the highest byte first |
| Frames.LogRoundTrips | internal/wal/wal.go:202-228 | reading the encoding of any list of records returns the list |
| Frames.CutLogYieldsWholeRecords | internal/wal/wal.go:202-228 | reading it cut at any byte returns exactly the records that lie wholly before the cut |
| Frames.WholeIsLargest | internal/wal/wal.go:202-219 | that many records fit before the cut, and no more |
| Frames.GoodRecordsFirst | internal/wal/wal.go:202-240 | whatever bytes follow good records, those records are read first |
| Frames.DamagedBodyIsDetected | internal/wal/wal.go:221-225 | damage to up to four consecutive bytes of opcode and payload ends the segment after exactly the records before it |
| Frames.DamagedChecksumIsDetected | internal/wal/wal.go:221-225 | so does any damage to the checksum field |
| Frames.DamagedByteIsDetected | internal/wal/wal.go:202-225 | so does any single changed byte behind the length field |
| Wal.WAL.constructor | internal/wal/wal.go:51-83 | an empty log in an empty directory |
| Wal.WAL.BufferedWrite | internal/wal/wal.go:71 | file and buffer together grow by exactly the data; the file grows if and only if data and buffer exceed 256 KiB together |
| Wal.WAL.WriteRecord | internal/wal/wal.go:111-155 | a closed log refuses and changes nothing; otherwise the bytes of all segments and the buffer are the encodings of all records written, with this one last, rotating at 64 MiB; fewer than 128 KiB stay in the buffer, and below that nothing reaches the file; under FsyncAlways everything written is then permanent |
| Wal.WAL.RotateSegment | internal/wal/wal.go:157-172 | the old segment is complete and permanent, the new one empty, and no record moves |
| Wal.WAL.Sync | internal/wal/wal.go:175-184 | everything written so far becomes permanent |
| Wal.WAL.Close | internal/wal/wal.go:247-269 | everything written becomes permanent and the log is closed; a second time does nothing |
| Recovery.ReadRecord | internal/wal/wal.go:203-228 | one turn of the loop reads what the format says: header, length, body, checksum |
| Recovery.ReplaySegment | internal/wal/wal.go:196-241 | hands out, in order, the decodable publish records before the end or the first bad record of the segment |
| Recovery.Replay | internal/wal/wal.go:187-244 | does so for every segment file of the directory, in the order of their names, and counts the messages |
| Recovery.CrashLeavesAPrefix | internal/wal/wal.go:111-244 | with fewer than a million segments, whatever byte prefixes a crash leaves at or past the last fsync, replay by name finds a prefix of the records written that contains all permanent ones |
| Recovery.DurableSurvivesCrash | internal/wal/wal.go:142-144 | with fewer than a million segments, when everything was permanent, replay by name finds all of it |
| Recovery.DamageIsContained | internal/wal/wal.go:221-240 | with fewer than a million segments, a changed byte costs the rest of its segment; segments before and after it are replayed in full |
| Directory.Glob | internal/wal/wal.go:188-196 | lists exactly the segment files, in the one order in which their names are sorted |
| Directory.ListingIsUnique | internal/wal/wal.go:188-196 | a set of names can be sorted in one way only |
| Directory.SegmentsMatchThePattern | internal/wal/wal.go:188 | the files taken for segments are exactly those whose name begins with vortexmq_ and ends with .wal behind it |
| Directory.FewAreReadInOrder | internal/wal/wal.go:165-196 | fewer than a million segments are read in the order they were created in |
| ManySegments.ManyAreReplayedOutOfOrder | internal/wal/wal.go:165-196 | for every number of segments from a million on, a log that can be written, is permanent, and whose replay by name is no prefix of what was written |
| ManySegments.PrefixIffFewSegments | internal/wal/wal.go:165-244 | replay finds a prefix of what was written, for all writes and all crashes, if and only if there are fewer than a million segments |
| SegmentNames.NamesInOrder | internal/wal/wal.go:165 | below a million, names sort like numbers |
| SegmentNames.FirstName | internal/wal/wal.go:64 | the first segment is vortexmq_000001.wal |
| SegmentNames.MillionthSortsEarly | internal/wal/wal.go:165 | segment 1,000,000 sorts before segment 100,001 |
| Broker.Broker.GetOrCreateTopic | internal/queue/broker.go:96-107 | an unknown topic is created empty, with 131,072 slots; a known one stays as it is |
| Broker.Broker.Publish | internal/queue/broker.go:118-155 | logged first, enqueued second: a closed log means an error and nothing enqueued, a closed topic an error with the record logged; what is accepted under FsyncAlways is permanent; whatever waits in a topic is in the log, recovered, or batched past a closed log |
| Broker.Broker.PublishDelayed | internal/queue/broker.go:158-171 | logged first, scheduled second, whether or not the topic is closed |
| Broker.Broker.PublishBatch | internal/queue/broker.go:174-191 | a batch is logged in full if and only if the log is open and enqueued in full, in order, if and only if the topic is; the answer counts the latter |
| Broker.Broker.Consume | internal/queue/broker.go:240-251 | takes the first message of a known topic, if any, and counts it; an unknown topic is not created |
| Broker.Broker.ConsumeGroup | internal/queue/broker.go:254-261 | topic and group are there afterwards; the first message, if any, is checked out for thirty seconds and counted |
| Broker.Broker.Ack | internal/queue/broker.go:264-278 | succeeds if and only if the topic is known and its group has the message pending; for all topics, groups and IDs, the pending entry afterwards is the one before, except that the acknowledged one is gone; a success is counted and appended to an open log |
| Broker.Broker.Recover | cmd/vortexmq/main.go:76-87 | the topics are those of the messages replayed from the directory by name, published one by one; nothing is appended to the log |
| Broker.Broker.Close | internal/queue/broker.go:341-361 | closes every topic and then the log, whose records are permanent then; once |
| BrokerTopics.PublishesAgree | internal/queue/broker.go:118-155 | the topic inside the broker does what the topic object does on Publish and PublishFront: same ring, wheel, groups and count |
| BrokerTopics.DelayedPublishesAgree | internal/queue/broker.go:158-171 | the same for PublishDelayed |
| BrokerTopics.ConsumersAgree | internal/queue/broker.go:240-251 | the same for Consume |
| BrokerTopics.JoinsAgree | internal/queue/broker.go:254-261 | the same for joining a group |
| BrokerTopics.LeasesAgree | internal/queue/broker.go:254-261 | the same for a checkout |
| BrokerTopics.AcksAgree | internal/queue/broker.go:264-278 | the same for Ack |
| BrokerTopics.ClosingsAgree | internal/queue/broker.go:341-361 | the same for Close |
| BrokerTopics.NewTopicsAgree | internal/queue/broker.go:96-107 | a new topic has 131,072 slots, 3,600 wheel slots and nothing in it, in both models |
| Broker.RecordsOf | internal/wal/wal.go:20-21 | a publish is logged with code 1 and the encoded message, an acknowledgement with code 2 |
| Broker.LatePublishIsTakenByNewTopics | internal/queue/broker.go:96-107 | after Close a topic takes messages if and only if the broker did not have it before |
| Broker.RecoveredQueueIsLogOrder | cmd/vortexmq/main.go:76-87 | for every log, each recovered queue holds the messages of its topic in log order: all of them, or the newest 16,777,216; no other topic exists |
| Broker.ReplayFindsPublished | internal/wal/wal.go:230-237 | replaying the log of any session finds exactly the published messages, in order, acknowledged or not |
| Broker.CrashRecovery | cmd/vortexmq/main.go:76-87 | after any crash that leaves fewer than a million segments the queues are rebuilt from a prefix of what the broker logged that contains everything permanent |
| Broker.DurableRecovery | cmd/vortexmq/main.go:76-87 | with fewer than a million segments, when everything logged was permanent, they are rebuilt from all of it |
| Broker.BrokerSurvivesCrash | internal/wal/wal.go:111-244 | for a broker in any state with fewer than a million segments: whatever a crash leaves of its log, the queues are rebuilt from a prefix of its events with everything permanent in it, and from all of them under FsyncAlways or after Close |
| Resp.ParseUint | internal/protocol/resp.go:50-62 | accumulates digits in wrapping 64-bit arithmetic; an empty or non-digit string is an error |
| Resp.ParseInt | internal/protocol/resp.go:64-73 | the same with an optional minus sign |
| Resp.UintOfItoa | internal/protocol/resp.go:50-73 | parsing inverts decimal printing, without overflow, for every 0 <= n < 2^63 |
| Resp.Reader.ReadLine | internal/protocol/resp.go:156-175 | however many buffer-sized pieces a line arrives in, it comes out whole and the stream is left right behind it |
| Resp.Reader.ReadElement | internal/protocol/resp.go:114-143 | reads one element of a command array, or fails as the source does |
| Resp.Reader.ReadCommand | internal/protocol/resp.go:81-154 | reads the next command of the stream as the grammar function says, errors included; `Wire` says what that is on the wire |
| Resp.AcceptedIsBounded | internal/protocol/resp.go:75-143 | for every stream, overflowing digit strings included, an accepted array command stands for 1 to 65,536 elements, the one that gives its name included, each null or at most 64 MiB |
| Resp.Writer.WriteBulkString | internal/protocol/resp.go:221-232 | appends the wire form of a null or a byte string |
| Resp.Writer.WriteArray | internal/protocol/resp.go:234-248 | appends the wire form of an array; a nil array is written as an empty one |
| Resp.ElementOfBulk | internal/protocol/resp.go:124-142 | a written element of at most 64 MiB reads back, whatever bytes it holds |
| Resp.ArrayReadsBackIffWithinLimits | internal/protocol/resp.go:81-154 | a written array reads back as the command it stands for, with the rest of the stream untouched, if and only if it is non-empty and within the limits |
| Resp.PipelineReadsBack | internal/protocol/resp.go:81-154 | any pipeline of such arrays reads back command by command, in order, with the rest untouched |
| Wire.CommandIsNamedInCapitals | internal/protocol/resp.go:149-153 | a written array whose first element is ASCII text reads as a command with a name of the same length and no small letter in it, the same text up to case, and with the other elements as arguments |
| Wire.CaseMakesNoDifference | internal/protocol/resp.go:149-153 | two spellings that differ in case only are the same command |
| Wire.PingIsPing | internal/protocol/resp.go:81-154 | PING, byte for byte as it is written, in capitals or not, reads as PING |
| Wire.DigitsReadAsWrappedValue | internal/protocol/resp.go:50-62 | a digit string of any length reads as its value modulo 2^64, as a signed number |
| Wire.NegativeLengthIsNull | internal/protocol/resp.go:124-135 | every negative length stands for null |
| Wire.TrailerIsNotLookedAt | internal/protocol/resp.go:136-142 | the two bytes behind a payload are skipped, whatever they are |
| Wire.ShortPayloadFails | internal/protocol/resp.go:136-142 | a payload that ends too soon is an error |
| Wire.OtherLines | internal/protocol/resp.go:81-122 | a line that does not start like an element or an array is an error or an inline command |
| Wire.UnfinishedLine | internal/protocol/resp.go:156-175 | a last line without an end is returned if it is shorter than the buffer of 64 KiB, and not if it fills the buffer, unless with a carriage return |

## Left out

- Group.ConsumerGroup.Checkout: deadlines are unbounded integers; the sum of time and timeout does not overflow.
- Group.ConsumerGroup.Nack: the callbacks appear as the returned route; `TopicObject.Topic.Deliver` is what they do.
- Ring.RingBuffer.constructor: requires a request of at most 2^63, beyond which the source does not terminate (`Ring.RoundingStops`).
- Ring.RingBuffer.WaitPass: one pass of the loop in `PopWait`; sleeping and waking are steps of module `PopWait`, and timers are steps that may come at any time.
- Wheel.TimingWheel.Add: the callback for a delay that is not positive is the caller's, which the result says; `TopicObject.Topic.Schedule` puts the two together.
- DeadLetters.DeadLetterQueue.List: requires bounds on which the source does not panic.
- Wal.WAL.WriteRecord: requires a payload below 2^32 - 9 bytes; `Frames.RoundTripsIffEncodable` says what happens otherwise.
- TopicObject.Topic.Publish: like all calls on the object it runs without interruption; interleavings are those of the state machine. The ring, the wheel and the dead letters refer to message objects by ID, and a dead letter is not a copy of its message but its ID and retry count.
- TopicObject.Topic.ConsumeGroup: the wait for a message is over when the model begins; blocking is modelled in `PopWait`.
- Broker.Broker.Publish: topics are the values their ring, wheel and pending lists stand for, and retries and ticks are not part of the broker model; the log is one session that starts in an empty directory.
- Broker.Broker.ConsumeGroup: like Consume, begins when the wait for a message is over.
- Reopening a log: `OpenWAL` appends to segment 000001 again and keeps a torn tail, so no order or completeness is claimed over several sessions.
- Failing file operations: reads, writes and syncs succeed, as the code assumes by ignoring their errors.
- Damage to the length field of a record, which no checksum covers.
- JSON encoding of messages, and the other fields of a message (headers, priority, timestamps).
- Uniqueness of message IDs.
- Inline commands: how a line splits into words, and the lifetime of those words in the read buffer.
- Upper-casing of command names outside ASCII is a parameter.
- The converse of the RESP round trip: the reader accepts more than the writer produces.
- Simple strings, errors, integers and raw replies: each appends a fixed form.
- `DeadLetterQueue.Get`, which releases a lock it does not hold and is not called.
- Lists and counts for monitoring, byte counters, heartbeats, statistics.
- Channels and broadcast, command dispatch, authentication, the HTTP interface, the command line and the web pages.
- Wall-clock time: the wheel is stated in ticks.
