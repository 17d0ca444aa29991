# SG Producer-Consumer Message Broker, modelled in Dafny

A model of the core of the SG Producer-Consumer Message Broker, with proofs.
The system has three parts:

- an HTTP broker (`MessageBrokerController`) that keeps one priority queue of
  pending messages per producer/consumer channel;
- producers that post numbered messages to the broker;
- consumers that receive, acknowledge and consume them.

The model covers three pieces of sequential logic:

1. **Broker channel state**: modules `ChannelQueue`, `Broker` and `Delivery`.
   - A channel is identified by the key `{producerId}-{consumerId}`.
   - Each channel's pending messages form a queue kept sorted by sequenceId.
   - Each channel also has a cursor, the next sequenceId it will hand out (1 by default).
   - `Send` enqueues a message unless its sequenceId is already pending.
   - `Receive` peeks at the smallest pending sequenceId. It hands that message out only when it equals the cursor, and then advances the cursor. It never removes anything.
   - `Acknowledge` removes a message by sequenceId.
   - `Check` is the liveness probe.
   - `Delivery` runs any sequence of requests and proves the ordering properties: a channel hands out 1, 2, 3, … in order, and stays blocked behind a delivered message until that message is acknowledged.
2. **Backup-swap persistence**: modules `Store` and `Persistence`.
   - A save copies the primary file over the backup, writes the primary, then deletes the backup.
   - A load reads the backup when both files exist, and the primary otherwise.
   - The disk is a map from path to what the parser would see in the file.
   - A save may stop after any of its steps, or partway through writing a file.
   - `SaveMessages` flattens all queues into one list sorted by sequenceId, and `LoadMessages` regroups that list by channel key.
   - `LoadSequenceTracker` and `SaveSequenceTracker` do the same for the cursor table.
3. **Client state machines**: modules `Transport`, `ConsumerClient` and `ProducerClient`.
   - `ReceiveAndProcessMessage` (consumer) and `SendMessage` (producer) are each modelled as a deterministic transition function.
   - The state is the retry counter plus the point the call has reached. The input is an abstract reply: `Ok`, `NoContent`, `NonSuccess` or `Exception`.
   - The producer's worker loop is modelled too: take the next sequence number, produce, send.

SequenceIds, cursors and the producer's sequence counter are C# `int`s, modelled
by the `int32` newtype. The two `++` operations that can wrap are modelled with
explicit wrap-around (`Contract.Inc`): the cursor and the producer's sequence
counter. The clients' retry counters are `nat`s. The invariant `Inv` keeps each
one at most its `RetryNumber` (at most 0 when that is not positive), so they
cannot wrap.

Points where the code behaves differently from what one might expect, all modelled as the
code does:

- **Key collisions.** The channel key is a plain concatenation. So ("a-b", "c")
  and ("a", "b-c") share one channel (`Contract.KeyNotInjective`). The key is
  injective when no producer id contains `-` (`Contract.KeyInjectiveWithoutDash`),
  and likewise when no consumer id does (`Contract.KeyInjectiveWithoutDashInConsumer`).
  A collision needs a `-` in one pair's producer id and another in the other
  pair's consumer id. The shipped clients use C# type names as ids, and these
  cannot contain `-`, so only a hand-written HTTP client can cause a collision.
- **Ack ids.** The consumer's Ack carries the producerId and consumerId the consumer is
  configured with, plus the received message's sequenceId. It does not carry
  the ids in the message.
- **Undecodable Receive body.** When a 2xx Receive has a body that is not a message, the consumer first resets its
  counter and then takes the exception path. The counter becomes 1, not the
  old value plus one.
- **Exception in the producer's re-post.** If the producer's wait-mode re-post throws, the empty `catch` goes back to
  probing `Check`. The re-post happens "exactly once, ignoring the outcome" only
  when it does not throw.
- **Cursor on the gap branch.** `Receive` stores the default cursor 1 for a channel even when it then
  answers NoContent because of a gap.
- **Torn backup copy.** A save that stops partway through the backup copy leaves a torn backup
  beside an intact primary, and the next load reads the torn backup
  (`Store.TornCopyIsRead`). A save that stops before its first step while a
  stale backup is present leaves the load reading that stale backup, as it did
  before the save.
- **"Old or new" means the old primary file.** When a primary file exists and
  the save gets past its copy step (it stops after copying, after writing, or
  while writing), `Store.CrashReadsOldOrNew` shows that a load reads either the
  new document or the old primary file. That file is not necessarily a good
  document: an earlier torn write may have left it half-written.
- **Two interrupted saves lose the committed messages.** After a torn write of
  the primary, the last good document survives only in the backup, and a load
  still reads it. The next save's copy step overwrites that backup with the
  torn primary. If that save also stops before deleting the backup, the load
  reads the torn file (`Store.TornWriteThenCopyLosesDocument`). For the
  messages file this means the controller cannot start, because
  `LoadMessages` has no exception handler (`Persistence.TwoCrashesPreventStartup`).
- **A lost Ack wedges the channel for good.** `Receive` never removes a
  message and moves the cursor past it. A delivered message therefore stays at
  the head of its queue, below the cursor, until its Ack arrives. Until then
  every `Receive` on the channel answers NoContent (`Delivery.LostAckWedgesChannel`,
  `Delivery.BlockedUntilAcknowledged`). The consumer never resends an Ack:
  after a failed Ack it goes back to `Receive` (`ConsumerClient.FailureCountsOne`).
  Nothing in the broker redelivers, so one lost Ack stops the channel
  permanently.
- **A late producer retry wedges the channel too.** The duplicate check in
  `Send` looks only at pending messages. Suppose the broker stored a post but
  the reply was lost, and the producer's retry arrives after the message was
  delivered and acknowledged. The retry is then stored again, below the
  cursor, and blocks the channel the same way (`Delivery.LateRetryWedgesChannel`,
  `Delivery.LateRetryScenario`).
- **The consumer acknowledges before it consumes.** A received message is
  acknowledged first, and its payload is consumed only after the Ack succeeds
  (`ConsumerClient.ConsumeOnlyAfterAck`, `ConsumerClient.SuccessfulCycle`). By
  then the broker has already removed the message. If `Consume` throws, the
  message is lost: the broker no longer holds it, and the consumer does not
  retry it.
- **Unreachable `break`.** In a sequential run, the `break` inside both clients' `catch` blocks is never
  taken (`CatchNeverBreaks`).

## Model

| member | source | states |
|---|---|---|
| Contract.KeyNotInjective | MessageBroker/MessageBroker/Controllers/MessageController.cs:195 | two different producer/consumer pairs produce the same channel key |
| Contract.KeyInjectiveWithoutDash | MessageBroker/MessageBroker/Controllers/MessageController.cs:195 | when neither producer id contains `-`, equal keys mean equal producer and consumer ids |
| Contract.KeyInjectiveWithoutDashInConsumer | MessageBroker/MessageBroker/Controllers/MessageController.cs:195 | when neither consumer id contains `-`, equal keys mean equal producer and consumer ids |
| ChannelQueue.Peek | MessageBroker/MessageBroker/Controllers/MessageController.cs:168 | the peeked message is pending and no pending message has a smaller sequenceId |
| ChannelQueue.Insert | MessageBroker/MessageBroker/Controllers/MessageController.cs:210 | enqueueing adds exactly that one message to the queue's contents; the queue stays sorted |
| ChannelQueue.InsertOrdered | MessageBroker/MessageBroker/Controllers/MessageController.cs:204-210 | enqueueing a sequenceId that is not pending keeps at most one message per sequenceId |
| ChannelQueue.InsertAll | MessageBroker/MessageBroker/Controllers/MessageController.cs:56-59 | merging a list into a sorted list yields exactly the union of their contents, sorted |
| ChannelQueue.RemoveId | MessageBroker/MessageBroker/Controllers/MessageController.cs:241-248 | rebuilding a queue without one sequenceId gives a sorted queue with no new messages |
| ChannelQueue.RemoveIdContents | MessageBroker/MessageBroker/Controllers/MessageController.cs:244 | removal drops every copy of the messages with that sequenceId and keeps every other message with its multiplicity |
| ChannelQueue.RemoveIdRemoves | MessageBroker/MessageBroker/Controllers/MessageController.cs:244 | after removal no pending message has that sequenceId |
| ChannelQueue.RemoveIdOrdered | MessageBroker/MessageBroker/Controllers/MessageController.cs:244-248 | removal keeps at most one message per sequenceId |
| ChannelQueue.OrderedDetermined | MessageBroker/MessageBroker/Controllers/MessageController.cs:245-247 | a queue with one message per sequenceId is determined by its contents, so rebuilding it from the same messages gives the same queue |
| Broker.Send | MessageBroker/MessageBroker/Controllers/MessageController.cs:192-224 | duplicate if and only if the sequenceId is pending on the channel; a duplicate changes nothing and schedules no save; otherwise exactly the message is added and a message save is scheduled; cursors and every other channel are unchanged |
| Broker.SendValid | MessageBroker/MessageBroker/Controllers/MessageController.cs:204-210 | Send preserves "one message per sequenceId, each on its own channel" |
| Broker.SendDuplicateKeepsFirst | MessageBroker/MessageBroker/Controllers/MessageController.cs:204-217 | re-sending the same sequenceId on a channel is ignored and the first message stays |
| Broker.Receive | MessageBroker/MessageBroker/Controllers/MessageController.cs:150-183 | queues never change; an empty or missing queue gives NoContent and changes nothing; a message is delivered if and only if the smallest pending sequenceId equals the cursor; it is then that message and the cursor advances by one, with a cursor save scheduled; NoContent leaves the effective cursor unchanged; other channels' cursors are unchanged |
| Broker.Check | MessageBroker/MessageBroker/Controllers/MessageController.cs:186-190 | always succeeds and changes nothing |
| Broker.Acknowledge | MessageBroker/MessageBroker/Controllers/MessageController.cs:227-264 | cursors never change; "no messages" if and only if the channel is empty; "acknowledged" if and only if the sequenceId is pending; exactly the messages with that sequenceId are removed; any other answer changes nothing and saves nothing; other channels are unchanged |
| Broker.AcknowledgeValid | MessageBroker/MessageBroker/Controllers/MessageController.cs:241-249 | Acknowledge preserves "one message per sequenceId, each on its own channel" |
| Broker.AcknowledgeIdempotent | MessageBroker/MessageBroker/Controllers/MessageController.cs:232-263 | a repeated Ack is not acknowledged again and leaves the state as the first left it |
| Delivery.HandleCursor | MessageBroker/MessageBroker/Controllers/MessageController.cs:164-177 | any request moves a channel's cursor only by delivering on that channel, by one, and the delivered sequenceId is the cursor's old value |
| Delivery.DeliveriesConsecutive | MessageBroker/MessageBroker/Controllers/MessageController.cs:163-178 | over any run of requests, the sequenceIds a channel delivers are the cursor's value, then that plus one, then plus two, and so on, and the cursor ends past the last one |
| Delivery.DeliveriesFromEmpty | MessageBroker/MessageBroker/Controllers/MessageController.cs:164-177 | starting from an empty broker, every channel delivers 1, 2, 3, … in order |
| Delivery.HandleValid | MessageBroker/MessageBroker/Controllers/MessageController.cs:192-264 | every request preserves the queue invariant |
| Delivery.RunValid | MessageBroker/MessageBroker/Controllers/MessageController.cs:192-264 | any run of requests preserves the queue invariant |
| Delivery.DeliveredBlocks | MessageBroker/MessageBroker/Controllers/MessageController.cs:168-177 | once delivered, a message stays pending with the cursor past it, so it blocks its channel |
| Delivery.HandleKeepsBlocked | MessageBroker/MessageBroker/Controllers/MessageController.cs:157-182 | while a delivered message is pending, no request other than its Ack unblocks the channel, and none delivers on it |
| Delivery.BlockedUntilAcknowledged | MessageBroker/MessageBroker/Controllers/MessageController.cs:164-182 | after message N is delivered, its channel delivers nothing until N is acknowledged |
| Delivery.LostAckWedgesChannel | MessageBroker/MessageBroker/Controllers/MessageController.cs:163-182 | once a message has been delivered, its channel delivers nothing over any run of requests that does not acknowledge it |
| Delivery.LateRetryWedgesChannel | MessageBroker/MessageBroker/Controllers/MessageController.cs:199-210 | a Send of a sequenceId that is below the cursor but no longer pending is stored, blocks the channel, and nothing is delivered on it until that id is acknowledged again |
| Delivery.LateRetryScenario | MessageBroker/MessageBroker/Controllers/MessageController.cs:150-264 | from a fresh broker: Send 1, Receive delivers it, Ack 1 removes it, a retried Send 1 is stored again and blocks the channel for every later run without a second Ack of 1 |
| Store.Read | MessageBroker/MessageBroker/Controllers/MessageController.cs:23-28 | a load reads the backup when both files exist, the primary when only it exists, and finds nothing when the primary is missing |
| Store.SaveKeepsBackupHasPrimary | MessageBroker/MessageBroker/Controllers/MessageController.cs:68-73 | however a save stops, it never leaves a backup without a primary if there was none before |
| Store.SaveCompletes | MessageBroker/MessageBroker/Controllers/MessageController.cs:68-73 | a completed save is read back as the new document, leaves no backup and touches no other file |
| Store.CrashReadsOldOrNew | MessageBroker/MessageBroker/Controllers/MessageController.cs:68-73 | a save that began with a primary and stops after one of its steps, or while writing, is read back as the old primary or the new document |
| Store.CleanCrashReadsBeforeOrAfter | MessageBroker/MessageBroker/Controllers/MessageController.cs:68-73 | when a primary exists and no backup is left before the save, a save that stops anywhere except during the copy reads back as the state before the save or after it |
| Store.FirstSaveCrash | MessageBroker/MessageBroker/Controllers/MessageController.cs:68-73 | the first save stopped early reads back as nothing or the new document, or as the torn primary when it stops while writing |
| Store.TornCopyIsRead | MessageBroker/MessageBroker/Controllers/MessageController.cs:69 | a save stopped while copying to the backup is read back as that torn backup |
| Store.StaleBackupReplaced | MessageBroker/MessageBroker/Controllers/MessageController.cs:23-25 | a stale backup is what a load reads, and the copy step replaces it by the primary |
| Store.TornWriteThenCopyLosesDocument | MessageBroker/MessageBroker/Controllers/MessageController.cs:68-73 | after a torn write a load still reads the good document from the backup, but a following save that stops after its copy, or while writing, makes the load read the torn file |
| Persistence.Regroup | MessageBroker/MessageBroker/Controllers/MessageController.cs:35-43 | regrouping a list gives, for each key, a queue holding exactly the list's messages of that channel |
| Persistence.LoadMessages | MessageBroker/MessageBroker/Controllers/MessageController.cs:21-46 | startup fails if and only if the file read is unparsable; a missing or blank file gives no queues |
| Persistence.LoadSequenceTracker | MessageBroker/MessageBroker/Controllers/MessageController.cs:88-109 | a missing, blank or unparsable file gives an empty cursor table |
| Persistence.Snapshot | MessageBroker/MessageBroker/Controllers/MessageController.cs:56-59 | the saved list is sorted by sequenceId; it holds only pending messages; and, when every queue holds only its own channel, it holds each message as often as its queue does |
| Persistence.RegroupSnapshot | MessageBroker/MessageBroker/Controllers/MessageController.cs:36-43 | loading a list with the broker's pending messages rebuilds every channel's queue exactly |
| Persistence.SaveMessages | MessageBroker/MessageBroker/Controllers/MessageController.cs:49-86 | the saved list holds each of the broker's pending messages exactly as often as its queue does; a completed save then load restores every queue; when a primary exists, a save that gets past its copy step and then stops loads the old primary's queues or the broker's queues |
| Persistence.SaveSequenceTracker | MessageBroker/MessageBroker/Controllers/MessageController.cs:112-147 | a completed save then load restores the cursor table; when a primary exists, a save that gets past its copy step and then stops loads the old primary's table or the new one |
| Persistence.TwoCrashesPreventStartup | MessageBroker/MessageBroker/Controllers/MessageController.cs:30-33 | a torn message save followed by a save that stops after its copy step or while writing leaves only unparsable text, so loading fails and the controller cannot start, though the committed list was still loadable after the first crash |
| Persistence.Checkpoint | MessageBroker/MessageBroker/Controllers/MessageController.cs:18-19 | after both saves complete, a restarted controller has the same queues and cursors |
| ConsumerClient.StartInv | Consumer/Consumer/Program.cs:79 | the call starts inside the invariant; with a non-positive retry number it goes straight to wait mode |
| ConsumerClient.StepInv | Consumer/Consumer/Program.cs:77-163 | every reply keeps the invariant: the counter stays below the limit in the loop and at most the limit; wait mode holds only at or above the limit |
| ConsumerClient.RunInv | Consumer/Consumer/Program.cs:77-163 | the invariant holds after any sequence of replies |
| ConsumerClient.CatchNeverBreaks | Consumer/Consumer/Program.cs:131-139 | the catch's `break` is unreachable; an exception always counts one failure |
| ConsumerClient.FailureCountsOne | Consumer/Consumer/Program.cs:89-140 | each failure (rejected Receive, failed Ack, exception) adds exactly one to the counter and leads to a fresh Receive or wait mode, never to a repeated Ack |
| ConsumerClient.ConsecutiveFailures | Consumer/Consumer/Program.cs:79-140 | k failed Receives in a row from counter c leave the counter at c + k |
| ConsumerClient.RetryNumberFailuresEnterWaitMode | Consumer/Consumer/Program.cs:79-143 | from 0, exactly `retryNumber` consecutive failures enter wait mode, and fewer keep fetching |
| ConsumerClient.NoContentReturns | Consumer/Consumer/Program.cs:84-88 | a NoContent Receive returns at once with the counter unchanged |
| ConsumerClient.SuccessfulCycle | Consumer/Consumer/Program.cs:99-129 | a received message resets the counter and is acknowledged with its sequenceId; a successful Ack leads to consuming its payload; then the loop fetches again |
| ConsumerClient.ConsumeOnlyAfterAck | Consumer/Consumer/Program.cs:101-129 | in any run, each Consume is of the payload received two replies earlier, right after a successful Ack of that message's sequenceId |
| ConsumerClient.WaitModeExit | Consumer/Consumer/Program.cs:144-162 | wait mode returns if and only if Check succeeds, then with the counter at 0; otherwise it stays put |
| ProducerClient.StartInv | Producer/Producer/Program.cs:115 | the call starts inside the invariant; with a non-positive retry number it goes straight to wait mode |
| ProducerClient.StepInv | Producer/Producer/Program.cs:101-155 | every reply keeps the invariant: posting only below the limit, wait mode only at or above it, the counter at most the limit |
| ProducerClient.RunInv | Producer/Producer/Program.cs:101-155 | the invariant holds after any sequence of replies |
| ProducerClient.CatchNeverBreaks | Producer/Producer/Program.cs:126-134 | the catch's `break` is unreachable while posting |
| ProducerClient.PostOutcomes | Producer/Producer/Program.cs:119-125 | a successful post returns with the counter at 0; a rejected post is re-posted at once with the counter unchanged |
| ProducerClient.ExceptionCountsOne | Producer/Producer/Program.cs:126-135 | an exception adds exactly one to the counter, entering wait mode when that reaches the limit |
| ProducerClient.RejectedPostsNeverCount | Producer/Producer/Program.cs:115-125 | any number of rejected posts leave the producer posting with the same counter |
| ProducerClient.ConsecutiveExceptions | Producer/Producer/Program.cs:115-137 | n exceptions in a row from counter c leave the counter at c + n, in wait mode once that reaches the limit |
| ProducerClient.WaitModeExit | Producer/Producer/Program.cs:138-154 | wait mode moves on only after a successful Check; it then re-posts the same message once and returns with the counter at 0 whatever the status, or goes back to Check if the re-post throws |
| ProducerClient.Drive | Producer/Producer/Program.cs:103-154 | every post of one call carries the same message; a call that returns has posted at least once |
| ProducerClient.WorkerPostsInOrder | Producer/Producer/Program.cs:53-62 | a worker's posts carry sequence ids with no gaps: each post repeats the previous id or adds one; each post carries the payload produced for its id; after id n + 1 is posted, n is never posted again |
| ProducerClient.FirstSequenceNumberIsOne | Producer/Producer/Program.cs:46-59 | with the counter starting at 0, the first message posted is number 1, carries this producer's and consumer's ids and the first payload, for any payloads and replies |

## Left out

- Concurrency is not modelled: `lock`, `Task.Run`, and the fire-and-forget saves. Each handler runs to completion and reports the save it schedules, and a save is one crash-interruptible step sequence. The Acknowledge emptiness check outside the lock (MessageController.cs:232) is therefore not modelled.
- Several RateLimit workers that share one producer's sequence and retry counters are not modelled. The producer's worker lemmas describe a single worker. Consumer workers sharing a counter are left out for the same reason.
- HTTP transport, routing and `ActionResult` are modelled only as abstract replies. The response texts and status codes beyond success, 204 and non-success are not modelled.
- JSON serialisation is modelled only as an abstract document, blank text, or unparsable text. A file holding the literal `null` is not modelled. It would make `LoadMessages` fail on enumeration and `LoadSequenceTracker` return a null table.
- `Task.Delay` and `Thread.Sleep` timing is not modelled.
- Logging is not modelled.
- Reflection-based plugin loading, `ReadAttributes`, the retry and rate-limit attributes, and the produce/consume plugins are not modelled. The retry number is a plain integer, and produced payloads are a sequence parameter. A consumer without a `Consume` method is treated as a Consume that does not throw.
- C#'s `PriorityQueue` breaks ties between equal priorities in an unspecified order. The model breaks them by insertion order. Ties arise only from a persisted file that holds the same sequenceId twice.
- Dictionary enumeration order when flattening the queues is modelled as a nondeterministic choice in `Persistence.Snapshot`.
- Delivery.DeliveriesConsecutive: assumes the cursor does not wrap past `int.MaxValue` during the run. `Contract.Inc` models the wrap itself.
- Delivery.DeliveredBlocks: assumes the cursor is below `int.MaxValue`. At the maximum it wraps to `int.MinValue`, and the message no longer blocks its channel.
- ProducerClient.WorkerPostsInOrder: assumes the sequence counter does not wrap during the run.
- Store.CrashReadsOldOrNew: excludes a torn backup copy and a save stopped before its first step. `Store.TornCopyIsRead` and `Store.StaleBackupReplaced` state what happens in those cases. Its "old" alternative is the old primary file, which `Store.TornWriteThenCopyLosesDocument` shows may already be torn.
- Delivery.LostAckWedgesChannel: assumes the cursor is below `int.MaxValue` when the message is delivered, for the same reason as `Delivery.DeliveredBlocks`.
- Persistence.SaveMessages: its crash clause covers only a save that begins with a primary file and gets past its copy step, and it assumes the broker state keeps the queue invariant. Every run from an empty broker keeps that invariant (`Delivery.RunValid`). The other cases are stated on the store. A first save that stops reads as nothing, as the new list, or as a torn primary (`Store.FirstSaveCrash`). A torn backup copy is what the load reads (`Store.TornCopyIsRead`). A torn file makes `LoadMessages` fail when it is unparsable and gives no queues when it is blank. A stop before the first step leaves any stale backup as what a load reads (`Store.StaleBackupReplaced`).
- Persistence.SaveSequenceTracker: its crash clause excludes the same cases as `Persistence.SaveMessages`: a first save, a torn backup copy, and a stop before the first step. `Store.FirstSaveCrash`, `Store.TornCopyIsRead` and `Store.StaleBackupReplaced` state what a load then reads. A torn cursor file loads as an empty table.
- Store.CleanCrashReadsBeforeOrAfter: requires an existing primary and excludes a torn backup copy. `Store.FirstSaveCrash` covers a first save, where a torn write is read back as the torn primary, which is neither before nor after. `Store.TornCopyIsRead` covers a torn copy.
