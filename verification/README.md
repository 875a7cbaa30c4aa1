# A verified model of lclq

lclq is a local server for the SQS and Pub/Sub protocols. This project models three of its parts and proves what they
promise. The model follows the code; where the code differs from what one would expect, the difference is stated below.

**The in-memory queue engine.** `QueueModel` gives every operation as a function on values. `Backend` performs the same
operations in place, as classes with the loops of the source, and each method is proved equal to its function.
`History` adds a ledger: every stored copy of a message has a ticket and a place. `Runs` puts the operations together as
events of a run; `Operations` connects these with the operations of the classes, a whole send included. `Receives` and
`Sends` say by the fields of requests, messages and queues what one receive and one send do. `Conservation`, `Visibility`, `Ordering`, `Overtaking`, `Numbering`, `Dedup`, `Redrive`, `Stays`, `Issuing`,
`Capacity` and `Eviction` hold the theorems about all runs; `Receipt` and `SelectionLoops` the receipt handles and the index bookkeeping of a receive.

**The push delivery scheduler.** `PushQueue` is the shared heap, `Backoff` the retry delay, `PushPool` and `PushRuns` the
runs of any number of workers with any outcomes of the HTTP requests, `PushWorker` what one worker does, and `Fanout`
the publish that feeds both the queues and the scheduler.

**Printers and parsers.** `Escape`, `Markup`, `XmlElements` and `Words` are about text with tags in it; `XmlAttributes`, `XmlBatch`
and `XmlReceive` three XML responses with the scans that turn them into JSON; `XmlDispatch`, `BatchDispatch` and
`ReceiveDispatch` the choice between the scans. `JsonParams` is the flattening of a JSON request into numbered parameters, and
`AttributeDigest` and `AttributeReadings` the bytes hashed for the MD5 of message attributes and what they can stand for.

## How the source is represented

- Instants are natural numbers of nanoseconds on one clock that never runs backwards; every clock reading, nonce, new
  message id and hash-map order is a parameter of the operation that makes it. Fresh nonces are a condition on runs.
- SHA-256, HMAC, base64 and the JSON library are parameters; nothing is claimed about their strength. A receipt handle
  is a datatype up to what its text decodes to; `spelling` tells apart texts that decode alike.
- `receive_count` is a u32 that wraps, as the release build does; a debug build panics instead. The sequence counter is
  u64 in the source and unbounded here. Lengths in the attribute digest are cut to 32 bits as in the source.
- The capacity check, the eviction and the push of a send run under three separate lock acquisitions; in `Runs` and
  `Capacity` they are separate events and other operations come in between. A batch is consecutive pushes.
- Tickets identify stored copies and deliveries. They are history: no branch reads them.
- Strings are sequences of characters. The scans slice only at ASCII tags, where byte and character positions agree.

## What the code does, and one might not expect

- `max_messages = 0` still takes one message, and a request for more than ten takes ten.
- Messages over the receive limit reach the dead-letter queue in the reverse of their order.
- An eviction happens even when the send then fails or turns out to be a duplicate, and never touches a message in flight.
- Redelivered messages go to the back of the deque in hash-map order, and message groups are not locked: order is proved
  for first deliveries only, and it holds exactly when all sends to the queue have one delay (`Overtaking.OrderKeptIff`;
  `Overtaking.MixedDelaysSwap` gives a run that breaks it for any two delays).
- With k senders at once the store can exceed its limit by k batches, less one message; the bound is reached
  (`Capacity.OvershootReached`).
- A receive limit of the largest u32 can never be exceeded, because the count wraps there (`Redrive.LargestLimitNeverMoves`).
- The `attempts` attribute of a dead letter is one less than the posts made (`PushRuns.DeadLetterUndercounts`).
- A queue attribute whose value contains a word such as `DeleteMessageResponse` makes the JSON protocol read the
  response as something else (`XmlDispatch.DispatchIsRightIff`); a batch entry can do the same
  (`BatchDispatch.BatchDispatchIsRightIff`).
- Batch entries come back from the XML still escaped, and without the hash of their message attributes; a queue
  attribute's name and a received body or value come back escaped too (`XmlBatch.SeenAsSentIff`, `XmlDispatch.NamesSurviveIff`
  and `XmlReceive.SeenAsSentIff` say exactly when that shows).
- The names and types of message attributes are written into the ReceiveMessage response without escaping: one with a closing
  tag in its name is lost (`ReceiveDispatch.TaggedNameIsLost`). A response without messages is read as no list at all
  (`ReceiveDispatch.NothingReceived`), and a binary value is not written.
- A message attribute without a string `DataType` hides itself and all that follow it (`JsonParams.AttributesRoundTrip`).
- The attribute digest hashes names, types and values without marking where an attribute ends. A set is ambiguous exactly
  when its list of parts can be cut in more than one way into attributes whose names ascend and whose names and types are
  strings (`AttributeReadings.AmbiguousIff`). Giving every value does not prevent it
  (`AttributeReadings.ConcreteSetIsAmbiguous`); a value that is not UTF-8 can, because it passes for no name
  (`AttributeReadings.BytesAreNoName`).
- A top-level member `Attributes` copies its members into the parameters under their own names, where they can pass for
  numbered keys (`JsonParams.CopiedKeysIntrude`, `JsonParams.CopiedNamesHideTheList`). The round trips hold exactly when no
  other field replaces a part, adds a missing one or continues the list (`JsonParams.AttributesRoundTrip`,
  `JsonParams.NamesRoundTrip`); a copied name further on does no harm (`JsonParams.CopiedNameBeyondIsHarmless`).
- Under eviction a full store gives up one message for each batch, however large the batch is (`Eviction.BatchesGrow`).

## Model

| member | source | states |
|---|---|---|
| Backend.QueueData.CleanUpDedupCache | src/storage/memory.rs:197-220 | only a cache of more than 1000 ids is pruned, to the ids accepted in the last five minutes |
| Backend.QueueData.SendLocked | src/storage/memory.rs:231-301 | the queue and the outcome after one send are those of the value model, duplicate and missing id included |
| Backend.QueueData.ReturnExpired | src/storage/memory.rs:434-449 | exactly the expired handles leave the map, and their messages go to the back, in some order of the map |
| Backend.QueueData.VisibleIndices | src/storage/memory.rs:451-462 | the collected indices are the first visible ones up to the limit, and one when the limit is zero |
| Backend.QueueData.TakeSelected | src/storage/memory.rs:464-506 | removing from the last index to the first leaves the other messages in order, and splits the selected ones into returned and dead-lettered |
| Backend.Reverse | src/storage/memory.rs:539-540 | the result is the reverse of the list |
| Backend.InMemoryBackend.CreateQueue | src/storage/memory.rs:312-335 | an existing queue is left alone; a new one is empty |
| Backend.InMemoryBackend.UpdateQueue | src/storage/memory.rs:345-356 | only the configuration of the named queue changes, and a missing queue is reported |
| Backend.InMemoryBackend.DeleteQueue | src/storage/memory.rs:358-368 | exactly the named queue goes |
| Backend.InMemoryBackend.TotalMessageCount | src/storage/memory.rs:108-114 | the loop computes the number of available and in-flight messages of all queues |
| Backend.InMemoryBackend.LeastRecentlyUsed | src/storage/memory.rs:145-149 | a queue with messages and the oldest access, or none when no queue has messages |
| Backend.InMemoryBackend.OldestFront | src/storage/memory.rs:171-178 | a queue whose first message was sent first, or none when no queue has messages |
| Backend.InMemoryBackend.MaybeEvict | src/storage/memory.rs:117-193 | below the limit nothing; at the limit a rejection, or exactly the first message of the policy's victim is gone if any is available |
| Backend.InMemoryBackend.SendAll | src/storage/memory.rs:405-411 | the loop sends in order and stops at the first refusal, the earlier messages staying stored |
| Backend.InMemoryBackend.SendMessages | src/storage/memory.rs:384-412 | eviction first, then the missing queue, then the batch; the reply and the new queues in every case |
| Backend.InMemoryBackend.MoveAll | src/storage/memory.rs:508-537 | each dead-lettered message goes to the back of the target with count zero, or is dropped when there is no target |
| Backend.InMemoryBackend.ReceiveMessages | src/storage/memory.rs:414-549 | the whole receive equals the value model: expiry, selection, handles, dead-letter moves and the order of the answer |
| Backend.InMemoryBackend.CheckHandle | src/storage/memory.rs:554-568 | the errors of a presented handle, in the order they are checked |
| Backend.InMemoryBackend.DeleteMessage | src/storage/memory.rs:551-572 | without a fault the handle was in flight and is not any more, and every other handle, deque and queue is as before; any fault leaves everything as it was |
| Backend.InMemoryBackend.ChangeVisibility | src/storage/memory.rs:574-602 | the deadline of a valid handle moves; any fault leaves everything as it was |
| Backend.InMemoryBackend.PurgeQueue | src/storage/memory.rs:604-619 | both collections of the queue are emptied, the cache and the counter stay |
| Backend.InMemoryBackend.ProcessExpiredVisibility | src/storage/memory.rs:689-726 | the sweep returns exactly the expired messages and counts them |
| Receives.SweptAtTheBack | src/storage/memory.rs:689-726 | a sweep puts exactly the messages of the expired handles behind the deque, due at once, and takes those handles out of flight |
| Receives.TakesFirstDue | src/storage/memory.rs:434-462 | a receive takes the first due entries of the deque with the expired behind it: as many as asked for, but at least one and at most ten |
| Receives.ReceiveSetsDeadlines | src/storage/memory.rs:428-506 | every new flight belongs to one answer, holds its message, received once more, and expires the seconds asked for, or else those the queue is configured with, after the moment the receive judges by; unexpired flights stay as they were |
| Receives.ReceiveMoves | src/storage/memory.rs:414-537 | a receive changes the own queue by the messages taken and the dead-letter queue by copies of those over the limit, last first, counted from zero, sent now and due at once; everything else of every queue is as before |
| Receives.HiddenUntilDeadline | src/storage/memory.rs:428-506 | in every run no receive that judges before that deadline returns the copy again, from any queue, unless a change of visibility with its handle came in between |
| Sends.PlainSendIsExact | src/storage/memory.rs:283-300 | a queue that is not FIFO stores a message as it is at the back, due after its own delay, or after the queue's when it has none |
| Sends.FifoSendIsExact | src/storage/memory.rs:222-301 | in every run a send to a FIFO queue is a duplicate, and stores nothing, when a message with the same id, or with none and the same body, was accepted less than 300 seconds before; else, if no digests collide, it is stored at the back under the next number; and it is refused exactly when it has no id and the queue does not go by content |
| Operations.EventsAreOperations | src/storage/memory.rs:312-726 | every event of a run leaves the queues as the operation of the class does |
| Operations.FaultsAreExact | src/storage/memory.rs:551-568 | a handle not signed for the queue is invalid even without such a queue, a genuine one is answered with the missing queue or, when not in flight, as invalid |
| Operations.SendIsRun | src/storage/memory.rs:396-412 | a whole send is a run of the events of its eviction, if there is one, and of one push for each message up to the refused one |
| Operations.SendIsActions | src/storage/memory.rs:117-412 | and a run of the actions of one sender, so that the bounds on any number of senders hold of it |
| Operations.FullSendEvictsOne | src/storage/memory.rs:117-193 | a send to a full store loses exactly the first available message of one queue that goes first by the policy, also when it fails, and a single one leaves no more than there was; in every other case nothing is lost |
| Operations.TotalByFields | src/storage/memory.rs:108-114 | the total is the number of available messages and of those in flight, queue by queue |
| SelectionLoops.IndicesPick | src/storage/memory.rs:451-506 | collecting indices and removing them backwards takes the first visible messages and keeps the rest in order |
| SelectionLoops.SweepInvisible | src/storage/memory.rs:689-726 | a sweep at an earlier time never changes which messages a later receive may deliver |
| Receiving.ReceiveEffect | src/storage/memory.rs:414-549 | a receive keeps the invariant of the store and changes the ledger place of every copy as it should |
| Receiving.SortedOut | src/storage/memory.rs:470-506 | every selected message is either returned or dead-lettered, by the limit alone |
| Runs.StepKeeps | src/storage/memory.rs:231-726 | every operation keeps the invariant, and never brings back what is gone or reuses a nonce |
| Runs.RunKeeps | src/storage/memory.rs:231-726 | so does every run |
| Conservation.EveryCopyInOnePlace | src/storage/memory.rs:283-300 | in every run each stored copy is in exactly the one place its ledger names, and its id, body and attributes never change |
| Conservation.EveryCopyCounted | src/storage/memory.rs:467-537 | in every run the copies stored are those still held plus deleted, evicted, purged, removed with a queue and dropped |
| Conservation.WhyGone | src/storage/memory.rs:508-619 | a copy disappears only by its own handle, from the front by eviction, with its queue, or over the limit without a target |
| Visibility.InFlightIsExclusive | src/storage/memory.rs:434-506 | in every run no receive returns a message in flight before its current deadline |
| Visibility.OnlyReceivesDeliver | src/storage/memory.rs:551-726 | no other operation delivers anything |
| Visibility.FlightEndsOrStays | src/storage/memory.rs:434-619 | a handle in flight is spent by its deletion, its expiry, a purge or the removal of its queue, and stays in flight through everything else |
| Visibility.SpentForever | src/storage/memory.rs:551-602 | a spent handle is rejected for ever |
| Visibility.ChangeMovesItsOwn | src/storage/memory.rs:574-602 | after a change of visibility the handle expires at the timeout counted from the change, in the queue that issued it alone; every other handle of every queue expires when it would have, and nothing is moved or delivered |
| Visibility.DeleteTakesItsOwn | src/storage/memory.rs:551-572 | a handle deletes the copy it was issued for, in the queue that issued it, and nothing else |
| Ordering.FirstDeliveriesInOrder | src/storage/memory.rs:275-506 | in every run with one delay and no dead-lettering into the queue, first deliveries come in the order of sending |
| Overtaking.MixedDelaysSwap | src/storage/memory.rs:283-291 | for a queue of any type and any two different delays there is a run in which the later message is delivered first |
| Overtaking.OrderKeptIff | src/storage/memory.rs:283-506 | over any set of allowed delays, all runs without dead-lettering into the queue keep the order of first deliveries exactly when no two of the delays differ |
| Ordering.PickLine | src/storage/memory.rs:451-506 | a selection takes never-delivered messages from the front of their line |
| Numbering.SequencesInOrder | src/storage/memory.rs:275-277 | in one lifetime of a FIFO queue sequence numbers are distinct and below the counter, first deliveries come in their order, and never-received messages stand in it |
| Dedup.PruningIsInvisible | src/storage/memory.rs:242-281 | the pruned cache decides like one that never forgets, and accepted sends with one id are at least five minutes apart |
| Redrive.DeliveriesAreBounded | src/storage/memory.rs:470-506 | in every run a copy is returned at most max_receive_count times, and its count is the number of its returns |
| Stays.StaysAreBounded | src/storage/memory.rs:470-537 | also for a queue that others, or itself, dead-letter into: in every run the returns of a copy between any two points of one stay are within what the limit leaves, and its receive count is the number of returns of that stay |
| Redrive.LimitDecides | src/storage/memory.rs:473-491 | the next selection after that moves it to the dead-letter queue, and no earlier one does |
| Redrive.LargestLimitNeverMoves | src/storage/memory.rs:473-487 | with the largest u32 as limit no receive dead-letters anything |
| Redrive.LimitCanBeExceeded | src/storage/memory.rs:473-480 | no message is ever over the limit exactly when the limit is the largest u32 |
| Redrive.ReturnsOfBatch | src/storage/memory.rs:467-506 | one receive returns a copy at most once |
| Capacity.OvershootBound | src/storage/memory.rs:117-128 | with k senders and batches of b the store never exceeds max_messages - 1 + k*b, however they interleave |
| Capacity.OvershootReached | src/storage/memory.rs:384-412 | some interleaving reaches that bound, for every k, b and limit |
| Capacity.SerialCapacity | src/storage/memory.rs:117-193 | with single sends one after another the total stays within the limit or one above the peak in flight |
| Capacity.FullStoreStaysFull | src/storage/memory.rs:141-193 | a send at or over capacity with something to evict never grows the total |
| Capacity.TotalGrowth | src/storage/memory.rs:287-291 | only a push grows the store, by one |
| Eviction.SinglesBound | src/storage/memory.rs:117-193 | with k senders of single messages the total stays k - 1 above the limit, or k above the peak in flight, under any policy and in every interleaving |
| Eviction.BatchesGrow | src/storage/memory.rs:396-412 | with batches of two or more an evicting store grows beyond any number, with nothing in flight |
| Eviction.EvictionBoundsIff | src/storage/memory.rs:117-412 | so an evicting store keeps its limit up to an allowance exactly for sends of one message |
| Receipt.SameSignature | src/core/receipt.rs:101-116 | the accumulating comparison finds exactly equality |
| Receipt.Generate | src/core/receipt.rs:45-70 | a generated handle parses back to its queue, message and nonce |
| Receipt.Parse | src/core/receipt.rs:73-119 | the data of a handle, or a rejection, in every case |
| Issuing.AcceptedMeansIssued | src/core/receipt.rs:73-119 | in every run a handle is accepted for a queue exactly when it is in flight there, and then an earlier receive from that queue returned that very message with it |
| Issuing.StepIssues | src/storage/memory.rs:490-504 | only a receive puts handles in flight, each signed for its queue and listed among the deliveries |
| PushQueue.DeliveryQueue.Enqueue | src/pubsub/push_queue.rs:62-67 | the waiting tasks gain exactly the new one |
| PushQueue.DeliveryQueue.DequeueReady | src/pubsub/push_queue.rs:71-81 | a task that no other is due before, never before it is due, and none exactly when none is due |
| PushQueue.DeliveryQueue.NextWait | src/pubsub/push_queue.rs:92-104 | the sleep ends when the first task is due, not later and not earlier |
| PushQueue.RootOfBag | src/pubsub/push_queue.rs:24-43 | the first task of the heap is due no later than any other |
| Backoff.DelayIsExact | src/pubsub/push_worker.rs:236-240 | the saturating computation is min(min * 2^attempt, max) over unbounded integers, for all u32 inputs |
| Backoff.PowerSaturates | src/pubsub/push_worker.rs:237-239 | repeated saturating doubling is the power of two cut off at the largest u32 |
| Backoff.DelayGrows | src/pubsub/push_worker.rs:236-240 | the delay never shrinks from attempt to attempt and never exceeds the maximum |
| Backoff.WaitedBound | src/pubsub/push_worker.rs:229-248 | all delays of n retries together are within min * (2^n - 1) and within n * max |
| Backoff.DefaultDelays | src/types/mod.rs:240-247 | with the default policy the delays are 10, 20, 40, 80, 160, 320 and from then on 600 seconds |
| PushPool.SettledOk | src/pubsub/push_worker.rs:229-248 | the attempt number never wraps, and a retry is refused exactly when the posts are used up |
| PushPool.RetryByFields | src/pubsub/push_worker.rs:168-248 | by the fields of the subscription: given up once the attempts allowed are used up, five by default, else due again min(shortest * 2^attempt, longest) seconds later |
| PushPool.StepKeeps | src/pubsub/push_worker.rs:97-181 | every step of every worker and publisher keeps the invariant of the pool |
| PushRuns.EveryTaskInOnePlace | src/pubsub/push_worker.rs:97-181 | in every run each delivery is once in the queue, or in the hands of one worker, or over |
| PushRuns.OverForever | src/pubsub/push_worker.rs:123-181 | what is over stays over, and no delivery changes its message or subscription |
| PushRuns.PostsAreBounded | src/pubsub/push_worker.rs:229-314 | at most max(1, max_attempts) posts, exactly so many when given up, and waiting within both bounds |
| PushRuns.PostsByFields | src/pubsub/push_worker.rs:168-248 | in every run, by the fields of the subscription, at most max(1, max_attempts) posts, exactly so many when given up, and the k-th retry due min(min_backoff * 2^(k-1), max_backoff) seconds after the failure; 5, 10 and 600 without a policy |
| PushRuns.RetryWaitsItsBackoff | src/pubsub/push_worker.rs:236-248 | no retry is fetched before its backoff, counted from the failure, is over |
| PushRuns.RunWork | src/pubsub/push_worker.rs:97-181 | a measure falls with every step of a worker, whatever the interleaving |
| PushRuns.StepsAreBounded | src/pubsub/push_worker.rs:97-181 | workers take at most three steps for every post that the enqueued deliveries may cost |
| PushRuns.NeverStuck | src/pubsub/push_worker.rs:97-116 | while a delivery is not over some worker can take a step for a task |
| PushRuns.DeadLetterUndercounts | src/pubsub/push_worker.rs:262-300 | the dead letter keeps the body and all attributes outside its three keys, is a new message of the topic, sent now and counted from zero, and its attempt count is one too low |
| PushWorker.HandleDeliveryTask | src/pubsub/push_worker.rs:123-181 | the fate of a fetched task in every case, told by the attempts that its subscription allows, and what becomes of the delivery queue and the backend |
| Fanout.PlainBatch | src/storage/memory.rs:396-412 | a batch to a queue that is not FIFO appends copies of all its messages in order |
| Fanout.FanOutSpreads | src/pubsub/publisher.rs:247-295 | below capacity each subscription has its old messages and then all published ones, or exactly those before the first missing queue |
| Fanout.SpreadByFields | src/pubsub/publisher.rs:257-265 | each new entry of a subscription is the published message with all its fields, under the id of the subscription, due after its own delay or the queue's |
| Fanout.Publish | src/pubsub/publisher.rs:207-304 | the reply with the published ids in order, the sends made and the tasks enqueued; below capacity each subscription has its old messages and then all published ones, or exactly those before the first missing queue and no task |
| Fanout.SentIds | src/storage/memory.rs:396-412 | an accepted batch answers with the ids it was given, for a queue of any type |
| Fanout.SendToAll | src/pubsub/publisher.rs:252-295 | the loop sends to one subscription after another and stops at the first failure |
| Fanout.EnqueuePushSubscriptions | src/pubsub/publisher.rs:469-490 | the delivery queue gains one task at attempt 0 for every delivery |
| Fanout.DeliveryAt | src/pubsub/publisher.rs:476-487 | every message goes to every push subscription, in order |
| Fanout.DeliveryCount | src/pubsub/publisher.rs:476-487 | and the deliveries are as many as push subscriptions times messages |
| Fanout.TaskAt | src/pubsub/publisher.rs:476-487 | the task of each delivery is for its message and subscription and starts at attempt 0 |
| Escape.EscapeIsOnePass | src/sqs/response.rs:437-443 | the five replacements in a row are one pass over the characters |
| Escape.EntitiesAreSpelled | src/sqs/response.rs:437-443 | escaping goes letter by letter: the five special characters become their predefined entities and every other character stays |
| Escape.EscapedIsClean | src/sqs/response.rs:437-443 | escaped text has no markup character and no quote |
| Escape.UnescapeUndoesEscape | src/sqs/response.rs:446-453 | unescaping undoes escaping for every text |
| Escape.EscapeChangesIff | src/sqs/response.rs:437-443 | escaping leaves a text as it is exactly when it has no special character |
| Markup.FindIsFirst | src/sqs/handler.rs:1802-1804 | a search finds the first occurrence and fails only without one |
| Markup.FieldOfPieces | src/sqs/handler.rs:1808-1815 | the two searches of a field find the text between its tags |
| Markup.ElementOfPieces | src/sqs/handler.rs:1802-1805 | the two searches of a loop find the next element and what follows it |
| XmlAttributes.BuildGetQueueAttributes | src/sqs/response.rs:386-410 | the loop builds the document |
| XmlAttributes.ScanAttributes | src/sqs/handler.rs:1798-1831 | the loop on positions is the scan, and ends |
| XmlAttributes.ScanUndoesBuild | src/sqs/handler.rs:1798-1831 | for all names and values the scan of the built response is the map of escaped names to values |
| XmlDispatch.DispatchIsRightIff | src/sqs/handler.rs:1521-1531 | the response is read as queue attributes exactly when no name or value contains a marker word |
| XmlDispatch.WordsSurviveEscape | src/sqs/response.rs:437-443 | a word is in escaped text exactly when it is in the text |
| XmlDispatch.NamesSurviveIff | src/sqs/handler.rs:1808-1818 | the attribute names come back as given exactly when none has a special character |
| XmlDispatch.AttributesRoundTrip | src/sqs/handler.rs:1521-1831 | the JSON protocol gives back the map exactly without a marker word, and the attributes as given exactly when besides no name has a special character |
| XmlBatch.BuildSendMessageBatch | src/sqs/response.rs:116-173 | the loops build the document |
| XmlElements.CollectElements | src/sqs/handler.rs:1680-1765 | each loop on positions collects the elements of its kind, and ends |
| XmlBatch.ScanUndoesBuild | src/sqs/handler.rs:1676-1776 | the scans recover all successful and failed entries in order, fields as escaped, the fault as a flag, without the hash of the message attributes, an empty list left out |
| XmlBatch.SeenAsSentIff | src/sqs/handler.rs:1676-1776 | the client sees every entry as sent exactly when no field has a special character and no entry has a hash of its message attributes |
| BatchDispatch.MessageTagIff | src/sqs/response.rs:150-164 | the response has a message tag exactly when an entry failed |
| BatchDispatch.BatchDispatchIsRightIff | src/sqs/handler.rs:1525-1677 | the response is read as a batch exactly when no field holds one of two words, and none holds a third if an entry failed |
| BatchDispatch.BatchRoundTrip | src/sqs/handler.rs:1521-1776 | the JSON protocol gives back all entries exactly under that condition, and as sent exactly when besides no field has a special character and no entry has a hash of its message attributes |
| XmlReceive.BuildReceiveMessage | src/sqs/response.rs:266-326 | the nested loops build the document |
| XmlReceive.ScanReceiveMessage | src/sqs/handler.rs:1532-1674 | the loop over messages, with the loops over attributes inside, is the scan, and ends |
| XmlReceive.ScanUndoesBuild | src/sqs/handler.rs:1532-1674 | if no tag stands in the fields written unescaped, the scan recovers every message in order with its attributes of both kinds as maps, body and values as escaped, and no slice is out of range |
| XmlReceive.SeenAsSentIff | src/sqs/handler.rs:1532-1674 | and the client sees all messages as sent exactly when no body and no value has a special character |
| ReceiveDispatch.ReceiveDispatchIsRightIff | src/sqs/handler.rs:1521-1531 | for all messages, markup in their names included, the response is read as messages exactly when there is one and no field holds one of two words |
| ReceiveDispatch.ReceiveRoundTrip | src/sqs/handler.rs:1521-1674 | the JSON protocol gives back the list of messages exactly under that condition, and as sent exactly when besides no body and no value has a special character |
| ReceiveDispatch.NothingReceived | src/sqs/handler.rs:1521-2036 | a response without messages falls through to the branch for other responses |
| ReceiveDispatch.TaggedNameIsLost | src/sqs/handler.rs:1606-1665 | a message attribute with a closing name tag in its name is seen by no client, in any list of messages |
| AttributeDigest.BuildBuffer | src/sqs/types.rs:248-282 | sorting and extending give the buffer of the sorted names, from any order of the map |
| AttributeDigest.SortNames | src/sqs/types.rs:254-255 | the names come out sorted and the same |
| AttributeDigest.SortedOnce | src/sqs/types.rs:254-255 | there is one sorted order only, so the buffer depends on the map alone |
| AttributeDigest.BeforeIsLexicographic | src/sqs/types.rs:254-255 | the order of names is that of their bytes from left to right, a start of a name before the name |
| AttributeDigest.EntryIsSpelled | src/sqs/types.rs:259-281 | name, type and value, each after its length; a string hides a binary value, and one that does not decode leaves nothing |
| AttributeDigest.ConcreteBuffer | src/sqs/types.rs:248-282 | the bytes for two given attributes |
| AttributeDigest.SameBufferIffSameBytes | src/sqs/types.rs:248-282 | attributes with values and lengths below 2^32 give the same buffer exactly when names, types and value bytes agree |
| AttributeDigest.UnvaluedAttributesCollide | src/sqs/types.rs:270-281 | an attribute without a value can take the name of the next one for its value |
| AttributeReadings.SameBufferIffSameParts | src/sqs/types.rs:248-282 | for all attributes, valued or not, buffers are equal exactly when the flat lists of names, types and values are |
| AttributeReadings.AmbiguousIff | src/sqs/types.rs:248-282 | a set, with UTF-8 names, types and strings as the program holds them, shares its hash input with another such set exactly when its list of parts can be cut into attributes with ascending names in more than one way, names and types being UTF-8, which is counted |
| AttributeReadings.ValuedAttributesCollide | src/sqs/types.rs:248-282 | two attributes that both have strings for values can be read as three without |
| AttributeReadings.ConcreteSetIsAmbiguous | src/sqs/types.rs:248-282 | the strings A = "B" and C, whatever string C is, share their hash input with another set |
| AttributeReadings.BytesAreNoName | src/sqs/types.rs:272-281 | an attribute whose value is not UTF-8, followed by one without a value, can be read in one way only |
| AttributeReadings.ConcreteSetIsUnambiguous | src/sqs/types.rs:272-281 | A with the single byte FF and C without a value share their hash input with no other set |
| AttributeReadings.FewPartsAreUnambiguous | src/sqs/types.rs:248-282 | one attribute, or two without values, can be read in one way only |
| AttributeDigest.LengthIsExact | src/sqs/types.rs:261-262 | the four bytes are the length, most significant byte first |
| AttributeDigest.PartSplits | src/sqs/types.rs:261-269 | a length-prefixed part can be read off the front in one way only |
| JsonParams.KeysAreDistinct | src/sqs/request.rs:101-133 | no two indices and no two parts share a numbered key |
| JsonParams.KeyIsSpelled | src/sqs/request.rs:101-133 | the numbered keys as they are written in requests |
| JsonParams.FormAttributesAreRead | src/sqs/request.rs:230-270 | a form request is read as the attributes that stand under the spelled keys of the numbers from one on, up to the first number without a name |
| JsonParams.FormNamesAreRead | src/sqs/request.rs:342-356 | and as the names under AttributeName.1 and so on |
| JsonParams.FieldByValue | src/sqs/request.rs:97-187 | what each kind of JSON value leaves under which keys |
| JsonParams.ExpandMembers | src/sqs/request.rs:97-140 | the loop with a running index inserts the members |
| JsonParams.ParseJson | src/sqs/request.rs:55-189 | the loop over the top-level fields, with the copied members of Attributes, the expanded message attributes and the numbered arrays |
| JsonParams.InsertsIsExact | src/sqs/request.rs:57-187 | which parameters a field inserts, and that it leaves all others alone |
| JsonParams.LookupBy | src/sqs/request.rs:57-187 | a key looks up to what its own field writes exactly when no later field leaves another value there, and a key that its own field does not write is free exactly when no other field inserts it |
| JsonParams.AttributesRoundTrip | src/sqs/request.rs:230-270 | reading gives back the list of message attributes up to the first without a data type exactly when no later field replaces a part of one, no other field adds a missing part, and none continues the list; and all of them exactly when besides each has a data type; the map read is that list with later names replacing equal earlier ones |
| JsonParams.CopiedKeysIntrude | src/sqs/request.rs:59-71 | a member of Attributes named like the next key adds a message attribute that the request does not have |
| JsonParams.ParseMessageAttributes | src/sqs/request.rs:230-270 | the loop reads until a name or type is missing, and ends |
| JsonParams.NamesRoundTrip | src/sqs/request.rs:322-356 | an array of attribute names is read back as the same list exactly when another field leaves the same list under AttributeNames, or none leaves a list there, no later field replaces a numbered name and no other field adds the next |
| JsonParams.CopiedNameBeyondIsHarmless | src/sqs/request.rs:322-356 | a copied name beyond the next number leaves the list as it was |
| JsonParams.CopiedNamesHideTheList | src/sqs/request.rs:325-337 | a member AttributeNames of Attributes replaces the list of the request |
| JsonParams.ParseAttributeNames | src/sqs/request.rs:322-356 | the loop reads the names, and ends |
| Text.DecimalInjective | src/sqs/request.rs:242-249 | different indices print differently |
| Text.DecimalReads | src/sqs/request.rs:242-249 | the numeral of an index stands for it, without a superfluous zero |

## Left out

- The SQLite backend, HTTP, gRPC, command line, configuration, metrics, tracing and shutdown: input, output and wiring.
- `src/core/dlq.rs` and `src/core/cleanup.rs`: the receive path of the memory backend does not use them.
- `src/core/visibility.rs`: a timer; in the runs a sweep may happen at any time.
- Validation of names and sizes, `list_queues`, `get_stats` and the tables of enumeration names: they would add easy members only.
- Long polling, message retention and message-group ordering: the memory backend does not implement them.
- The other branches of `xml_to_json_response` (queue lists, the batches of deletions and visibility changes, single fields): flat loops and searches like those of the batch scan.
- `parse_queue_attributes`, which reads fixed names and numbered keys like the two readers that are modelled.
- Waking and fairness of the push workers: a worker may poll at any time, and the loop of `wait_and_dequeue` is represented by its two halves, the poll and the computed sleep.
- The conversion of Pub/Sub messages, and a publisher without a delivery queue: the published messages are given already converted, and tasks are always enqueued.
- PushQueue.DeliveryQueue.Enqueue: the heap is a sequence that is replaced, with the two sifting loops written out; of the library heap the order of equally due tasks is not captured.
- Fanout.FanOutSpreads: says nothing about evictions between the sends of one publish, which happen at the limit; Fanout.Publish ties those sends to the engine without that condition.
- ReceiveDispatch.ReceiveRoundTrip: says nothing about names and types with a "<" in them; ReceiveDispatch.TaggedNameIsLost gives a family that cannot come back.
- Ordering.FirstDeliveriesInOrder: says nothing about a queue that others dead-letter into, where copies enter in another order than they were first sent.
- XmlAttributes.ScanUndoesBuild: positions are those of characters, not of UTF-8 bytes.
