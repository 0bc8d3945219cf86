# Verified model of the Homa transport and of two flow-driver state machines

This project models the Homa transport in `code/Homa/src` and two pieces of the mlx5 flow
driver in `env/mlx5_flow.c`, and proves properties of them. `dafny verify dfyconfig.toml`
checks everything.

How the model is built:

- **Messages as values, handlers in place.** `Protocol` says what each packet, timeout and
  application call does to one message. The classes `Senders.Sender` and
  `Receivers.Receiver` hold the maps, queues and timeout lists and change them in place,
  with the source's loops. Each method is proved to perform one event of the value-level
  models `SenderModel` and `ReceiverModel`; invariants and statements over whole runs are
  lemmas about those models.
- **One message, both ends, any network.** `TwoParty` runs a sender message and its
  receiver message, made of the same per-message functions, against a network that holds
  every packet ever sent and may deliver any of them at any time, any number of times or
  never. All its theorems are about every sequence of steps. `Progress` adds that from every
  state reached there is a way on to completion, and `Recovery` when there is one that
  relies only on packets sent from then on.
- **Many messages.** `Transport` puts a whole sender model and a whole receiver model together
  and proves that, seen from any one message, every run of the two is a run of `TwoParty`, so that
  its theorems hold for each message among any number of others.
- **Timeouts.** `SenderTimers` and `ReceiverTimers` say what each event does to the timeout
  lists, that a message which waits for something is always watched, and how long it waits:
  it is given up exactly the interval after the other side was last heard of.
- **Ends.** `Fates` says which events complete, cancel and fail a message in any run, what the
  application is told about it, and when a released message goes away.
- **Lists.** `Intrusive` keeps the pointers of the intrusive list and proves that they
  refine operations on sequences; `Ordering` proves what the two reordering functions do
  to a sorted sequence, for any strict weak order. Sender and receiver use the sequences.
- **Simple rule and fast form.** `SendQueue` states the scheduling rule of `trySend`
  ("send the next packet of the first queued message that may send"), and proves what it
  achieves. `QueueWalk` and the loops in `Senders` walk the queue once with an iterator
  whose node moves under it, and are proved to send the same packets.
- **Grant rounds.** `Grants` describes one `trySendGrants` call as a walk over a schedule
  that changes behind the iterator; `Receivers.Receiver.TrySendGrants` produces such a walk.
- **Flow driver.** `CopyFlows` models the reference-counted metadata-copy flows with all
  failure paths, `CounterQuery` the buffers of the asynchronous counter queries.

Five facts about the code that the proofs bring out:

- A message with no unscheduled packet and a single packet is sent without any grant. The
  grant limit holds for all other messages, and `TwoParty.GrantSafety` states that as an
  if-and-only-if.
- A message of several packets but no unscheduled one never sends anything: the receiver does not
  learn of it, so it is never granted. A message that needs grants under a policy whose maximum
  is zero stops after its unscheduled packets. Every other message can complete, from every
  state of every run in which it has not ended (`Progress.AlwaysAWayOn`, an if-and-only-if).
- A receiver that has recorded at least the granted bytes requests no resend. Then packets below its
  resend limit may still be missing: `ResendRanges.SilenceCanHideLoss` gives, for every message
  with grants to come and two or more unscheduled packets, a state in which the first packet is
  missing and nothing is requested. `ResendRanges.NothingIsMissing` gives the byte count that
  decides exactly whether something is missing, and `ResendRanges.SilenceEnds` says exactly when
  the grant loop ends the silence: always, if the policy's minimum is positive.
- If everything in flight is lost at once, a message can still complete only if its receiver has
  heard of it, or it has a packet to send, or it may be restarted, which NO_RETRY forbids
  always and NO_KEEP_ALIVE once it is sent. `Recovery.RecoveryFromLoss` makes this an
  if-and-only-if, for every policy with a positive minimum and for every message without these
  options. Without a minimum, and with NO_RETRY, both ends may wait for each other for
  good: `Recovery.DeadlockIsReached` gives the run.
- The assertion `degreeOvercommitment > maxScheduledPriority` in `trySendGrants` holds for the
  default policy exactly when the driver offers priorities below 8. The assertion behind it
  compares `minScheduledBytes` with itself; the model uses the bound the policy provides,
  minimum at most maximum.

## Model

| member | source | states |
|---|---|---|
| TwoParty.After | code/Homa/src/Sender.cc:105-538 | Every run of sender, receiver, timeouts, both applications and a lossy, duplicating, reordering network keeps the safety invariant of all packets ever sent and of both ends |
| TwoParty.StepSafe | code/Homa/src/Receiver.cc:88-260 | Each single step of the composed system keeps that invariant |
| TwoParty.CompletedMeansDelivered | code/Homa/src/Sender.cc:105-174 | In every run a COMPLETED message was handed to the receiving application, and everything handed over is byte for byte what was sent |
| TwoParty.CompletedIsLeftOnlyByTheApplication | code/Homa/src/Sender.cc:886-940 | A step leaves COMPLETED if and only if it is the application's cancel or release of a message it holds; no packet and no timeout does |
| TwoParty.GrantSafety | code/Homa/src/Sender.cc:786-878 | All runs send only indices below max(min(U, N), ceil(G/P)) for the largest limit G ever granted, if and only if U > 0 or N > 1 |
| TwoParty.SinglePacketIgnoresLimit | code/Homa/src/Sender.cc:833-878 | The run in which a one-packet message without unscheduled packets is sent at once, with no grant |
| TwoParty.UngrantedBytes | code/Homa/src/Sender.cc:273-323 | A packet beyond the unscheduled ones starts inside the bytes some GRANT covers, and ends less than one packet beyond the largest grant |
| TwoParty.ResendsAreAccepted | code/Homa/src/Sender.cc:201-229 | In every run each RESEND lies in the range the sender accepts, and none is sent for a one-packet message |
| Transport.RunKeepsInv | code/Homa/src/Sender.cc:1055-1168 | In every run of a whole sender and a whole receiver with any number of messages, both keep their invariants, and each message is at the end of a run of TwoParty |
| Transport.NextKeepsInv | code/Homa/src/Receiver.cc:88-260 | Each event of the two ends is, for every message, a run of TwoParty steps |
| Transport.TransmitRun | code/Homa/src/Sender.cc:1086-1122 | The packets one `trySend` sends for a message are that many TwoParty steps in a row |
| Transport.GrantHandled | code/Homa/src/Receiver.cc:737-772 | A visit of the grant loop is a TwoParty step of its message |
| Transport.EveryCompletedMessageWasDelivered | code/Homa/src/Sender.cc:105-174 | In every such run a COMPLETED message was delivered, and all that is delivered under an id is byte for byte what was sent under it |
| Transport.EveryMessageStaysGranted | code/Homa/src/Receiver.cc:749-760 | In every such run no message sends beyond its unscheduled packets and the largest limit granted to it, single packets without unscheduled ones apart |
| Progress.AlwaysAWayOn | code/Homa/src/Sender.cc:1000-1048 | In every run, after any losses, restarts and receiver timeouts, a held message that has not ended can still reach COMPLETED, if and only if it is one packet, or all its packets are unscheduled, or some are and the policy grants more than has arrived |
| Progress.CompletionIsPossible | code/Homa/src/Sender.cc:786-878 | The same condition decides whether a message can complete at all |
| Recovery.RecoveryFromLoss | code/Homa/src/Sender.cc:182-466 | In every run, once all packets in flight are lost, a held unfinished message can complete by packets sent from then on only if grants can be had or are not needed, and its receiver has heard of it, or it has a packet to send, or it may be restarted; exactly then, if the policy's minimum is positive, or nothing needs granting, or it has neither NO_RETRY nor NO_KEEP_ALIVE |
| Recovery.FetchAll | code/Homa/src/Receiver.cc:602-696 | A receiver that has heard of the message gets all of it by RESENDs, GRANTs and what the sender answers, whatever is missing |
| Recovery.RestartCompletes | code/Homa/src/Sender.cc:333-466 | A PING that finds nobody brings an UNKNOWN, which restarts the message, which can then complete |
| Recovery.UnrecoverableIsMute | code/Homa/src/Sender.cc:1018-1047 | If the receiver does not know the message, nothing may be sent and no restart is allowed, no continuation completes |
| Recovery.NoMinimumDeadlocks | code/Homa/src/Receiver.cc:748-760 | Under a policy without a minimum, a NO_RETRY message that has sent what it may, to a receiver that holds exactly the bytes it granted, never completes |
| Recovery.DeadlockIsReached | code/Homa/src/Receiver.cc:748-760 | The run that leads there |
| Progress.GrantsReachFurther | code/Homa/src/Receiver.cc:748-760 | Exactly when a receiver that holds the first k packets of a longer message has granted beyond them once the grant loop has looked at it, for any policy |
| Progress.RunKept | code/Homa/src/Sender.cc:182-263 | In every run all packets a message counts as sent did enter the network, and it may send its unscheduled ones |
| Protocol.GrantKeepsValid | code/Homa/src/Sender.cc:287-321 | A GRANT, stale or not, keeps 0 <= packetsSent <= packetsGranted <= numPackets and the byte count |
| Protocol.ResendKeepsValid | code/Homa/src/Sender.cc:212-239 | A RESEND acting as a GRANT keeps the message invariant |
| Protocol.GrantReaches | code/Homa/src/Sender.cc:291-321 | After a GRANT a message in progress may send exactly what it might before and the packets that begin inside the granted bytes; it takes the GRANT's priority exactly if that made a difference |
| Protocol.ResendReaches | code/Homa/src/Sender.cc:212-239 | A RESEND in range lets the message send exactly what it might before and everything below its end, whatever the status |
| Protocol.ResendReplyIs | code/Homa/src/Sender.cc:240-263 | A RESEND in range is answered with exactly the packets of the range sent before, in order and once, or with BUSY exactly if the range begins where sending has not come to; one out of range with nothing |
| Protocol.StartedIs | code/Homa/src/Sender.cc:833-877 | A new message is SENT exactly if it is a single packet; a longer one may send exactly its unscheduled packets, with the policy's priority |
| Protocol.RestartIsAStart | code/Homa/src/Sender.cc:380-466 | A restart leaves the message as a new start would |
| Protocol.PingRepeatsTheGrant | code/Homa/src/Receiver.cc:219-246 | The answer to a PING is the limit and the priority of the message's latest grant; for a message without grants it changes nothing at the sender |
| Protocol.ResendReplyWasSent | code/Homa/src/Sender.cc:240-263 | A RESEND is answered only with packets sent before, or with BUSY |
| Protocol.UnknownKeepsValid | code/Homa/src/Sender.cc:334-466 | An UNKNOWN restart resets the send progress consistently |
| Protocol.TransmitKeepsValid | code/Homa/src/Sender.cc:1086-1122 | Sending a packet subtracts its bytes from unsentBytes, which suffice, and ends in SENT exactly after the last one |
| Protocol.StoredIsValid | code/Homa/src/Receiver.cc:131-168 | Storing a new packet keeps the receiver's message invariant: state, count, arrival and scheduling information agree with the packets held |
| Protocol.CompleteWhenAllStored | code/Homa/src/Receiver.cc:150-168 | A message is complete exactly when every one of its N indices is occupied |
| Protocol.BytesRemainingSuffice | code/Homa/src/Receiver.cc:138-146 | The assertion that bytesRemaining covers an arriving packet never fails |
| Protocol.GrantedKeepsValid | code/Homa/src/Receiver.cc:746-772 | A message with less than the minimum outstanding is left with exactly the maximum outstanding or everything granted, another keeps its limit; a grant takes nothing back, never exceeds the message, and unlinks it exactly when everything is granted |
| Fragments.FlattenFragment | code/Homa/src/Sender.cc:580-613 | Concatenating the packets of a message gives the message |
| Fragments.OutBuffer.Append | code/Homa/src/Sender.cc:580-613 | Bytes appended follow the contents, cut off at the maximum length; the packets hold exactly the new contents |
| Fragments.OutBuffer.Reserve | code/Homa/src/Sender.cc:685-719 | Headroom is reserved up to the maximum, in packets that will hold it |
| Fragments.OutBuffer.Prepend | code/Homa/src/Sender.cc:645-669 | Bytes prepended precede the contents and use up headroom; all other bytes stay |
| Fragments.OutBuffer.GetOrAllocPacket | code/Homa/src/Sender.cc:759-776 | An existing packet is found, a missing one allocated empty and counted |
| Fragments.AppendTwice | code/Homa/src/Sender.cc:580-613 | Two appends build what one append of the joined bytes builds, truncation included |
| Fragments.HoldsDetermines | code/Homa/src/Sender.cc:580-613 | Equal contents mean equal packets: same indices, lengths and bytes in use |
| Fragments.InBuffer.SetPacket | code/Homa/src/Receiver.cc:476-486 | A packet is stored at a free index and refused at an occupied one |
| Fragments.InBuffer.Strip | code/Homa/src/Receiver.cc:427-431 | Stripping moves the start forward, at most to the end |
| Fragments.InBuffer.Get | code/Homa/src/Receiver.cc:373-413 | Reading returns exactly the requested slice of the carried bytes, shortened at the end of the message |
| Fragments.Transfer | code/Homa/src/Receiver.cc:373-431 | A built message, delivered in any order with any duplicates and read back after any strips, gives the matching slice of what was put in |
| Intrusive.List.Insert | code/Homa/src/Intrusive.h:346-353 | Inserting before a position inserts into the sequence; next and prev stay mutually inverse around one ring |
| Intrusive.List.Remove | code/Homa/src/Intrusive.h:364-388 | Removing a linked node removes it from the sequence and returns its successor; removing an unlinked node changes nothing |
| Intrusive.List.Contains | code/Homa/src/Intrusive.h:450-456 | A node's list pointer tells membership |
| Intrusive.List.PushBack | code/Homa/src/Intrusive.h:396-401 | Appends to the sequence |
| Intrusive.List.PushFront | code/Homa/src/Intrusive.h:423-428 | Prepends to the sequence |
| Intrusive.List.PopBack | code/Homa/src/Intrusive.h:409-414 | Drops the last node |
| Intrusive.List.PopFront | code/Homa/src/Intrusive.h:436-441 | Drops the first node |
| Intrusive.List.Clear | code/Homa/src/Intrusive.h:326-334 | Unlinks every node |
| Intrusive.List.Front | code/Homa/src/Intrusive.h:232-236 | The element of the first node |
| Intrusive.List.Back | code/Homa/src/Intrusive.h:252-256 | The element of the last node |
| Intrusive.List.Empty | code/Homa/src/Intrusive.h:308-312 | Whether there are no nodes |
| Intrusive.List.Prioritize | code/Homa/src/Intrusive.h:500-522 | The pointer walk performs the move the sequence-level function describes, for any comparison |
| Intrusive.List.Deprioritize | code/Homa/src/Intrusive.h:542-564 | Likewise for moving back |
| Ordering.PrioritizeSorts | code/Homa/src/Intrusive.h:500-522 | A list sorted apart from one element whose key fell becomes sorted, for every strict weak order |
| Ordering.DeprioritizeSorts | code/Homa/src/Intrusive.h:542-564 | A list sorted apart from one element whose key rose becomes sorted, for every strict weak order |
| Ordering.MovePermutes | code/Homa/src/Intrusive.h:517-521 | Either move is a permutation |
| Ordering.MoveKeepsTheRest | code/Homa/src/Intrusive.h:559-563 | All other elements keep their relative order |
| Ordering.PushFrontDeprioritizeInserts | code/Homa/src/Intrusive.h:542-564 | push_front followed by deprioritize is a sorted insert behind all equal keys |
| SendQueue.SrptIsShortestFirst | code/Homa/src/Sender.cc:1085-1128 | Every packet sent belongs to a message with the fewest unsent bytes among the queued messages that may send |
| SendQueue.SrptStaysUnderLimit | code/Homa/src/Sender.cc:1095-1102 | The driver is never filled past its limit, and gets nothing when it is past it already |
| SendQueue.SrptStopsForAReason | code/Homa/src/Sender.cc:1085-1130 | Sending stops because nothing may be sent, or because the next packet of the shortest message does not fit |
| SendQueue.SrptFinishes | code/Homa/src/Sender.cc:1083-1130 | If sendReady is left down, no queued message has granted unsent packets |
| SendQueue.SrptPerMessage | code/Homa/src/Sender.cc:1086-1122 | Each message has sent consecutive packets from where it stood, and changed in nothing else |
| SendQueue.SrptPackets | code/Homa/src/Sender.cc:1089-1104 | Every packet sent is a granted packet of a known message, counted with its header, and leaves with the message's priority |
| SendQueue.SrptKeepsInv | code/Homa/src/Sender.cc:1085-1130 | The queue keeps holding exactly the messages in progress, sorted by unsent bytes |
| QueueWalk.TraceIsSrpt | code/Homa/src/Sender.cc:1085-1130 | The walk with one iterator over the moving queue sends what the rule sends, in the same order |
| QueueWalk.InPlaceClean | code/Homa/src/Sender.cc:1103-1122 | Reordering the node under the iterator leaves no ready message behind it |
| Senders.Sender.WalkQueue | code/Homa/src/Sender.cc:1083-1130 | The loops of trySend terminate and have the outcome of the rule: same packets, same queue, same sendReady |
| Senders.Sender.TrySend | code/Homa/src/Sender.cc:1055-1168 | A whole call, with the cleanup of fully sent messages, is one step of the sender model; exactly the messages that need no watching any more lose their timeouts |
| Senders.Sender.SendMessage | code/Homa/src/Sender.cc:785-878 | A new id; one packet is sent at once, a longer message is queued in order; both timeouts armed, or cancelled without keep-alive |
| Senders.Sender.HandleGrantPacket | code/Homa/src/Sender.cc:272-323 | A GRANT raises the limit, wakes the sender, and makes both timeouts expire exactly their intervals from now |
| Senders.Sender.HandleResendPacket | code/Homa/src/Sender.cc:182-263 | A RESEND is refused, answered BUSY or answered with every packet of the range sent already |
| Senders.Sender.HandleUnknownPacket | code/Homa/src/Sender.cc:333-466 | An UNKNOWN restarts or fails the message according to its state and options, with its timeouts kept, armed or cancelled accordingly |
| Senders.Sender.HandleDonePacket | code/Homa/src/Sender.cc:105-174 | A DONE completes a fully sent message and nothing else |
| Senders.Sender.HandleErrorPacket | code/Homa/src/Sender.cc:474-538 | An ERROR fails a fully sent message and nothing else |
| Senders.Sender.CancelMessage | code/Homa/src/Sender.cc:885-908 | Cancelling takes the message out of the queue and off the timeouts |
| Senders.Sender.DropMessage | code/Homa/src/Sender.cc:915-940 | Releasing destroys the message unless it is still being sent |
| Senders.Sender.CheckMessageTimeouts | code/Homa/src/Sender.cc:949-988 | Every message timeout expired at `now` is handled exactly once, in order, and none is left; the other entries stay, and only the handled messages lose their ping timeouts |
| Senders.Sender.PingMessage | code/Homa/src/Sender.cc:1018-1047 | Which timeouts an expired ping timeout cancels or re-arms; a PING goes out exactly if the message is SENT and kept alive, or in progress with everything granted sent, or was cancelled |
| Senders.Sender.CheckPingTimeouts | code/Homa/src/Sender.cc:1000-1048 | Every expired ping timeout is handled exactly once, PINGs go to exactly the messages among them that wait for the receiver, expired entries are armed anew unless nothing is awaited, the others stay, and none is left expired |
| SenderTimers.RunWatched | code/Homa/src/Sender.cc:831-877 | In every run each message in progress, and each sent one that is to be kept alive, has both its timeouts armed |
| SenderTimers.StepWatched | code/Homa/src/Sender.cc:182-323 | Each event of the sender keeps that |
| SenderTimers.PingsWatched | code/Homa/src/Sender.cc:1000-1048 | So does a whole pass over the expired ping timeouts |
| SenderTimers.FailedWatched | code/Homa/src/Sender.cc:949-988 | So does a whole pass over the expired message timeouts |
| SenderTimers.ActionIs | code/Homa/src/Sender.cc:182-323 | An event arms both timeouts of its message, from its own time, exactly if it starts or restarts sending, or is a GRANT, or a RESEND for several packets; it cancels them if it ends the message or takes it away |
| SenderTimers.PingedExactly | code/Homa/src/Sender.cc:1018-1047 | A message with an expired ping timeout is pinged exactly if it waits for the receiver |
| SenderTimers.PingsCheckedAre | code/Homa/src/Sender.cc:1018-1031 | Which entries a pass over the ping timeouts leaves, entry by entry |
| SenderTimers.RunDated | code/Homa/src/Timeout.h:104-112 | In every run a message timeout expires exactly its interval after the message was last heard of, a ping timeout not before its own |
| SenderTimers.GivenUpAfterSilence | code/Homa/src/Sender.cc:949-988 | In every run a waiting message is failed by a check at some time exactly if it was last heard of at least the message interval before, and looked at for a PING only after the ping interval |
| SenderTimers.EndedIsUnwatched | code/Homa/src/Sender.cc:130-172 | The event that ends a message, takes it away or leaves it with nothing to wait for leaves it without timeouts |
| Fates.EventFate | code/Homa/src/Sender.cc:126-174 | Exactly which events lead to COMPLETED, CANCELED, FAILED and back to IN_PROGRESS, which take the message away, and which are reported to the application |
| Fates.RunFate | code/Homa/src/Sender.cc:885-988 | In every run a COMPLETED message was reported after a DONE, a CANCELED one was cancelled, a FAILED one was reported after an ERROR or a timeout or was not to be retried and unknown; nothing else is reported |
| Fates.StepHolds | code/Homa/src/Sender.cc:915-940 | Contents and options of a message never change; it is given up by release alone, and goes away then, or when it has been sent |
| Fates.RunReleases | code/Homa/src/Sender.cc:1134-1163 | In every run no released message is kept once it was sent |
| Fates.ReadyExactly | code/Homa/src/Sender.cc:1079-1130 | sendReady goes up exactly when an event brings something to send, and is up after trySend exactly if a granted packet of a queued message is left |
| SenderModel.EnqueuedPlace | code/Homa/src/Sender.cc:855-876 | A message queued goes behind those with as much or less to send; the others keep their order |
| SenderModel.StepKeepsInv | code/Homa/src/Sender.cc:785-940 | Every event keeps: the queue holds exactly the messages in progress, sorted; counters and bytes agree; sendReady is down only if nothing can be sent |
| SenderModel.RunKeepsInv | code/Homa/src/Sender.cc:1055-1168 | That holds after every sequence of events |
| Timeouts.TimeoutManager.SetTimeout | code/Homa/src/Timeout.h:104-112 | Re-arming moves the entry to the end; the list stays sorted and the cached minimum right |
| Timeouts.TimeoutManager.CancelTimeout | code/Homa/src/Timeout.h:120-129 | Cancelling removes the entry only; the cached minimum is UINT64_MAX for an empty list |
| Timeouts.TimeoutManager.AnyElapsed | code/Homa/src/Timeout.h:144-147 | The cached minimum answers exactly whether some entry has expired |
| Timeouts.ElapsedIdsComplete | code/Homa/src/Receiver.cc:544-560 | The expired entries are a prefix of the list, each once, and nothing behind it has expired |
| Scheduler.ScheduleKeepsInv | code/Homa/src/Receiver.cc:790-818 | Scheduling a message keeps both levels sorted, without duplicates, and peers scheduled exactly while they have messages |
| Scheduler.UnscheduleKeepsInv | code/Homa/src/Receiver.cc:830-862 | Unscheduling keeps it, although only the next peer is looked at |
| Scheduler.UpdateKeepsInv | code/Homa/src/Receiver.cc:874-894 | Moving up after data arrived keeps it |
| Scheduler.SchedulePlace | code/Homa/src/Receiver.cc:790-818 | A message goes behind those of its peer with as much or less remaining, a new peer behind those with an equal key; the others keep their order |
| Grants.TurnMoves | code/Homa/src/Receiver.cc:762-772 | After a visit the iterator is one further, or at the same index with the visited peer gone or moved behind it |
| Grants.VisitsAreDistinct | code/Homa/src/Receiver.cc:735-775 | No message is visited twice in a round |
| Grants.VisitsAreOrdered | code/Homa/src/Receiver.cc:735-775 | Messages are visited in nondecreasing remaining bytes |
| Grants.VisitPriorities | code/Homa/src/Receiver.cc:726-747 | The first visits get different priorities counting down to 0, as many as there are levels for scheduled messages or peers, whichever is less; later visits get 0 |
| Grants.GrantsAre | code/Homa/src/Receiver.cc:749-760 | A GRANT is sent exactly for the visits that found less than the minimum outstanding |
| Grants.FirstVisitIsLeast | code/Homa/src/Receiver.cc:735-746 | A round starts with the least remaining of all scheduled messages |
| Grants.UnvisitedIsNotLess | code/Homa/src/Receiver.cc:735-775 | No message of a peer the round did not come to has fewer bytes remaining than any message it visited |
| Grants.RoundGrantsOnce | code/Homa/src/Receiver.cc:735-775 | Each visited message is granted once from the state it had before the round; no other message changes |
| ReceiverModel.RoundPromises | code/Homa/src/Receiver.cc:702-778 | One round visits at least min(peers, degree) and at most degree messages, all different, shortest first, none longer than any message of a peer left out, with priorities counting down to 0, and grants each exactly what it is owed: the maximum outstanding or everything if less than the minimum is outstanding, else nothing |
| ReceiverModel.RoundSends | code/Homa/src/Receiver.cc:749-760 | The GRANTs sent are those of the messages visited with less than the minimum outstanding, each with the limit and priority its message has from then on, which a PING finds out again |
| ReceiverModel.DataKeepsInv | code/Homa/src/Receiver.cc:88-170 | A DATA packet keeps the invariant of schedule, messages and queue |
| ReceiverModel.NextKeepsInv | code/Homa/src/Receiver.cc:536-590 | So does every other event of the receiver |
| ReceiverModel.RunKeepsInv | code/Homa/src/Receiver.cc:790-894 | Every state of every run: exact schedule, valid messages, grants within message and maximum, queue without duplicates |
| ReceiverModel.RunGrows | code/Homa/src/Receiver.cc:749-772 | While a message is known its grants never shrink, stored packets stay, and once out of the schedule it never returns |
| ReceiverModel.NextQueues | code/Homa/src/Receiver.cc:159-168 | A message, known before or completed by its first packet, enters the received queue with the packet that completes it and by nothing else, and leaves it only when handed out |
| ReceiverModel.CompleteIsAvailable | code/Homa/src/Receiver.cc:150-168 | In every run a message all of whose N indices are stored is in the received queue, or was handed out since it became known |
| ReceiverModel.FirstInFirstOut | code/Homa/src/Receiver.cc:159-168 | In every run the messages completed so far, in that order, are those handed out followed by those waiting |
| ReceiverModel.HandedOutOnce | code/Homa/src/Receiver.cc:264-276 | A message handed to the application is not queued again while it is known |
| ReceiverTimers.RunWatched | code/Homa/src/Receiver.cc:149-168 | In every run each incomplete message has both its message and its resend timeout armed |
| ReceiverTimers.RunDated | code/Homa/src/Timeout.h:104-112 | In every run a message timeout expires exactly its interval after a new packet, a BUSY or a PING last came for the message, and a resend timeout not before its interval after a packet or BUSY |
| ReceiverTimers.GivenUpAfterSilence | code/Homa/src/Receiver.cc:536-590 | In every run an incomplete message is given up by a check exactly if its sender was last heard of at least the message interval before, and asked for again only after the resend interval |
| ReceiverTimers.EndedIsUnwatched | code/Homa/src/Receiver.cc:495-523 | A message forgotten has no timeout left, a complete one no resend timeout |
| ReceiverTimers.NextWatched | code/Homa/src/Receiver.cc:88-170 | Each event of the receiver keeps that |
| ReceiverTimers.ExpiryWatched | code/Homa/src/Receiver.cc:536-590 | So does a whole pass over the expired message timeouts |
| ReceiverModel.TimeOutAllEffect | code/Homa/src/Receiver.cc:536-590 | Expired incomplete messages are gone, expired complete ones marked dropped, all others untouched |
| Receivers.Receiver.Schedule | code/Homa/src/Receiver.cc:790-818 | The message goes behind its peer's equal keys, a new peer behind equal peers, a known one up if its first message changed: the schedule of `ScheduleKeepsInv` |
| Receivers.Receiver.Unschedule | code/Homa/src/Receiver.cc:830-862 | The message is in its peer's list and the peer is scheduled, so both are found; an empty peer goes, another moves back only if the next one is before it: the schedule of `UnscheduleKeepsInv` |
| Receivers.Receiver.UpdateSchedule | code/Homa/src/Receiver.cc:874-894 | Message and peer move up as far as their keys say: the schedule of `UpdateKeepsInv` |
| Receivers.Receiver.HandleDataPacket | code/Homa/src/Receiver.cc:88-170 | A packet is stored or found to be a duplicate; a stored one re-arms the timeouts, the last one ends the resend timeout, a duplicate changes nothing |
| Receivers.Receiver.HandleBusyPacket | code/Homa/src/Receiver.cc:178-198 | BUSY postpones the message timeout, and the resend timeout of an incomplete message only |
| Receivers.Receiver.HandlePingPacket | code/Homa/src/Receiver.cc:207-252 | The reply is the latest grant, an empty one, or UNKNOWN |
| Receivers.Receiver.ReceiveMessage | code/Homa/src/Receiver.cc:264-276 | First in, first out |
| Receivers.Receiver.DropMessage | code/Homa/src/Receiver.cc:495-523 | A released message leaves timeouts, schedule and table |
| Receivers.Receiver.CheckMessageTimeouts | code/Homa/src/Receiver.cc:536-590 | Every expired message timeout is handled exactly once, in order, and none is left; the other entries stay, and only the handled messages lose their resend timeouts |
| Receivers.Receiver.RequestResends | code/Homa/src/Receiver.cc:628-694 | The requests for one message are exactly the maximal runs of missing packets below the limit, in order, with gaps between them and the message's priority, and none when the sender is taken to wait |
| Receivers.Receiver.CheckResendTimeouts | code/Homa/src/Receiver.cc:602-696 | Every expired resend timeout is handled exactly once, belongs to an incomplete message and is armed anew, the others stay; all requests called for are made, no others, and none is left expired |
| Receivers.Receiver.GrantFront | code/Homa/src/Receiver.cc:737-772 | One visit: the message gets the priority and exactly the limit it is owed, a GRANT if less than the minimum was outstanding, and leaves the schedule if everything is granted |
| Receivers.Receiver.TrySendGrants | code/Homa/src/Receiver.cc:701-778 | The loop with its live iterator is a round, with all that `RoundPromises` says about rounds, and sends the GRANTs `RoundSends` lists |
| Reassembly.StoredAll | code/Homa/src/Receiver.cc:150-160 | All bytes are stored exactly when all packets are |
| Reassembly.GrantedBytesFillGrantedPackets | code/Homa/src/Receiver.cc:640-651 | The packets a grant reaches are all stored exactly when they hold the granted bytes, short last packet included |
| ResendRanges.ResendLimitIsMax | code/Homa/src/Receiver.cc:633-656 | The limit is max(min(U, N), ceil(bytesGranted/P)) and never exceeds N |
| ResendRanges.FindRuns | code/Homa/src/Receiver.cc:658-694 | One pass finds exactly the maximal runs of missing indices, in order and disjoint |
| ResendRanges.NothingIsMissing | code/Homa/src/Receiver.cc:633-656 | Nothing below the resend limit is missing if and only if the packets below it hold all the bytes they can hold |
| ResendRanges.NothingGrantedIsMissing | code/Homa/src/Receiver.cc:640-651 | No packet the grants reach is missing if and only if those packets hold the granted bytes |
| ResendRanges.ResendIsTheLostGrant | code/Homa/src/Receiver.cc:666-683 | A RESEND for the last packets granted does at a sender in progress exactly what the latest GRANT does |
| ResendRanges.SilenceIsSound | code/Homa/src/Receiver.cc:640-648 | If only packets the grants reach are stored, a silent receiver misses none of those, and nothing below the resend limit when the grants also reach the unscheduled packets |
| ResendRanges.SilenceCanHideLoss | code/Homa/src/Receiver.cc:640-648 | Otherwise a silent receiver may miss its first packet |
| ResendRanges.SilentIsScheduled | code/Homa/src/Receiver.cc:640-648 | An incomplete message that is silent is still scheduled, and when the grant loop grants it |
| ResendRanges.SilenceEnds | code/Homa/src/Receiver.cc:746-760 | Exactly when an incomplete message is still silent after the grant loop has looked at it; never, if the policy's minimum is positive |
| Policy.Manager.constructor | code/Homa/src/Policy.cc:41-65 | The minimum is one round trip of bytes, the maximum two; scheduled and unscheduled levels use up all priorities if there are at least 4; the overcommitment assertion holds iff the highest priority is below 8; unscheduled priorities are never below scheduled ones, and above all of them iff there are at least 4 |
| Policy.Manager.GetUnscheduledPolicy | code/Homa/src/Policy.cc:106-136 | New peers get the defaults; the loop finds the rank of the message |
| Policy.RankIsFirst | code/Homa/src/Policy.cc:127-134 | The rank is the first cutoff the message does not reach |
| Policy.PriorityIsLevel | code/Homa/src/Policy.cc:127-136 | A message that reaches the first r cutoffs and no more is r levels below the highest, at least 0 |
| Policy.LongerIsNotHigher | code/Homa/src/Policy.cc:127-135 | A longer message never gets a higher priority, whatever the cutoffs |
| CopyFlows.Device.AddCopyAction | env/mlx5_flow.c:2929-3048 | A known mark gets one more reference, the default none; a new one is created and installed if the device is started; failure changes nothing |
| CopyFlows.Device.UpdateCopyTable | env/mlx5_flow.c:3234-3283 | A flow comes to point at its mark's copy resource with all counters right |
| CopyFlows.Device.DelCopyAction | env/mlx5_flow.c:3060-3090 | A flow gives up its reference; the last one removes the resource |
| CopyFlows.Device.StartCopyAction | env/mlx5_flow.c:3103-3121 | The first user installs the copy flow; the only failure is the hardware refusing that |
| CopyFlows.Device.StopCopyAction | env/mlx5_flow.c:3131-3143 | The last user removes the copy flow from the hardware |
| CopyFlows.Device.CreateFlow | env/mlx5_flow.c:4321-4352 | Success exactly when every step succeeds, and then a marked flow shares its mark's copy flow, with one more reference, installed exactly if the device is started; any failure leaves flows, list and table as they were |
| CopyFlows.Device.DestroyFlow | env/mlx5_flow.c:4434-4455 | The flow and its reference are gone, everything else is counted correctly |
| CopyFlows.Device.Stop | env/mlx5_flow.c:4485-4495 | From any consistent state, nothing is left in the hardware and no reference is lost |
| CopyFlows.Device.Start | env/mlx5_flow.c:4509-4535 | All flows and copy flows get installed, or none after a failure; success exactly when the hardware accepts all of them |
| CopyFlows.AllApplied | env/mlx5_flow.c:3262-3265 | In a started device a known copy resource is already installed, so adding a user needs no installation |
| CopyFlows.TableDetermined | env/mlx5_flow.c:4340-4352 | The flows determine the table: same references, same counters |
| CopyFlows.PointKeeps | env/mlx5_flow.c:3262-3265 | Adding a user keeps refcnt equal to the flows pointing at the resource, appcnt to those applied, and installed to appcnt > 0 |
| CopyFlows.UnpointKeeps | env/mlx5_flow.c:3083-3090 | Removing a user keeps them, the last one removes the entry |
| CounterQuery.CounterManager.QueryAlarm | env/mlx5_flow.c:5522-5592 | The alarm queries the next pool, skips an empty container, and undoes a refused query |
| CounterQuery.CounterManager.PoolQueryHandle | env/mlx5_flow.c:5607-5631 | An answer shows the new buffer and frees the old one; a failure frees the new one |
| CounterQuery.PoolStep | env/mlx5_flow.c:5607-5631 | What each event does to each pool: a successful answer shows the buffer that was in flight with a new generation, a failed one what was shown before, an accepted query hands the pool whose turn it is the first free buffer |
| CounterQuery.RunShows | env/mlx5_flow.c:5607-5631 | In every run a pool shows the buffer of its last successful answer, and its generation counts them |
| CounterQuery.StepKeepsInv | env/mlx5_flow.c:5559-5631 | Every event keeps each buffer in exactly one place and the pending count equal to the pools in flight, at most four |
| CounterQuery.RunKeepsInv | env/mlx5_flow.c:5559-5631 | That holds after every possible sequence of events |
| CounterQuery.RunConservesSpares | env/mlx5_flow.c:5559-5631 | After any run free and pending buffers together are those there were plus the spare ones provided |
| CounterQuery.QueryNeedsNoLuck | env/mlx5_flow.c:5559-5567 | With four spare buffers a query is possible exactly when fewer than four are pending and the pool is not waiting |
| CounterQuery.TurnsGoRound | env/mlx5_flow.c:5582-5588 | Accepted queries go round the pools of both containers in order |
| CounterQuery.TurnsDiffer | env/mlx5_flow.c:5582-5588 | Queries closer together than there are pools go to different pools |
| CounterQuery.PoolComesUp | env/mlx5_flow.c:5582-5588 | From any turn on every pool is queried before the turns have gone round once |
| CounterQuery.EveryPoolGetsItsTurn | env/mlx5_flow.c:5582-5588 | Between two queries of the same pool every other pool is queried |

## Left out

- Interleavings inside a handler, locks and memory order: every handler is one atomic step, which includes both halves of `trySend`.
- The hash buckets: each side has one bucket, so one list per kind of timeout.
- Clocks: a handler reads the clock once, readings never go back, and the 64-bit cycle counter does not wrap.
- Integer widths: lengths, limits and counters are unbounded; the 32-bit sum in the grant limit and 16-bit header fields do not wrap.
- Driver, packet pools, performance counters, logging and packet release: sending a packet adds it to the network or to a result. Only packets of `trySend` carry their priority.
- Packet headers on the wire, addresses and ports: a packet carries its message id implicitly or as a field, peers are numbers.
- Receivers.Receiver.HandleDataPacket: whether a packet fits its message is not checked, as in the source; the invariant lemmas ask for it, and `TwoParty` proves it of every packet a sender sends.
- Receivers.Receiver.HandlePingPacket: models the reply and the timeout, not the address the reply goes to.
- Progress.AlwaysAWayOn: says that some continuation completes, not that every fair one does; a packet once sent may be delivered later.
- Recovery.RecoveryFromLoss: for a message with NO_RETRY or NO_KEEP_ALIVE that needs grants, under a policy whose minimum is zero, only the "only if" half holds; the default policy has a minimum of zero exactly below 8 Mbit/s.
- TwoParty.After: one message and one id; `Transport` covers any number of messages between one sender and one receiver, several senders of one receiver are not composed.
- "A message enters doneMessages at most once" and "every released message is destroyed": the source does not keep either.
- At-most-once delivery after a release: a late duplicate makes a new message, which the run model includes.
- Hairpin and RSS splitting, item and action validators, register lookup: in `CopyFlows` each is part of a step that succeeds or fails.
- CopyFlows.Device.CreateFlow: asks for a mark other than the reserved default id, which the validators refuse; egress flows, which never touch the copy table, are flows without a mark.
- Rx-queue flag counters and the meter split of `env/mlx5_flow.c`.
- CounterQuery.CounterManager.QueryAlarm: containers only grow; resizing and flipping them and setting the next alarm are not modelled.
- Raw driver memory, hardware answers and alarms: oracles that say whether a step succeeds.
