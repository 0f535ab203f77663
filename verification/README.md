# wire-rs in Dafny

A model of the layered, concurrent request/reply protocol of wire-rs, and proofs of what its layers promise.

The repository guards all of its state by small critical sections. Each of them is one step of a total
transition function here; a step that is not enabled changes nothing, so every list of steps is a run and the
threads are the interleavings of their steps. The theorems about runs are for all lists of steps.

- **Framing** (`Framing`, `Deadlines`, `FrameReading`, `FrameWriting`). A per-byte automaton, the in-place reader that
  refines it, and the writer with its recovery flag. The COBS codec is a parameter of which only its laws are assumed:
  nonempty zero-free output, decoding undoes encoding, and a monotone bound on the encoded length. An adapter is
  the script of answers it is going to give, part of which has been played; a call whose script is used up has not
  returned yet. Data that does not fit the reader's buffer stays with the adapter.
- **Protocol session** (`Wire`, `Session`, `SessionImpl`, `Promises`, `Obligations`, `Budget`, `Numbering`,
  `Outcomes`, `Timers`, `Correlation`, `RoundTrip`). `Session` is the step machine of one session: the six linked collections under its lock, the
  byte counter, and what callers and workers hold between their critical sections. `SessionImpl` is the mutable
  object whose methods implement the steps with the source's loops; its invariant is that some run reaches its
  state. `Correlation` joins two sessions by order-preserving channels. Time is an integer parameter of the steps.
- **Outgoing transport** (`Outbound`, `Isolation`, `Sending`, `Shutdown`). The sealer, writer and binding locks with a program
  counter per thread, and the admission protocol of the stream's closer with its condition variable. An encryption
  context is a session number and a sequence counter, with the counter discipline of section 5.2 of RFC 9180.
- **Lifecycles** (`TransportServer`, `ServerLoop`, `ClientLoop`, `Connecting`, `Lifecycle`, `Callbacks`). The
  four-state reference machine, the receive loop that refines it, the client's connection past stale input, both
  joined end to end, attachment and closing of protocol sessions, and completion callbacks.

## Model

| member | source | states |
|---|---|---|
| Framing.FeedAppend | src/transport/framing.rs:110-183 | the automaton is compositional, so the chunking of the input does not matter |
| Framing.AutomatonCutsAtZeros | src/transport/framing.rs:110-183 | the automaton's reports are those of the stream cut at its zeros: each piece that fits is a frame, each other piece one overflow report |
| Framing.CutIsUnique | src/transport/framing.rs:110-183 | the pieces and tail of a stream are the only way to write it as zero-free pieces, each followed by a zero, and a zero-free rest |
| Framing.ResetResynchronises | src/transport/framing.rs:230-236 | from any state of the line and after any junk, two zeros leave a clean line and report a reset last |
| Framing.FrameOnCleanLine | src/transport/framing.rs:110-183 | a frame that fits, sent on a clean line, is reported as itself and leaves a clean line |
| FrameReading.ReadHalf.Read | src/transport/stream.rs:317-347 | exactly the bytes the adapter delivers are stored and played, also by a late call; a failure means that the last check found the deadline gone or the last call failed, an end that the last call ended, a wait that nothing is left; retries are all that came before, and a deadline is checked once before each call |
| FrameReading.FrameReader.Compact | src/transport/framing.rs:137-156 | moving the partial frame to the front, or dropping a drained portion, loses and reports nothing |
| FrameReading.FrameReader.NextFrame | src/transport/framing.rs:110-183 | for every plan of the adapter, cut into calls in any way, the reports handed out are the automaton's on the bytes received, one per call; it asks for more only when none is owed; it fails if and only if a check or a call did, ends if and only if the input did, and waits only when the plan is used up and all its reports are handed out; a deadline is checked even for buffered frames |
| FrameWriting.WriteHalf.Write | src/transport/stream.rs:370-411 | exactly the bytes the adapter took join the stream once and in order; it succeeds if and only if setter and flush are accepted, the writes in between only progress or are interrupted and take every byte, and no check is late; a timeout is reported if and only if a check was late or the adapter timed out; a deadline is checked once before each call |
| FrameWriting.FrameWriter.SendFrame | src/transport/framing.rs:275-292 | the recovery delimiter, frame and delimiter go out as far as the adapter took them, the result is the write's unless the last check finds the deadline gone, the send is recorded, and the recovery flag is raised exactly on failure |
| FrameWriting.FrameWriter.SendReset | src/transport/framing.rs:230-236 | a reset is two zeros, recorded as such |
| FrameWriting.FrameWriter.SendDropped | src/transport/framing.rs:242-245 | a drop notification is one empty frame, recorded as such |
| FrameWriting.FrameWriter.SendPacket | src/transport/framing.rs:254-265 | a packet is refused if and only if its worst case exceeds a frame, and then nothing is written; otherwise its encoding is attempted |
| FrameWriting.DoneExactly | src/transport/stream.rs:370-411 | success is exactly: accepted setter, needed writes that progress or are interrupted and take every byte, accepted flush, no late check |
| FrameWriting.FailureExactly | src/transport/stream.rs:370-411 | an error is exactly: a late check, or a last answer that is refused, failed, a write of nothing, or an interrupted setter or flush |
| FrameWriting.WriteSucceeds | src/transport/stream.rs:370-411 | given an adapter that is going to take the bytes in any number of writes and interruptions, the operation succeeds with exactly these answers |
| FrameWriting.SuccessMeans | src/transport/stream.rs:370-411 | a write succeeds only when setter, all bytes and flush were accepted and no check found the deadline gone |
| FrameWriting.WriterResynchronises | src/transport/framing.rs:230-292 | for every history of sends that failed after any prefix, the stream cut at its zeros is every successful frame whole, in order and merged with nothing; every other piece is empty or a prefix of a failed frame |
| FrameWriting.ReaderSeesPieces | src/transport/framing.rs:110-292 | composed with the reader: on such a stream the automaton reports exactly these pieces |
| FrameWriting.MaxMessageSize | src/transport/mod.rs:88-94 | the search loop returns the exact threshold: a message is within it if and only if it fits a frame after sealing and worst-case encoding, so no refusal for size can follow sealing |
| Wire.AllocatedIds | src/protocol/envelope.rs:354-377 | the k-th ID of a side is its first plus twice k, has that side's parity, is recovered from its index, and is followed by the next one or by none past 64 bits |
| SessionImpl.FailExpired | src/protocol/session.rs:1241-1262 | the loop settles exactly the expired operations as timeouts and keeps the others |
| SessionImpl.RetainPending | src/protocol/session.rs:1263-1274 | the loop keeps exactly the queued messages still pending, in order, and frees exactly the IDs of the dropped answers |
| SessionImpl.FailAll | src/protocol/session.rs:1218-1238 | the loop settles every operation, as a timeout where its deadline has come and with the closing reason elsewhere |
| SessionImpl.SessionInner.DropExpired | src/protocol/session.rs:1241-1274 | the object takes the machine's expiry; routes of requests stay |
| SessionImpl.SessionInner.Stop | src/protocol/session.rs:1218-1238 | the object takes the machine's closing; the first reason stands |
| SessionImpl.SessionInner.Expire | src/protocol/session.rs:696-701 | exactly the operations that are due time out, with their queued messages; routes and everything else stay |
| SessionImpl.SessionInner.Close | src/protocol/session.rs:485-503 | closing keeps the first reason, wakes the sleepers, and afterwards every promise ever issued is settled |
| SessionImpl.SessionInner.Enqueue | src/protocol/session.rs:643-689 | queues the message with its operation and wakes the sleepers, or settles it at once when late, freeing the answered ID |
| SessionImpl.SessionInner.Request | src/protocol/session.rs:600-615 | an open session returns a promise that never existed before; on time its message is queued behind all others with its operation, too late it has timed out; a closed one refuses |
| SessionImpl.SessionInner.Reply | src/protocol/session.rs:621-637 | the same for a reply, whose responder is used up |
| SessionImpl.SessionInner.BeginAutoreply | src/protocol/session.rs:576-592 | the first locked section of an automatic reply fixes its deadline; the obligation passes on |
| SessionImpl.SessionInner.FinishAutoreply | src/protocol/session.rs:593-594 | the second one queues the reply, or nothing once closed |
| SessionImpl.SessionInner.NextOutgoing | src/protocol/session.rs:979-1036 | expires, then takes the oldest message still alive: a request gets, before it is sent, its route and the ID after all allocated so far, which no request ever had; an answer frees its ID |
| SessionImpl.SessionInner.Withdraw | src/protocol/session.rs:1076-1086 | a request the encoder refused loses its route |
| SessionImpl.SessionInner.FailWriter | src/protocol/session.rs:1067-1072 | a wire failure closes the session |
| SessionImpl.SessionInner.RecordWrite | src/protocol/session.rs:747-767 | an on-time write leaves a request waiting and settles a reply as written; a late one times out, a refused one fails as refused; no result is replaced |
| SessionImpl.SessionInner.ReleaseCharge | src/protocol/envelope.rs:297-301 | giving back the bytes of any live envelope never underflows the counter |
| SessionImpl.ChargeCovered | src/protocol/envelope.rs:297-301 | every charge is contained in the counter |
| SessionImpl.SessionInner.AdmitRequest | src/protocol/session.rs:914-967 | admits a request if and only if it is no duplicate and both limits leave room, reserving its ID and queuing and charging known content; on an error nothing changes |
| SessionImpl.SessionInner.CompleteResponse | src/protocol/operation.rs:74-105 | an on-time answer that fits settles its promise with that answer, held if and only if the promise still exists; a late one is a timeout, one that does not fit the byte limit, which is reported only if the promise still exists |
| SessionImpl.SessionInner.HandleMessage | src/protocol/session.rs:838-907 | settles the promise a response is for, admits a request there is room for, returns the verdict and wakes the sleepers exactly when there is no error; an open session stays within both limits |
| SessionImpl.SessionInner.SetInboundLimits | src/protocol/session.rs:380-421 | sets both limits, or closes the session with the limit it exceeds, requests first, and a wakeup |
| SessionImpl.SessionInner.Receive | src/protocol/session.rs:448-478 | takes the oldest request, whose ID is reserved and had no responder, and whose bytes stay charged until decoded |
| Numbering.EveryRun | src/protocol/session.rs:1007-1018 | in every run of one session the next ID is the one after those allocated, or none past 64 bits |
| Promises.EveryRun | src/protocol/session.rs:643-689 | in every run each issued promise is settled or pending and never both, a closed session has settled all, every queued message has its operation, and a result is a timeout if and only if it was settled at or after its deadline |
| Promises.FirstSettlementStands | src/protocol/operation.rs:74-134 | no later step of any run changes or withdraws a published result |
| Promises.CloseSettlesAll | src/protocol/session.rs:1218-1238 | closing settles every pending promise, as a timeout where due and with the closing reason elsewhere |
| Promises.ClosedForGood | src/protocol/session.rs:1218-1238 | after closing, no step changes the reason, a result or the set of promises |
| Outcomes.EveryRun | src/protocol/session.rs:747-767 | in every run an answer settles only a promise that asked and a write only one that did not, and the writer takes messages in the order of their promises, all older than those still queued |
| Outcomes.WriteRecorded | src/protocol/session.rs:747-767 | in every run, recording an on-time write leaves a request waiting, settles a reply as written, and a late or refused one fails |
| Outcomes.OldestIsTaken | src/protocol/session.rs:979-1036 | the writer gets the oldest message that has not expired, if there is one and its request can be numbered |
| Outcomes.MalformedExactly | src/protocol/session.rs:850-857 | a request is malformed exactly if it carries an error or reuses an ID that is still owed a reply, and then changes nothing |
| Outcomes.ExpireSettles | src/protocol/session.rs:1241-1274 | exactly what is due times out, with its queued messages, and routes stay |
| Outcomes.AutoBegins | src/protocol/session.rs:576-592 | an unanswered or unknown request is to be answered as such within the session's timeout |
| Obligations.EveryRun | src/protocol/session.rs:914-967 | in every run the reserved IDs are the disjoint union of those in the receive queue, with responders, awaiting an automatic reply and answered in the outgoing queue; their number is within the limit; each admission yields at most one answer taken by the writer |
| Obligations.OnePlace | src/protocol/responder.rs:105-142 | an owed ID is in only one of these places |
| Budget.EveryRun | src/protocol/envelope.rs:213-301 | in every run the byte counter is the exact total of live undecoded envelopes, no release underflows, and an open session is within its limit |
| Timers.NoLostTimer | src/protocol/session.rs:1115-1152 | given wakeups only from the sections that notify in the source, in every run: while the worker sleeps before its wake time and no such wakeup is outstanding, no pending operation has reached its deadline |
| Timers.NoLostMessage | src/protocol/session.rs:448-478 | likewise, while the writer or the receiver sleeps and no wakeup is outstanding, the session is open and there is nothing to send or to receive |
| Timers.DeadlinesAreMet | src/protocol/session.rs:1115-1152 | from every reachable state of an open session, delivering the outstanding wakeups and one turn of the worker settles everything due as timeouts; its next wake time exists |
| Timers.OnlyQueuingAdds | src/protocol/session.rs:643-689 | every section that adds a deadline, fills an empty queue or closes the session is one that notifies in the source |
| Correlation.AnswersMatchRequests | src/protocol/session.rs:838-907 | in every run of two sessions, a promise that settles with an answer got the body the peer queued for that same request, and the peer accepted the body that was asked |
| Correlation.AnswersArrive | src/protocol/session.rs:838-907 | in every run, a response at the head of an open side's inbox settles the promise that asked, if pending: with the body the peer queued when on time and within the budget, held if and only if the promise exists, else with a timeout or the byte limit |
| Correlation.RequestsArrive | src/protocol/session.rs:914-967 | in every run, a request at the head of an open side's inbox is admitted with the body asked whenever both limits leave room, and otherwise reported without effect |
| RoundTrip.RequestAnswered | src/protocol/session.rs:600-1036 | from every reachable state of two open, idle sessions with room, a request that is queued, taken, sent, received, answered and answered back settles its promise with exactly the answer's body |
| Correlation.NothingRejected | src/protocol/session.rs:850-896 | in every run no envelope in flight is rejected as malformed or as a duplicate, and every response meets its route |
| Correlation.IdsAreNeverReused | src/protocol/session.rs:1007-1018 | in every run IDs are allocated in steps of two from the side's first up to the 64-bit boundary, never wrapped or reissued, and a route names the promise its ID was allocated to |
| Correlation.NextKeeps | src/protocol/session.rs:979-1036 | every step of either side, in either direction, keeps the whole conversation invariant |
| Outbound.StepOwned | src/transport/outbound.rs:315-409 | every step keeps the three locks owned by exactly the threads whose program counters say so |
| Outbound.WaitingDescends | src/transport/sender.rs:97-130 | a thread waits only for one that holds a later lock in the order sealer, writer, binding |
| Isolation.SealingInOrder | src/transport/sender.rs:97-130 | for every interleaving, the frames written for a session carry 0, 1, 2, ... without a gap and in one piece each, and the counter of the bound session is those written plus those in hand |
| Isolation.SealedMessagesFit | src/transport/sealing.rs:23-30 | for every interleaving, a message brought to the writer or with bytes on the wire was sealed within the limit, so its packet always fits a frame: sizes are refused only before sealing |
| Sending.OnlyOversizedRefused | src/transport/sealing.rs:23-30 | in every run, a thread on the refusing path came with a message above the limit |
| Sending.SendCompletes | src/transport/sender.rs:97-130 | from every reachable state with the session bound and the locks free, a send within the limit that runs alone puts the session's next frame on the wire and returns |
| Sending.CallsComplete | src/transport/outbound.rs:106-179 | from every reachable state with the locks free, binding, ending, disconnecting, unbinding and signalling that run alone do what they say, an ending leaving any other session alone |
| Sending.ReceiveCompletes | src/transport/outbound.rs:168-179 | a received message is accepted if and only if its session is bound |
| Sending.RefusalCompletes | src/transport/outbound.rs:187-199 | an oversized message is refused without a trace |
| Sending.FailureAlone | src/transport/outbound.rs:360-409 | a failed write ends its session, with one drop notification on a server unless it timed out |
| Isolation.DropsInPlace | src/transport/outbound.rs:360-409 | a drop notification triggered by a sender is at the very place where its session retired: at most one, after its frames and before any later output |
| Isolation.EndedForGood | src/transport/outbound.rs:106-179 | once an ending, an unbinding, a reset or a replacing bind returns, nothing of the old session is written or accepted any more, whatever the threads do |
| Isolation.NoDeadlock | src/transport/outbound.rs:315-409 | in every reachable state, a thread in a call can move or waits along at most three locks for one that can |
| Shutdown.EveryRun | src/transport/stream.rs:207-300 | for any number of threads and spurious wakeups, the action starts at most once, the active count is the number of live admissions, and no closer waits for what has already happened |
| Shutdown.NoLateAdmission | src/transport/stream.rs:258-269 | once closing has begun no adapter call is admitted |
| Shutdown.ReturnedMeansClosed | src/transport/stream.rs:207-251 | once any close returned, the action has run exactly once and returned, no adapter call is in progress, and this stays so |
| Shutdown.NobodyStranded | src/transport/stream.rs:207-300 | a waiting closer always has a leader that can go on, or an adapter call still in progress |
| Shutdown.AdmittedWhenOpen | src/transport/stream.rs:258-269 | an adapter call is admitted if and only if closing has not begun |
| Shutdown.CloseCompletes | src/transport/stream.rs:207-251 | with no adapter call in progress, the first closer that runs alone runs the action, closes and returns |
| TransportServer.EventsInOrder | src/transport/mock/client.rs:820-881 | over every run of the reference machine, connections alternate strictly with reported or local ends, sessions are new, and messages arrive inside theirs, numbered without gap or repeat |
| TransportServer.LossReportedOnce | src/transport/server.rs:379-406 | after a failed send ended a session, whatever reads and sends fail meanwhile, nothing reports the end before the next frame, that frame does, and nothing does again before a new session opens |
| TransportServer.ExpectedDelivered | src/transport/server.rs:379-410 | in every run, while the owner has a session open in which no send failed, the packet it expects next surfaces as exactly that message |
| TransportServer.OthersAreDropped | src/transport/server.rs:322-372 | any frame that the state does not call for ends what there was, is answered with a drop signal, and is reported exactly if it ended a session or came late in a handshake |
| TransportServer.HelloIsAnswered | src/transport/server.rs:496-556 | a hello is answered with a fresh attempt, and a reply that cannot be sent ends it with an error and, unless timed out, a drop signal |
| TransportServer.FailuresSurface | src/transport/server.rs:300-372 | failed and ended reads and handshake deadlines are reported, end a handshake and leave a session alone |
| TransportServer.ConnectStabilises | src/transport/server.rs:300-372 | whatever the line, the junk on it and the state of the server, a reset and a hello leave the server awaiting the acknowledgment of that hello, given that reading does not fail, the deadline does not expire and its reply goes out |
| ServerLoop.Server.Handshake | src/transport/server.rs:496-591 | the nested loops conclude as the reference machine does on the same inputs, with one fresh attempt per answered hello |
| ServerLoop.Server.Recv | src/transport/server.rs:300-420 | the loop refines the reference machine: it returns exactly what the last input it consumed surfaces, nothing before it surfaced anything, and its fields represent the machine's state; the packet a bound session expects next is returned as its message; a pending handshake has no receive context |
| ServerLoop.Server.Disconnect | src/transport/server.rs:476-481 | a local disconnect takes the machine's step, surfaces no event to report later and leaves a scheduled handshake alone |
| ClientLoop.StaleSkipped | src/transport/client.rs:266-280 | leftovers of earlier sessions and attempts in front of it do not change what an attempt gets to see |
| ClientLoop.FirstRelevant | src/transport/client.rs:266-280 | an attempt sees the first hello to its key, read error, end of stream or expired deadline, and skips everything before it |
| ClientLoop.Client.SkipStale | src/transport/client.rs:266-280 | the loop returns the first arrival that is not stale and leaves what follows it |
| ClientLoop.Client.Connect | src/transport/client.rs:236-374 | connecting succeeds if and only if its three outputs go out and the first frame that is not stale is the genuine answer to its own key; otherwise the client has no session and nothing is bound |
| Connecting.HelloArrives | src/transport/client.rs:266-280 | behind any history of complete and broken output, and from any point in it, the server's hello is the last frame the client reads |
| Connecting.ConnectJoins | src/transport/client.rs:236-374 | end to end, over any junk and from any server state: when the three frames go out and the key is new, the client's answer is the hello of the very attempt the server is in, and its acknowledgment establishes that attempt |
| ClientLoop.Client.Recv | src/transport/client.rs:391-441 | a message is delivered if and only if it is the one the session expects next and the session is still bound; anything else ends the session, and the owner's events stay in order |
| Lifecycle.EarlierSessionsClosed | src/protocol/server.rs:446-499 | for every interleaving, every session attached before the current one is closed, with its first reason for good |
| Lifecycle.AcceptedUnderPolicy | src/protocol/server.rs:131-157 | what accept returns is the newest attached session, never returned before, and if still open it carries and respects the server's policy |
| Lifecycle.NoLostSession | src/protocol/server.rs:131-157 | in every run, while accept sleeps and neither the reader nor a closing thread is about to wake it, the server is open and no session is ready |
| Lifecycle.AttachingHarmless | src/protocol/server.rs:468-490 | attaching applies the current policy and closes no session by it |
| Lifecycle.LimitsReachCurrent | src/protocol/server.rs:347-367 | new limits become the server's and those of the current session, accepted or not, which is closed exactly if it exceeds them |
| Lifecycle.AutoreplyReachesCurrent | src/protocol/server.rs:326-341 | likewise for the timeout of automatic replies |
| Lifecycle.ConnectionAttaches | src/protocol/server.rs:446-499 | a connection handled without interruption closes the previous session as reset, is offered under the server's policy and wakes the accepter |
| Lifecycle.ConnectionRefused | src/protocol/server.rs:446-499 | a connection after the server closed is closed at once |
| Lifecycle.CloseCompletes | src/protocol/server.rs:376-407 | a close that runs alone closes the server and its current session with its reason and wakes the accepter |
| Lifecycle.CloseEndsAll | src/protocol/server.rs:376-407 | once any close returned, every session ever attached is closed and nothing is attached or accepted any more |
| Callbacks.NeverOtherwise | src/protocol/promise.rs:173-212 | a callback runs at most once, and never without registration or when the promise began to drop before settlement |
| Callbacks.RunsExactlyOnce | src/protocol/promise.rs:311-343 | a registered callback of a settled promise has run exactly once if settlement came before the drop, whether it was registered before or after, and was dropped unrun otherwise |
| Callbacks.WaiterCannotCancel | src/protocol/promise.rs:244-260 | once a waiter has taken the result, no interleaving of its drop cancels the callback |
| Callbacks.ResultArrives | src/protocol/promise.rs:193-212 | in every run, once settlement has published, a promise that is held or waited on has the result, and a waiter takes it |

## Left out

- Cryptography, CBOR, COSE and attestation: frames arrive classified as hello, acknowledgment of an attempt, sealed with a session and number, or junk.
- The body of the COBS codec: only its laws are assumed.
- Protobuf, generated schemas and their tables: a message is its ID, body, failed and unknown flags and length.
- `FrameReader::next_packet` and `next_frame_blob`: the decoding step after `NextFrame` appears in `TransportServer.ReadsAs`.
- Clock and condition-variable internals: time is an integer and a wait is a step that a notification or a deadline enables.
- Logging, lock poisoning, panics, worker spawning and process abort.
- `src/protocol/closer.rs`, `src/protocol/requester.rs` and `src/memory/mod.rs`: thin handles and a bounded queue, easier than the rest.
- `Outbound`, `Shutdown`, `Lifecycle` and `Callbacks` are machines over values rather than classes: the source's methods interleave inside their bodies, which a Dafny method cannot; update in place and aliasing within one critical section are therefore not captured there.
- The loops of the session's writer and deadline threads are steps (`Take`, `Transmit`, `RecordWrite`, `Pass`) rather than methods, for the same reason; the loops inside their critical sections are methods of `SessionImpl`.
- SessionImpl.SessionInner.NextOutgoing: does not wait when the queue is empty but returns nothing, because waiting is the caller's next step.
- ServerLoop.Server.Recv: when the script of inputs is used up it returns no outcome, standing for a call that still waits.
- ClientLoop.Client.Recv: likewise returns `StillReading` for a call that still waits.
- ClientLoop.Client.Connect: the results of its three outputs and the authenticity of the answer are given to the call; `Connecting.ConnectJoins` derives the answer from what the server wrote.
- SessionImpl.SessionInner.CompleteResponse: a part of the section of `HandleMessage`, so it starts from the state in the middle of it and not from a reachable one; likewise `Enqueue` and `AdmitRequest`.
- Outbound.StepOwned: a frame's bytes are abstract pieces here, because `FrameWriting` has their contents.
- Log labels and test hooks.
