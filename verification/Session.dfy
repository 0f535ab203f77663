/**
 One protocol session as a state machine.

 Every step is one critical section of the session lock, one lock-free release of
 retained bytes, or one action of a caller that owns a responder or a promise. A
 step that is not enabled changes nothing, so every list of steps is a run and
 threads are interleavings of their steps.
 */
module Session {
  import opened Prelude
  import opened Wire

  datatype Error =
    | Closed
    | Timeout
    | Transport
    | Refused                     // local encoding refusal: wrong direction or too large
    | Malformed
    | RequestLimit(limit: nat)
    | ByteLimit(limit: nat)

  datatype Result = Answered(envelope: Envelope) | Written | Failed(error: Error)

  /** A published result, with the time it was settled at and its deadline. */
  datatype Settlement = Settlement(result: Result, at: int, deadline: int)

  datatype Operation = Operation(deadline: int, response: bool)

  /** A request of our own, or the answer to a peer request. */
  datatype Content = Ask(body: Body) | Answer(id: nat, body: Body)

  datatype Outgoing = Outgoing(key: nat, content: Content)

  /** State under the session lock. */
  datatype Core =
    | Open(
        maxRequests: nat,
        maxBytes: nat,
        autoreplyTimeout: int,
        incoming: seq<Envelope>,
        reserved: set<nat>,
        outgoing: seq<Outgoing>,
        nextId: Option<nat>,
        outstanding: map<nat, nat>,
        operations: map<nat, Operation>)
    | Shut(reason: Error)

  /** What the writer thread holds between its critical sections. */
  datatype Hand =
    | Empty
    | Taken(id: nat, message: Outgoing)      // chosen, nothing on the wire yet
    | Sent(id: nat, message: Outgoing)       // on the wire, result not yet recorded
    | Unsent(id: nat, message: Outgoing)     // refused by the encoder

  datatype Auto = Auto(deadline: int, body: Body)

  /** Obligations and results held outside the lock by callers and workers. */
  datatype Threads = Threads(
    responders: set<nat>,            // IDs of live responders
    unknown: set<nat>,               // admitted unknown requests, reply not begun
    auto: map<nat, Auto>,            // automatic replies between their two locked sections
    hand: Hand,
    decoding: map<nat, nat>,         // lengths of requests taken by recv, charge still held
    unread: map<nat, nat>,           // lengths of responses buffered in live promises
    garbage: seq<nat>,               // lengths of envelopes a close has yet to drop
    gone: set<nat>)                  // promises dropped by their owners

  /** What has happened, kept for stating properties. */
  datatype History = History(
    issued: nat,                     // promises are numbered from zero in order of issue
    asked: map<nat, Body>,           // body of each queued request, by promise
    taken: seq<nat>,                 // promises of the requests taken by the writer, in order
    order: seq<nat>,                 // promises of all messages taken by the writer, in order
    results: map<nat, Settlement>,
    requests: map<nat, Body>,        // accepted peer requests, by ID
    replies: map<nat, Body>,         // queued answers, by ID
    transmitted: set<nat>,           // IDs of the answers put on the wire
    heard: set<nat>,                 // IDs of the responses received
    refused: set<nat>,               // IDs of our requests that never reached the wire
    admitted: multiset<nat>,
    replied: multiset<nat>,          // IDs of the answers taken by the writer
    discarded: multiset<nat>)        // IDs whose answer expired

  datatype State = State(side: Side, core: Core, retained: nat, threads: Threads, hist: History)

  const DEFAULT_MAX_REQUESTS: nat := 1024
  const DEFAULT_MAX_BYTES: nat := 16 * 1024 * 1024
  const DEFAULT_AUTOREPLY: int := 5

  function Init(side: Side): State {
    State(side,
          Open(DEFAULT_MAX_REQUESTS, DEFAULT_MAX_BYTES, DEFAULT_AUTOREPLY, [], {}, [],
               Some(First(Own(side))), map[], map[]),
          0,
          Threads({}, {}, map[], Empty, map[], map[], [], {}),
          History(0, map[], [], [], map[], map[], map[], {}, {}, {}, multiset{}, multiset{}, multiset{}))
  }

  datatype Step =
    | Request(body: Body, deadline: int, now: int)
    | Reply(id: nat, body: Body, deadline: int, now: int)
    | BeginAuto(id: nat, now: int, representable: bool)
    | FinishAuto(id: nat, now: int)
    | Deliver(envelope: Envelope, now: int)
    | Take(now: int)
    | Transmit(length: nat)
    | Unroute
    | RecordWrite(now: int)
    | WriteFailed(now: int)
    | Expire(now: int)
    | Close(reason: Error, now: int)
    | SetLimits(requests: nat, bytes: nat, now: int)
    | SetAutoreply(timeout: int)
    | Recv
    | Decode(id: nat)
    | ReadResult(key: nat)
    | DropPromise(key: nat)
    | DropGarbage

  // ---------------------------------------------------------------------------
  // Settlement

  /** Expiry takes precedence over another failure. */
  function Failure(error: Error, now: int, deadline: int): Settlement {
    Settlement(Failed(if now >= deadline then Timeout else error), now, deadline)
  }

  /** Removes a pending operation and publishes its result. */
  function Settle(s: State, key: nat, r: Settlement): State
    requires s.core.Open?
  {
    s.(core := s.core.(operations := s.core.operations - {key}),
       hist := s.hist.(results := s.hist.results[key := r]))
  }

  // ---------------------------------------------------------------------------
  // Expiry and closure

  predicate Expired(now: int, op: Operation) {
    now >= op.deadline
  }

  function Kept(operations: map<nat, Operation>, now: int): map<nat, Operation> {
    map k | k in operations && !Expired(now, operations[k]) :: operations[k]
  }

  function Lapsed(operations: map<nat, Operation>, now: int): map<nat, Settlement> {
    map k | k in operations && Expired(now, operations[k]) ::
      Settlement(Failed(Timeout), now, operations[k].deadline)
  }

  /** Messages whose operation is still pending. */
  function Retained(outgoing: seq<Outgoing>, pending: set<nat>): seq<Outgoing> {
    if outgoing == [] then []
    else if outgoing[0].key in pending then [outgoing[0]] + Retained(outgoing[1..], pending)
    else Retained(outgoing[1..], pending)
  }

  /** Request IDs answered by the messages whose operation is gone. */
  function Abandoned(outgoing: seq<Outgoing>, pending: set<nat>): seq<nat> {
    if outgoing == [] then []
    else
      (if outgoing[0].key !in pending && outgoing[0].content.Answer? then [outgoing[0].content.id] else [])
      + Abandoned(outgoing[1..], pending)
  }

  function SetOf(s: seq<nat>): set<nat> {
    set x | x in s
  }

  /** Fails expired operations and drops their queued messages; routes stay. */
  function ExpireState(s: State, now: int): State {
    if s.core.Shut? then s
    else
      var kept := Kept(s.core.operations, now);
      var lost := Abandoned(s.core.outgoing, kept.Keys);
      s.(core := s.core.(operations := kept,
                         outgoing := Retained(s.core.outgoing, kept.Keys),
                         reserved := s.core.reserved - SetOf(lost)),
         hist := s.hist.(results := s.hist.results + Lapsed(s.core.operations, now),
                         discarded := s.hist.discarded + multiset(lost)))
  }

  function Failures(operations: map<nat, Operation>, reason: Error, now: int): map<nat, Settlement> {
    map k | k in operations :: Failure(reason, now, operations[k].deadline)
  }

  function Lengths(incoming: seq<Envelope>): seq<nat> {
    seq(|incoming|, i requires 0 <= i < |incoming| => incoming[i].length)
  }

  /** The first close wins; it settles everything and leaves the queues to be dropped. */
  function CloseState(s: State, reason: Error, now: int): State {
    if s.core.Shut? then s
    else
      s.(core := Shut(reason),
         threads := s.threads.(garbage := s.threads.garbage + Lengths(s.core.incoming)),
         hist := s.hist.(results := s.hist.results + Failures(s.core.operations, reason, now)))
  }

  // ---------------------------------------------------------------------------
  // Outgoing messages

  /** Admits an operation, or fails it at once when its deadline has passed. */
  function Enqueue(s: State, content: Content, deadline: int, now: int): State
    requires s.core.Open?
  {
    var key := s.hist.issued;
    if now >= deadline then
      var freed := if content.Answer? then {content.id} else {};
      s.(core := s.core.(reserved := s.core.reserved - freed),
         hist := s.hist.(issued := key + 1,
                         results := s.hist.results[key := Settlement(Failed(Timeout), now, deadline)],
                         discarded := s.hist.discarded + multiset(freed)))
    else
      s.(core := s.core.(outgoing := s.core.outgoing + [Outgoing(key, content)],
                         operations := s.core.operations[key := Operation(deadline, content.Ask?)]),
         hist := s.hist.(issued := key + 1,
                         asked := if content.Ask? then s.hist.asked[key := content.body] else s.hist.asked,
                         replies := if content.Answer? then s.hist.replies[content.id := content.body]
                                    else s.hist.replies))
  }

  /** First locked section of an automatic reply: fixes its deadline. */
  function BeginAutoState(s: State, id: nat, now: int, representable: bool): State {
    if id !in s.threads.responders + s.threads.unknown || id in s.threads.decoding then s
    else
      var body := if id in s.threads.unknown then UNKNOWN else UNANSWERED;
      var t := s.threads.(responders := s.threads.responders - {id}, unknown := s.threads.unknown - {id});
      if s.core.Shut? then s.(threads := t)
      else
        var deadline := if representable then now + s.core.autoreplyTimeout else now;
        s.(threads := t.(auto := t.auto[id := Auto(deadline, body)]))
  }

  /** Second locked section: queues the reply, whose promise nobody keeps. */
  function FinishAutoState(s: State, id: nat, now: int): State {
    if id !in s.threads.auto then s
    else
      var a := s.threads.auto[id];
      var t := s.threads.(auto := s.threads.auto - {id});
      if s.core.Shut? then s.(threads := t)
      else
        Enqueue(s.(threads := t.(gone := t.gone + {s.hist.issued})), Answer(id, a.body), a.deadline, now)
  }

  /** Expires, then takes the next message, allocating or releasing its ID. */
  function TakeState(s: State, now: int): State {
    var e := ExpireState(s, now);
    if e.core.Shut? || e.core.outgoing == [] || e.threads.hand != Empty then e
    else
      var m, rest := e.core.outgoing[0], e.core.outgoing[1..];
      match m.content
      case Ask(_) =>
        if e.core.nextId.None? then e
        else
          var id := e.core.nextId.value;
          e.(core := e.core.(outgoing := rest, nextId := NextId(id),
                             outstanding := e.core.outstanding[id := m.key]),
             threads := e.threads.(hand := Taken(id, m)),
             hist := e.hist.(taken := e.hist.taken + [m.key], order := e.hist.order + [m.key]))
      case Answer(id, _) =>
        e.(core := e.core.(outgoing := rest, reserved := e.core.reserved - {id}),
           threads := e.threads.(hand := Taken(id, m)),
           hist := e.hist.(replied := e.hist.replied + multiset{id}, order := e.hist.order + [m.key]))
  }

  /** The envelope the writer is about to put on the wire. */
  function HandEnvelope(h: Hand, length: nat): Envelope
    requires !h.Empty?
  {
    Envelope(h.id, h.message.content.body, length)
  }

  function TransmitState(s: State): State {
    if !s.threads.hand.Taken? then s
    else
      var h := s.threads.hand;
      s.(threads := s.threads.(hand := Sent(h.id, h.message)),
         hist := s.hist.(transmitted := s.hist.transmitted + if h.message.content.Answer? then {h.id} else {}))
  }

  /** An encoding refusal withdraws the route of a request that was never sent. */
  function UnrouteState(s: State): State {
    if !s.threads.hand.Taken? then s
    else
      var h := s.threads.hand;
      var ask := h.message.content.Ask?;
      s.(core := if s.core.Open? && ask then s.core.(outstanding := s.core.outstanding - {h.id}) else s.core,
         threads := s.threads.(hand := Unsent(h.id, h.message)),
         hist := s.hist.(refused := s.hist.refused + if ask then {h.id} else {}))
  }

  /** Reports a write: failures and late writes fail it, a reply is then complete. */
  function RecordWriteState(s: State, now: int): State {
    if !s.threads.hand.Sent? && !s.threads.hand.Unsent? then s
    else
      var h, t := s.threads.hand, s.(threads := s.threads.(hand := Empty));
      if s.core.Shut? || h.message.key !in s.core.operations then t
      else
        var op := s.core.operations[h.message.key];
        if now >= op.deadline || h.Unsent? then
          Settle(t, h.message.key, Failure(if h.Unsent? then Refused else Timeout, now, op.deadline))
        else if !op.response then
          Settle(t, h.message.key, Settlement(Written, now, op.deadline))
        else t
  }

  /** A wire failure closes the session and ends the writer. */
  function WriteFailedState(s: State, now: int): State {
    if s.threads.hand.Taken? || s.threads.hand.Sent? then
      CloseState(s, Transport, now).(threads := CloseState(s, Transport, now).threads.(hand := Empty))
    else s
  }

  // ---------------------------------------------------------------------------
  // Incoming messages

  /** Whether reserving the bytes would stay within the limit. */
  predicate Fits(s: State, length: nat)
    requires s.core.Open?
  {
    s.retained + length <= s.core.maxBytes
  }

  /** Why an incoming envelope fails its reader, if it does. */
  function Verdict(s: State, e: Envelope, now: int): Option<Error> {
    if KindOf(e.id, Own(s.side)) == IncomingRequest then
      if e.body.failed then Some(Malformed)
      else if s.core.Shut? then Some(s.core.reason)
      else if e.id in s.core.reserved then Some(Malformed)
      else if |s.core.reserved| >= s.core.maxRequests then Some(RequestLimit(s.core.maxRequests))
      else if !e.body.unknown && !Fits(s, e.length) then Some(ByteLimit(s.core.maxBytes))
      else None
    else if s.core.Shut? then Some(s.core.reason)
    else if e.id in s.core.outstanding && s.core.outstanding[e.id] in s.core.operations then
      var key := s.core.outstanding[e.id];
      if now < s.core.operations[key].deadline && !Fits(s, e.length) && key !in s.threads.gone
      then Some(ByteLimit(s.core.maxBytes)) else None
    else None
  }

  /** Reserves a slot and buffers known content. */
  function Admit(s: State, e: Envelope): State
    requires s.core.Open?
  {
    var h := s.hist.(admitted := s.hist.admitted + multiset{e.id}, requests := s.hist.requests[e.id := e.body]);
    if e.body.unknown then
      s.(core := s.core.(reserved := s.core.reserved + {e.id}),
         threads := s.threads.(unknown := s.threads.unknown + {e.id}), hist := h)
    else
      s.(core := s.core.(reserved := s.core.reserved + {e.id}, incoming := s.core.incoming + [e]),
         retained := s.retained + e.length, hist := h)
  }

  /** An on-time answer is charged and published; only then does it take space. */
  function CompleteResponse(s: State, key: nat, e: Envelope, now: int): State
    requires s.core.Open? && key in s.core.operations
  {
    var deadline := s.core.operations[key].deadline;
    if now >= deadline then Settle(s, key, Failure(Timeout, now, deadline))
    else if !Fits(s, e.length) then
      Settle(s, key, Settlement(Failed(ByteLimit(s.core.maxBytes)), now, deadline))
    else
      var t := Settle(s, key, Settlement(Answered(e), now, deadline));
      if key in s.threads.gone then t
      else t.(retained := s.retained + e.length,
              threads := s.threads.(unread := s.threads.unread[key := e.length]))
  }

  function DeliverState(s: State, e: Envelope, now: int): State {
    if s.core.Shut? then s
    else if KindOf(e.id, Own(s.side)) == IncomingRequest then
      if Verdict(s, e, now).Some? then s else Admit(s, e)
    else
      var h := s.(hist := s.hist.(heard := s.hist.heard + {e.id}));
      if e.id !in s.core.outstanding then h
      else
        var key := s.core.outstanding[e.id];
        var t := h.(core := s.core.(outstanding := s.core.outstanding - {e.id}));
        if key in s.core.operations then CompleteResponse(t, key, e, now) else t
  }

  // ---------------------------------------------------------------------------
  // Callers

  function SetLimitsState(s: State, requests: nat, bytes: nat, now: int): State {
    if s.core.Shut? then s
    else
      var t := s.(core := s.core.(maxRequests := requests, maxBytes := bytes));
      if |s.core.reserved| > requests then CloseState(t, RequestLimit(requests), now)
      else if s.retained > bytes then CloseState(t, ByteLimit(bytes), now)
      else t
  }

  function RecvState(s: State): State {
    if s.core.Shut? || s.core.incoming == [] then s
    else
      var e := s.core.incoming[0];
      s.(core := s.core.(incoming := s.core.incoming[1..]),
         threads := s.threads.(responders := s.threads.responders + {e.id},
                               decoding := s.threads.decoding[e.id := e.length]))
  }

  function Minus(a: nat, b: nat): nat {
    if b <= a then a - b else 0
  }

  /** A waiter or a dropping owner gives back the bytes of a buffered response. */
  function Release(s: State, key: nat): State {
    if key !in s.threads.unread then s
    else s.(retained := Minus(s.retained, s.threads.unread[key]),
            threads := s.threads.(unread := s.threads.unread - {key}))
  }

  function Do(s: State, step: Step): State {
    match step
    case Request(body, deadline, now) =>
      if s.core.Shut? || body.failed then s else Enqueue(s, Ask(body), deadline, now)
    case Reply(id, body, deadline, now) =>
      if s.core.Shut? || id !in s.threads.responders || id in s.threads.decoding then s
      else Enqueue(s.(threads := s.threads.(responders := s.threads.responders - {id})),
                   Answer(id, body), deadline, now)
    case BeginAuto(id, now, representable) => BeginAutoState(s, id, now, representable)
    case FinishAuto(id, now) => FinishAutoState(s, id, now)
    case Deliver(e, now) => DeliverState(s, e, now)
    case Take(now) => TakeState(s, now)
    case Transmit(_) => TransmitState(s)
    case Unroute => UnrouteState(s)
    case RecordWrite(now) => RecordWriteState(s, now)
    case WriteFailed(now) => WriteFailedState(s, now)
    case Expire(now) => ExpireState(s, now)
    case Close(reason, now) => if reason == Timeout then s else CloseState(s, reason, now)
    case SetLimits(requests, bytes, now) => SetLimitsState(s, requests, bytes, now)
    case SetAutoreply(timeout) =>
      if s.core.Shut? then s else s.(core := s.core.(autoreplyTimeout := timeout))
    case Recv => RecvState(s)
    case Decode(id) =>
      if id !in s.threads.decoding then s
      else s.(retained := Minus(s.retained, s.threads.decoding[id]),
              threads := s.threads.(decoding := s.threads.decoding - {id}))
    case ReadResult(key) => Release(s, key)
    case DropPromise(key) =>
      if key >= s.hist.issued then s
      else var t := Release(s, key); t.(threads := t.threads.(gone := t.threads.gone + {key}))
    case DropGarbage =>
      if s.threads.garbage == [] then s
      else s.(retained := Minus(s.retained, s.threads.garbage[0]),
              threads := s.threads.(garbage := s.threads.garbage[1..]))
  }

  /**
   Sections after which the source wakes everyone who sleeps on the session: a
   message was queued, an incoming one was handled without an error, or the session
   was closed, also repeatedly. No other section does.
   */
  predicate Wakes(s: State, step: Step) {
    match step
    case Request(body, deadline, now) => s.core.Open? && !body.failed && now < deadline
    case Reply(id, _, deadline, now) =>
      s.core.Open? && id in s.threads.responders && id !in s.threads.decoding && now < deadline
    case FinishAuto(id, now) => s.core.Open? && id in s.threads.auto && now < s.threads.auto[id].deadline
    case Deliver(e, now) => Verdict(s, e, now).None?
    case WriteFailed(_) => s.threads.hand.Taken? || s.threads.hand.Sent?
    case Close(reason, _) => reason != Timeout
    case SetLimits(requests, bytes, _) => s.core.Open? && (|s.core.reserved| > requests || s.retained > bytes)
    case _ => false
  }

  function Run(s: State, steps: seq<Step>): State
    decreases |steps|
  {
    if steps == [] then s else Do(Run(s, steps[..|steps| - 1]), steps[|steps| - 1])
  }
}
