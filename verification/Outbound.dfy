/**
 The outgoing half of a byte stream shared by senders and the owner of its
 sessions: the sealer, writer and binding locks, with one program counter per
 thread. A step is what a thread does between two points where others can act.
 An encryption context is a session number and a sequence counter; every
 handshake supplies a new one.
 */
module Outbound {
  import opened Prelude

  type Thread = int

  /** A call that a thread can make. */
  datatype Call =
    | CallSend(session: nat, size: nat)
    | CallReceive(session: nat)
    | CallBind
    | CallEnd(session: nat)
    | CallDisconnect(session: nat)
    | CallUnbind
    | CallSignal                // reset or drop notification: unbinds and writes
    | CallPacket                // handshake packet

  /** Work done while owning the writer. */
  datatype Op =
    | Send(session: nat, seqno: nat)
    | FailEnd(session: nat, timedOut: bool)  // retiring the session of a failed write
    | NotifyDrop(session: nat)               // drop notification that a sender triggered
    | Bind
    | End(session: nat)
    | Disconnect(session: nat)
    | Unbind
    | Signal
    | Packet
    | Notice                                 // after a failed handshake packet

  datatype PC =
    | Idle
    | WantSealer(session: nat, size: nat)
    | HasSealer(session: nat, size: nat)
    | WantRefuse(session: nat, size: nat)  // oversized, owns the sealer
    | Refusing(session: nat, size: nat)    // owns the sealer and the binding
    | Refused(session: nat, size: nat)     // owns the sealer
    | WantWriter(op: Op)            // a send still owns its sealer
    | Handover(session: nat, seqno: nat)  // owns the sealer and the writer
    | WantBinding(op: Op)           // owns the writer
    | InBinding(op: Op)             // owns the writer and the binding
    | Output(op: Op)                // owns the writer
    | Leaving(op: Op)               // owns the writer
    | WantAccept(session: nat)
    | Accepting(session: nat)       // owns the binding

  /** What reaches the stream. `Sent` is the end of a frame, written and flushed. */
  datatype Item =
    | Bytes(session: nat, seqno: nat)
    | Sent(session: nat, seqno: nat)
    | DropFor(session: nat)
    | Handshake

  /**
   What the threads share. `sealed` holds, for every session bound so far, the
   sizes of the messages sealed in it; their number is its sequence counter.
   `retiredAt` is the length of the wire when a session lost its binding.
   */
  datatype Shared = Shared(
    server: bool, limit: nat,
    sealers: map<nat, Thread>, writer: Option<Thread>, lock: Option<Thread>,
    binding: Option<nat>, sealed: seq<seq<nat>>,
    wire: seq<Item>, accepted: seq<nat>, retiredAt: map<nat, nat>)

  datatype State = State(pcs: map<Thread, PC>, shared: Shared)

  /** What the stream does with the next piece of output. */
  datatype Choice = Chunk | Complete | Broken | Expired

  datatype Step = Start(thread: Thread, call: Call) | Go(thread: Thread, choice: Choice)

  function Pc(s: State, t: Thread): PC {
    if t in s.pcs then s.pcs[t] else Idle
  }

  function Init(server: bool, limit: nat): State {
    State(map[], Shared(server, limit, map[], None, None, None, [], [], [], map[]))
  }

  predicate Known(s: Shared, session: nat) { session < |s.sealed| }

  /** First program counter of a call; a handle exists only for a session that was bound. */
  function Begin(s: Shared, call: Call): PC {
    match call
    case CallSend(n, size) => if Known(s, n) then WantSealer(n, size) else Idle
    case CallReceive(n) => if Known(s, n) then WantAccept(n) else Idle
    case CallBind => WantWriter(Bind)
    case CallEnd(n) => if Known(s, n) then WantWriter(End(n)) else Idle
    case CallDisconnect(n) => if Known(s, n) then WantWriter(Disconnect(n)) else Idle
    case CallUnbind => WantWriter(Unbind)
    case CallSignal => WantWriter(Signal)
    case CallPacket => WantWriter(Packet)
  }

  /** The binding changes; a session that had it is retired. */
  function Rebind(s: Shared, to: Option<nat>): Shared {
    s.(binding := to,
       retiredAt := if s.binding.Some? && s.binding != to then s.retiredAt[s.binding.value := |s.wire|]
                    else s.retiredAt)
  }

  /** Effect of an operation on the binding, and where it continues. */
  function Decide(s: Shared, op: Op): (Shared, PC) {
    match op
    case Send(n, _) => (s, if s.binding == Some(n) then Output(op) else Leaving(op))
    case Bind => (Rebind(s, Some(|s.sealed|)).(sealed := s.sealed + [[]]), Leaving(op))
    case End(n) => (if s.binding == Some(n) then Rebind(s, None) else s, Leaving(op))
    case Disconnect(n) =>
      if s.binding != Some(n) then (s, Leaving(op))
      else (Rebind(s, None), if s.server then Output(NotifyDrop(n)) else Leaving(op))
    case FailEnd(n, timedOut) =>
      if s.binding != Some(n) then (s, Leaving(op))
      else (Rebind(s, None), if s.server && !timedOut then Output(NotifyDrop(n)) else Leaving(op))
    case Unbind => (Rebind(s, None), Leaving(op))
    case Signal => (Rebind(s, None), Output(op))
    case NotifyDrop(_) => (s, Leaving(op))
    case Packet => (s, Leaving(op))
    case Notice => (s, Leaving(op))
  }

  /** What a piece of output puts on the wire, and where it continues. */
  function Emit(s: Shared, op: Op, c: Choice): (seq<Item>, PC) {
    match op
    case Send(n, k) =>
      (match c
       case Chunk => ([Bytes(n, k)], Output(op))
       case Complete => ([Sent(n, k)], Leaving(op))
       case Broken => ([], WantBinding(FailEnd(n, false)))
       case Expired => ([], WantBinding(FailEnd(n, true))))
    case NotifyDrop(n) => (if c.Chunk? || c.Complete? then [DropFor(n)] else [], Leaving(op))
    case Packet =>
      (match c
       case Chunk => ([Handshake], Output(op))
       case Complete => ([Handshake], Leaving(op))
       case Broken => ([], if s.server then Output(Notice) else Leaving(op))
       case Expired => ([], Leaving(op)))
    case _ => (if c.Chunk? || c.Complete? then [Handshake] else [], Leaving(op))
  }

  /** A thread at `pc` goes on, or waits when the lock it wants is taken. */
  function Next(s: Shared, t: Thread, pc: PC, c: Choice): (Shared, PC) {
    match pc
    case Idle => (s, pc)
    case WantSealer(n, size) =>
      if n in s.sealers then (s, pc) else (s.(sealers := s.sealers[n := t]), HasSealer(n, size))
    case HasSealer(n, size) =>
      if size > s.limit then (s, WantRefuse(n, size))
      else if !Known(s, n) then (s, pc)
      else (s.(sealed := s.sealed[n := s.sealed[n] + [size]]), WantWriter(Send(n, |s.sealed[n]|)))
    case WantRefuse(n, size) => if s.lock.Some? then (s, pc) else (s.(lock := Some(t)), Refusing(n, size))
    case Refusing(n, size) => (s.(lock := None), Refused(n, size))
    case Refused(n, _) => (s.(sealers := s.sealers - {n}), Idle)
    case WantWriter(op) =>
      if s.writer.Some? then (s, pc)
      else
        (s.(writer := Some(t)),
         if op.Send? then Handover(op.session, op.seqno)
         else if op.Packet? then Output(op) else WantBinding(op))
    case Handover(n, k) => (s.(sealers := s.sealers - {n}), WantBinding(Send(n, k)))
    case WantBinding(op) => if s.lock.Some? then (s, pc) else (s.(lock := Some(t)), InBinding(op))
    case InBinding(op) => (Decide(s, op).0.(lock := None), Decide(s, op).1)
    case Output(op) => (s.(wire := s.wire + Emit(s, op, c).0), Emit(s, op, c).1)
    case Leaving(_) => (s.(writer := None), Idle)
    case WantAccept(n) => if s.lock.Some? then (s, pc) else (s.(lock := Some(t)), Accepting(n))
    case Accepting(n) =>
      (s.(lock := None, accepted := if s.binding == Some(n) then s.accepted + [n] else s.accepted), Idle)
  }

  function Do(s: State, step: Step): State {
    var t := step.thread;
    match step
    case Start(_, call) => if Pc(s, t).Idle? then s.(pcs := s.pcs[t := Begin(s.shared, call)]) else s
    case Go(_, c) =>
      var (shared, pc) := Next(s.shared, t, Pc(s, t), c);
      State(s.pcs[t := pc], shared)
  }

  function Run(s: State, steps: seq<Step>): State {
    if steps == [] then s else Do(Run(s, steps[..|steps| - 1]), steps[|steps| - 1])
  }

  // ---------------------------------------------------------------------------
  // Locks

  predicate HoldsWriter(pc: PC) {
    pc.Handover? || pc.WantBinding? || pc.InBinding? || pc.Output? || pc.Leaving?
  }

  predicate HoldsLock(pc: PC) {
    pc.Refusing? || pc.InBinding? || pc.Accepting?
  }

  /** Session whose sealer a thread owns. */
  function Sealer(pc: PC): Option<nat> {
    match pc
    case HasSealer(n, _) => Some(n)
    case WantRefuse(n, _) => Some(n)
    case Refusing(n, _) => Some(n)
    case Refused(n, _) => Some(n)
    case WantWriter(op) => if op.Send? then Some(op.session) else None
    case Handover(n, _) => Some(n)
    case _ => None
  }

  ghost predicate WriterOwned(s: State) {
    forall t :: HoldsWriter(Pc(s, t)) <==> s.shared.writer == Some(t)
  }

  ghost predicate LockOwned(s: State) {
    forall t :: HoldsLock(Pc(s, t)) <==> s.shared.lock == Some(t)
  }

  ghost predicate SealersOwned(s: State) {
    && (forall t :: Sealer(Pc(s, t)).Some? ==>
                      var n := Sealer(Pc(s, t)).value; n in s.shared.sealers && s.shared.sealers[n] == t)
    && (forall n :: n in s.shared.sealers ==> Sealer(Pc(s, s.shared.sealers[n])) == Some(n))
  }

  /** The lock table says who owns what. */
  ghost predicate Owned(s: State) {
    WriterOwned(s) && LockOwned(s) && SealersOwned(s)
  }

  /** The locks move with the program counter of the thread that moved. */
  predicate LocksFollow(s: Shared, t: Thread, pc: PC, r: Shared, to: PC) {
    && r.writer == (if HoldsWriter(to) == HoldsWriter(pc) then s.writer
                    else if HoldsWriter(to) then Some(t) else None)
    && (HoldsWriter(to) && !HoldsWriter(pc) ==> s.writer.None?)
    && r.lock == (if HoldsLock(to) == HoldsLock(pc) then s.lock else if HoldsLock(to) then Some(t) else None)
    && (HoldsLock(to) && !HoldsLock(pc) ==> s.lock.None?)
    && (if Sealer(pc) == Sealer(to) then r.sealers == s.sealers
        else if Sealer(pc).None? then
          Sealer(to).value !in s.sealers && r.sealers == s.sealers[Sealer(to).value := t]
        else Sealer(to).None? && r.sealers == s.sealers - {Sealer(pc).value})
  }

  lemma DecideKeepsLocks(s: Shared, op: Op)
    ensures var (r, to) := Decide(s, op);
            r.writer == s.writer && r.sealers == s.sealers && (to.Output? || to.Leaving?)
  {
  }

  lemma WriterMovesLocks(s: Shared, t: Thread, pc: PC, c: Choice)
    requires HoldsWriter(pc) || pc.WantWriter?
    ensures LocksFollow(s, t, pc, Next(s, t, pc, c).0, Next(s, t, pc, c).1)
  {
    if pc.InBinding? {
      DecideKeepsLocks(s, pc.op);
    }
  }

  lemma NextMovesLocks(s: Shared, t: Thread, pc: PC, c: Choice)
    ensures LocksFollow(s, t, pc, Next(s, t, pc, c).0, Next(s, t, pc, c).1)
  {
    if HoldsWriter(pc) || pc.WantWriter? {
      WriterMovesLocks(s, t, pc, c);
    }
  }

  lemma WriterKept(s: State, t: Thread, r: Shared, to: PC)
    requires WriterOwned(s) && LocksFollow(s.shared, t, Pc(s, t), r, to)
    ensures WriterOwned(State(s.pcs[t := to], r))
  {
    assert HoldsWriter(Pc(s, t)) <==> s.shared.writer == Some(t);
  }

  lemma LockKept(s: State, t: Thread, r: Shared, to: PC)
    requires LockOwned(s) && LocksFollow(s.shared, t, Pc(s, t), r, to)
    ensures LockOwned(State(s.pcs[t := to], r))
  {
    assert HoldsLock(Pc(s, t)) <==> s.shared.lock == Some(t);
  }

  lemma SealersKept(s: State, t: Thread, r: Shared, to: PC)
    requires SealersOwned(s) && LocksFollow(s.shared, t, Pc(s, t), r, to)
    ensures SealersOwned(State(s.pcs[t := to], r))
  {
    var n := State(s.pcs[t := to], r);
    assert forall u :: Pc(n, u) == if u == t then to else Pc(s, u);
  }

  lemma OwnedKept(s: State, t: Thread, r: Shared, to: PC)
    requires Owned(s) && LocksFollow(s.shared, t, Pc(s, t), r, to)
    ensures Owned(State(s.pcs[t := to], r))
  {
    WriterKept(s, t, r, to);
    LockKept(s, t, r, to);
    SealersKept(s, t, r, to);
  }

  lemma StepOwned(s: State, step: Step)
    requires Owned(s)
    ensures Owned(Do(s, step))
  {
    var t := step.thread;
    match step
    case Start(_, call) =>
      if Pc(s, t).Idle? { OwnedKept(s, t, s.shared, Begin(s.shared, call)); }
    case Go(_, c) =>
      NextMovesLocks(s.shared, t, Pc(s, t), c);
      OwnedKept(s, t, Next(s.shared, t, Pc(s, t), c).0, Next(s.shared, t, Pc(s, t), c).1);
  }

  /** Lock a thread waits for: its present owner. */
  function WaitsFor(s: State, t: Thread): Option<Thread> {
    match Pc(s, t)
    case WantSealer(n, _) => if n in s.shared.sealers then Some(s.shared.sealers[n]) else None
    case WantWriter(_) => s.shared.writer
    case WantBinding(_) => s.shared.lock
    case WantRefuse(_, _) => s.shared.lock
    case WantAccept(_) => s.shared.lock
    case _ => None
  }

  /** Locks are taken in the order sealer, writer, binding. */
  function Rank(pc: PC): nat {
    if pc.WantSealer? then 3 else if pc.WantWriter? then 2
    else if pc.WantBinding? || pc.WantRefuse? || pc.WantAccept? then 1 else 0
  }

  /** Waiting leads to a thread that waits for a later lock. */
  lemma WaitingDescends(s: State, t: Thread)
    requires Owned(s) && WaitsFor(s, t).Some?
    ensures var u := WaitsFor(s, t).value; Rank(Pc(s, u)) < Rank(Pc(s, t)) && !Pc(s, u).Idle?
  {
    var u := WaitsFor(s, t).value;
    assert HoldsWriter(Pc(s, u)) <==> s.shared.writer == Some(u);
    assert HoldsLock(Pc(s, u)) <==> s.shared.lock == Some(u);
  }

  /** The thread at the end of the waiting chain that starts at `t`. */
  ghost function Blocker(s: State, t: Thread): (u: Thread)
    requires Owned(s) && !Pc(s, t).Idle?
    ensures WaitsFor(s, u).None? && !Pc(s, u).Idle?
    decreases Rank(Pc(s, t))
  {
    if WaitsFor(s, t).None? then t else WaitingDescends(s, t); Blocker(s, WaitsFor(s, t).value)
  }
}
