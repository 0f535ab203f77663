/**
 What the calls on the outgoing transport achieve: only oversized messages are refused,
 and a call that runs alone does its work.
 */
module Sending {
  import opened Prelude
  import opened Outbound
  import opened Isolation

  // ---------------------------------------------------------------------------
  // Refusals

  /** A message is refused for its size only when it exceeds the limit. */
  predicate RightlyRefused(s: Shared, pc: PC) {
    pc.WantRefuse? || pc.Refusing? || pc.Refused? ==> pc.size > s.limit
  }

  lemma NextRefuses(s: Shared, t: Thread, pc: PC, c: Choice)
    requires RightlyRefused(s, pc)
    ensures RightlyRefused(Next(s, t, pc, c).0, Next(s, t, pc, c).1) && Next(s, t, pc, c).0.limit == s.limit
  {
  }

  /** In every run, a thread on the refusing path came with a message above the limit. */
  lemma {:induction false} OnlyOversizedRefused(server: bool, limit: nat, steps: seq<Step>)
    ensures var s := Run(Init(server, limit), steps);
            s.shared.limit == limit && forall t :: RightlyRefused(s.shared, Pc(s, t))
  {
    if steps != [] {
      var past, step := steps[..|steps| - 1], steps[|steps| - 1];
      var s := Run(Init(server, limit), past);
      OnlyOversizedRefused(server, limit, past);
      if step.Go? {
        NextRefuses(s.shared, step.thread, Pc(s, step.thread), step.choice);
      }
      forall t ensures RightlyRefused(Do(s, step).shared, Pc(Do(s, step), t)) {
        assert RightlyRefused(s.shared, Pc(s, t));
      }
    }
  }

  // ---------------------------------------------------------------------------
  // A call that runs alone

  /** Thread `t` goes on `k` times, the stream answering `c`. */
  function Goes(s: State, t: Thread, c: Choice, k: nat): State {
    if k == 0 then s else Do(Goes(s, t, c, k - 1), Go(t, c))
  }

  /** The same, seen from the thread and what it shares. */
  function Alone(s: Shared, t: Thread, pc: PC, c: Choice, k: nat): (Shared, PC) {
    if k == 0 then (s, pc)
    else var (r, to) := Alone(s, t, pc, c, k - 1); Next(r, t, to, c)
  }

  lemma GoOnce(s: State, t: Thread, c: Choice)
    ensures var r, (shared, pc) := Do(s, Go(t, c)), Next(s.shared, t, Pc(s, t), c);
            r.shared == shared && Pc(r, t) == pc && forall u :: u != t ==> Pc(r, u) == Pc(s, u)
  {
  }

  lemma {:induction false} GoesAlone(s: State, t: Thread, c: Choice, k: nat)
    ensures var r, (shared, pc) := Goes(s, t, c, k), Alone(s.shared, t, Pc(s, t), c, k);
            r.shared == shared && Pc(r, t) == pc && forall u :: u != t ==> Pc(r, u) == Pc(s, u)
  {
    if k > 0 {
      GoesAlone(s, t, c, k - 1);
      GoOnce(Goes(s, t, c, k - 1), t, c);
    }
  }

  /** No lock is held that a send in session `n` needs. */
  predicate Free(s: Shared, n: nat) {
    s.writer.None? && s.lock.None? && n !in s.sealers
  }

  /** The sequence number that a bound session seals next is the number of frames on the wire. */
  lemma NextNumber(s: State, n: nat)
    requires Inv(s) && s.shared.binding == Some(n) && Free(s.shared, n)
    ensures n < |s.shared.sealed| && |s.shared.sealed[n]| == |SentBy(s.shared.wire, n)|
  {
  }

  lemma SendAlone(s: Shared, t: Thread, n: nat, size: nat)
    requires s.binding == Some(n) && Known(s, n) && Free(s, n) && size <= s.limit
    ensures var k := |s.sealed[n]|; var (r, pc) := Alone(s, t, WantSealer(n, size), Complete, 8);
            && pc == Idle && r.wire == s.wire + [Sent(n, k)]
            && r.sealed == s.sealed[n := s.sealed[n] + [size]]
            && r.binding == s.binding && r.accepted == s.accepted && r.retiredAt == s.retiredAt
            && r.writer.None? && r.lock.None? && r.sealers == s.sealers
  {
    var k, c, p0 := |s.sealed[n]|, Complete, WantSealer(n, size);
    var s1 := s.(sealers := s.sealers[n := t]);
    var s2 := s1.(sealed := s.sealed[n := s.sealed[n] + [size]]);
    var s3 := s2.(writer := Some(t));
    var s4 := s3.(sealers := s1.sealers - {n});
    assert s4.sealers == s.sealers;
    var s5 := s4.(lock := Some(t));
    var s7 := s4.(wire := s.wire + [Sent(n, k)]);
    assert Alone(s, t, p0, c, 0) == (s, p0);
    assert Alone(s, t, p0, c, 1) == (s1, HasSealer(n, size));
    assert Alone(s, t, p0, c, 2) == (s2, WantWriter(Send(n, k)));
    assert Alone(s, t, p0, c, 3) == (s3, Handover(n, k));
    assert Alone(s, t, p0, c, 4) == (s4, WantBinding(Send(n, k)));
    assert Alone(s, t, p0, c, 5) == (s5, InBinding(Send(n, k)));
    assert Alone(s, t, p0, c, 6) == (s4, Output(Send(n, k)));
    assert Alone(s, t, p0, c, 7) == (s7, Leaving(Send(n, k)));
    assert Alone(s, t, p0, c, 8) == (s7.(writer := None), Idle);
  }

  /**
   A message within the limit is sent: from every reachable state in which its session
   is bound and the locks are free, a send that runs alone on a working stream puts the
   session's next frame on the wire and returns, and leaves everything else as it was.
   */
  lemma SendCompletes(server: bool, limit: nat, steps: seq<Step>, t: Thread, n: nat, size: nat)
    requires var s := Run(Init(server, limit), steps);
             Pc(s, t).Idle? && s.shared.binding == Some(n) && Free(s.shared, n) && size <= s.shared.limit
    ensures var s := Run(Init(server, limit), steps);
            var r := Goes(Do(s, Start(t, CallSend(n, size))), t, Complete, 8);
            && Pc(r, t) == Idle && (forall u :: u != t ==> Pc(r, u) == Pc(s, u))
            && r.shared.wire == s.shared.wire + [Sent(n, |SentBy(s.shared.wire, n)|)]
            && r.shared.binding == Some(n) && Free(r.shared, n) && r.shared.accepted == s.shared.accepted
  {
    var s := Run(Init(server, limit), steps);
    EveryRun(server, limit, steps);
    NextNumber(s, n);
    var b := Do(s, Start(t, CallSend(n, size)));
    GoesAlone(b, t, Complete, 8);
    SendAlone(s.shared, t, n, size);
  }

  /** An oversized message is refused and changes nothing, bound or not. */
  lemma RefusalAlone(s: Shared, t: Thread, n: nat, size: nat)
    requires s.lock.None? && n !in s.sealers && size > s.limit
    ensures Alone(s, t, WantSealer(n, size), Complete, 5) == (s, Idle)
  {
    var c, p0 := Complete, WantSealer(n, size);
    var s1 := s.(sealers := s.sealers[n := t]);
    assert s1.sealers - {n} == s.sealers;
    assert Alone(s, t, p0, c, 0) == (s, p0);
    assert Alone(s, t, p0, c, 1) == (s1, HasSealer(n, size));
    assert Alone(s, t, p0, c, 2) == (s1, WantRefuse(n, size));
    assert Alone(s, t, p0, c, 3) == (s1.(lock := Some(t)), Refusing(n, size));
    assert Alone(s, t, p0, c, 4) == (s1, Refused(n, size));
  }

  /** A message received in the bound session is accepted, and one of any other session is not. */
  lemma ReceiveAlone(s: Shared, t: Thread, n: nat)
    requires s.lock.None?
    ensures Alone(s, t, WantAccept(n), Complete, 2) ==
            (s.(accepted := if s.binding == Some(n) then s.accepted + [n] else s.accepted), Idle)
  {
    assert Alone(s, t, WantAccept(n), Complete, 0) == (s, WantAccept(n));
    assert Alone(s, t, WantAccept(n), Complete, 1) == (s.(lock := Some(t)), Accepting(n));
  }

  /** What the binding is after an operation of the owner, and what goes out with it. */
  function Binding(s: Shared, op: Op): Option<nat> {
    match op
    case Bind => Some(|s.sealed|)
    case End(n) => if s.binding == Some(n) then None else s.binding
    case Disconnect(n) => if s.binding == Some(n) then None else s.binding
    case Packet => s.binding
    case _ => None
  }

  function Written(s: Shared, op: Op): seq<Item> {
    match op
    case Signal => [Handshake]
    case Packet => [Handshake]
    case Disconnect(n) => if s.server && s.binding == Some(n) then [DropFor(n)] else []
    case _ => []
  }

  predicate OfOwner(op: Op) {
    op.Bind? || op.End? || op.Disconnect? || op.Unbind? || op.Signal? || op.Packet?
  }

  /** The decision about the binding, and the output that follows it. */
  lemma DecisionOf(s: Shared, op: Op)
    requires OfOwner(op) && !op.Packet?
    ensures var (d, pc) := Decide(s, op);
            && d.binding == Binding(s, op) && d.wire == s.wire && d.accepted == s.accepted
            && d.writer == s.writer && d.sealers == s.sealers && d.server == s.server
            && d.sealed == (if op.Bind? then s.sealed + [[]] else s.sealed)
            && (s.binding.Some? && d.binding != s.binding ==>
                  s.binding.value in d.retiredAt && d.retiredAt[s.binding.value] == |s.wire|)
            && (if Written(s, op) == [] then pc.Leaving?
                else pc.Output? && forall e :: Emit(e, pc.op, Complete) == (Written(s, op), Leaving(pc.op)))
  {
  }

  /** What an operation of the owner leaves behind. */
  predicate Done(s: Shared, r: Shared, op: Op) {
    && r.writer.None? && r.lock.None? && r.sealers == s.sealers
    && r.binding == Binding(s, op) && r.wire == s.wire + Written(s, op)
    && r.sealed == (if op.Bind? then s.sealed + [[]] else s.sealed) && r.accepted == s.accepted
    && (s.binding.Some? && r.binding != s.binding ==>
          s.binding.value in r.retiredAt && r.retiredAt[s.binding.value] == |s.wire|)
  }

  lemma PacketAlone(s: Shared, t: Thread)
    requires s.writer.None? && s.lock.None?
    ensures var (r, pc) := Alone(s, t, WantWriter(Packet), Complete, 3); pc == Idle && Done(s, r, Packet)
  {
    var p0, c := WantWriter(Packet), Complete;
    assert Alone(s, t, p0, c, 0) == (s, p0);
    assert Alone(s, t, p0, c, 1) == (s.(writer := Some(t)), Output(Packet));
    assert Alone(s, t, p0, c, 2) == (s.(writer := Some(t), wire := s.wire + [Handshake]), Leaving(Packet));
  }

  /** Up to the decision, which is taken under both locks. */
  lemma DecideAlone(s: Shared, t: Thread, op: Op)
    requires s.writer.None? && s.lock.None? && OfOwner(op) && !op.Packet?
    ensures var (d, pc) := Decide(s.(writer := Some(t), lock := Some(t)), op);
            Alone(s, t, WantWriter(op), Complete, 3) == (d.(lock := None), pc)
  {
    var p0, c := WantWriter(op), Complete;
    assert Alone(s, t, p0, c, 0) == (s, p0);
    assert Alone(s, t, p0, c, 1) == (s.(writer := Some(t)), WantBinding(op));
    assert Alone(s, t, p0, c, 2) == (s.(writer := Some(t), lock := Some(t)), InBinding(op));
  }

  /**
   An operation of the owner that runs alone on a working stream binds, ends, unbinds
   or signals as it says, an ending leaving any other session alone; a session that
   lost the binding is retired where the wire then ended.
   */
  lemma OwnerAlone(s: Shared, t: Thread, op: Op) returns (k: nat)
    requires s.writer.None? && s.lock.None? && OfOwner(op)
    ensures k <= 5
    ensures var (r, pc) := Alone(s, t, WantWriter(op), Complete, k); pc == Idle && Done(s, r, op)
  {
    if op.Packet? {
      PacketAlone(s, t);
      return 3;
    }
    var held := s.(writer := Some(t), lock := Some(t));
    DecideAlone(s, t, op);
    DecisionOf(held, op);
    assert Written(held, op) == Written(s, op) && Binding(held, op) == Binding(s, op);
    if Written(s, op) == [] {
      assert s.wire + [] == s.wire;
      return 4;
    }
    var (d, pc) := Decide(held, op);
    assert Alone(s, t, WantWriter(op), Complete, 4) ==
           (d.(lock := None, wire := s.wire + Written(s, op)), Leaving(pc.op));
    k := 5;
  }

  /**
   A send that fails ends its session: what was written stays a part of a frame, and a
   server says so with one drop notification, unless the write timed out.
   */
  lemma FailureAlone(s: Shared, t: Thread, n: nat, k: nat, c: Choice)
    requires s.binding == Some(n) && s.writer == Some(t) && s.lock.None? && (c == Broken || c == Expired)
    ensures var (failed, p1) := Next(s, t, Output(Send(n, k)), c);
            var (r, pc) := Alone(failed, t, p1, Complete, if s.server && c == Broken then 4 else 3);
            && pc == Idle && r.binding.None? && n in r.retiredAt && r.retiredAt[n] == |s.wire| && r.writer.None?
            && r.wire == s.wire + (if s.server && c == Broken then [DropFor(n)] else [])
            && r.sealed == s.sealed && r.accepted == s.accepted
  {
    var (failed, p1) := Next(s, t, Output(Send(n, k)), c);
    var op := FailEnd(n, c == Expired);
    assert failed.wire == s.wire + [] == s.wire;
    assert failed == s && p1 == WantBinding(op);
    var d := Decide(s.(lock := Some(t)), op);
    assert Alone(s, t, p1, Complete, 0) == (s, p1);
    assert Alone(s, t, p1, Complete, 1) == (s.(lock := Some(t)), InBinding(op));
    assert Alone(s, t, p1, Complete, 2) == (d.0.(lock := None), d.1);
    if s.server && c == Broken {
      assert Alone(s, t, p1, Complete, 3) ==
             (d.0.(lock := None, wire := s.wire + [DropFor(n)]), Leaving(NotifyDrop(n)));
    }
  }

  // The same in every reachable state

  /** The operation that a call of the owner stands for. */
  function OpOf(call: Call): Option<Op> {
    match call
    case CallBind => Some(Bind)
    case CallEnd(n) => Some(End(n))
    case CallDisconnect(n) => Some(Disconnect(n))
    case CallUnbind => Some(Unbind)
    case CallSignal => Some(Signal)
    case CallPacket => Some(Packet)
    case _ => None
  }

  /** From every reachable state with the locks free, a call of the owner that runs alone does its work. */
  lemma CallsComplete(server: bool, limit: nat, steps: seq<Step>, t: Thread, call: Call) returns (k: nat)
    requires var s := Run(Init(server, limit), steps);
             Pc(s, t).Idle? && s.shared.writer.None? && s.shared.lock.None? && OpOf(call).Some?
             && (call.CallEnd? || call.CallDisconnect? ==> Known(s.shared, call.session))
    ensures var s := Run(Init(server, limit), steps); var r := Goes(Do(s, Start(t, call)), t, Complete, k);
            && Pc(r, t) == Idle && (forall u :: u != t ==> Pc(r, u) == Pc(s, u))
            && r.shared.binding == Binding(s.shared, OpOf(call).value)
            && r.shared.wire == s.shared.wire + Written(s.shared, OpOf(call).value)
  {
    var s := Run(Init(server, limit), steps);
    k := OwnerAlone(s.shared, t, OpOf(call).value);
    GoesAlone(Do(s, Start(t, call)), t, Complete, k);
  }

  /** And a message is accepted in the bound session alone. */
  lemma ReceiveCompletes(server: bool, limit: nat, steps: seq<Step>, t: Thread, n: nat)
    requires var s := Run(Init(server, limit), steps); Pc(s, t).Idle? && s.shared.lock.None? && Known(s.shared, n)
    ensures var s := Run(Init(server, limit), steps); var r := Goes(Do(s, Start(t, CallReceive(n))), t, Complete, 2);
            && Pc(r, t) == Idle && r.shared.wire == s.shared.wire && r.shared.binding == s.shared.binding
            && r.shared.accepted == s.shared.accepted + if s.shared.binding == Some(n) then [n] else []
  {
    var s := Run(Init(server, limit), steps);
    ReceiveAlone(s.shared, t, n);
    GoesAlone(Do(s, Start(t, CallReceive(n))), t, Complete, 2);
  }

  /** And an oversized message is refused without a trace. */
  lemma RefusalCompletes(server: bool, limit: nat, steps: seq<Step>, t: Thread, n: nat, size: nat)
    requires var s := Run(Init(server, limit), steps);
             && Pc(s, t).Idle? && s.shared.lock.None? && n !in s.shared.sealers
             && Known(s.shared, n) && size > s.shared.limit
    ensures var s := Run(Init(server, limit), steps);
            var r := Goes(Do(s, Start(t, CallSend(n, size))), t, Complete, 5);
            Pc(r, t) == Idle && r.shared == s.shared
  {
    var s := Run(Init(server, limit), steps);
    RefusalAlone(s.shared, t, n, size);
    GoesAlone(Do(s, Start(t, CallSend(n, size))), t, Complete, 5);
  }
}
