/**
 Order and isolation of the sessions on the wire, over every interleaving of the
 threads of Outbound.
 */
module Isolation {
  import opened Prelude
  import opened Outbound
  import Framing
  import FW = FrameWriting

  // ---------------------------------------------------------------------------
  // The wire by itself

  /** Sequence numbers of the frames sent for a session, in wire order. */
  function SentBy(w: seq<Item>, n: nat): seq<nat> {
    if w == [] then []
    else
      var x := w[|w| - 1];
      SentBy(w[..|w| - 1], n) + if x.Sent? && x.session == n then [x.seqno] else []
  }

  lemma SentByMore(w: seq<Item>, x: Item, n: nat)
    ensures SentBy(w + [x], n) == SentBy(w, n) + if x.Sent? && x.session == n then [x.seqno] else []
  {
    assert (w + [x])[..|w|] == w;
  }

  predicate OfFrame(x: Item) { x.Bytes? || x.Sent? }

  predicate Concerns(x: Item, n: nat) { !x.Handshake? && x.session == n }

  /** Every piece of a frame carries the number of frames already sent for its session. */
  ghost predicate Ordered(w: seq<Item>) {
    forall i :: 0 <= i < |w| && OfFrame(w[i]) ==> w[i].seqno == |SentBy(w[..i], w[i].session)|
  }

  lemma OrderedMore(w: seq<Item>, x: Item)
    requires Ordered(w) && (OfFrame(x) ==> x.seqno == |SentBy(w, x.session)|)
    ensures Ordered(w + [x])
  {
    var v := w + [x];
    forall i | 0 <= i < |v| && OfFrame(v[i]) ensures v[i].seqno == |SentBy(v[..i], v[i].session)| {
      assert v[..i] == if i < |w| then w[..i] else w;
    }
  }

  /** So the frames of a session carry 0, 1, 2, ... */
  lemma {:induction false} OrderedCounts(w: seq<Item>, n: nat)
    requires Ordered(w)
    ensures forall i :: 0 <= i < |SentBy(w, n)| ==> SentBy(w, n)[i] == i
  {
    if w != [] {
      var past := w[..|w| - 1];
      assert forall i :: 0 <= i < |past| ==> past[..i] == w[..i];
      OrderedCounts(past, n);
    }
  }

  /** Frames end before their session retires; its drop notification comes right then. */
  ghost predicate Placed(w: seq<Item>, retiredAt: map<nat, nat>) {
    forall i :: 0 <= i < |w| ==>
      && (OfFrame(w[i]) && w[i].session in retiredAt ==> i < retiredAt[w[i].session])
      && (w[i].DropFor? ==> w[i].session in retiredAt && i == retiredAt[w[i].session])
  }

  /** A frame once begun goes on undisturbed, unless its session retires there and then. */
  ghost predicate Unbroken(w: seq<Item>, retiredAt: map<nat, nat>) {
    forall i :: 0 <= i < |w| - 1 && w[i].Bytes? ==>
      || w[i + 1] == w[i]
      || w[i + 1] == Sent(w[i].session, w[i].seqno)
      || (w[i].session in retiredAt && retiredAt[w[i].session] == i + 1)
  }

  // ---------------------------------------------------------------------------
  // Invariant

  /** Program counter of the thread that owns the writer. */
  function Holder(s: State): PC {
    if s.shared.writer.Some? then Pc(s, s.shared.writer.value) else Idle
  }

  /** Session that the writer's owner is about to retire after a failed write. */
  predicate Failing(pc: PC, n: nat) {
    (pc.WantBinding? || pc.InBinding?) && pc.op.FailEnd? && pc.op.session == n
  }

  /** Sealed message that the writer's owner has in hand. */
  function InHand(pc: PC): Option<(nat, nat)> {
    match pc
    case Handover(n, k) => Some((n, k))
    case WantBinding(op) => if op.Send? then Some((op.session, op.seqno)) else None
    case InBinding(op) => if op.Send? then Some((op.session, op.seqno)) else None
    case Output(op) => if op.Send? then Some((op.session, op.seqno)) else None
    case _ => None
  }

  /** Sessions a program counter speaks of have been bound. */
  predicate PcKnown(s: Shared, pc: PC) {
    match pc
    case Idle => true
    case WantWriter(op) => OpKnown(s, op) && !op.FailEnd? && !op.NotifyDrop? && !op.Notice?
    case WantBinding(op) => OpKnown(s, op)
    case InBinding(op) => OpKnown(s, op)
    case Output(op) => OpKnown(s, op)
    case Leaving(op) => OpKnown(s, op)
    case _ => Known(s, pc.session)
  }

  predicate OpKnown(s: Shared, op: Op) {
    match op
    case Bind => true
    case Unbind => true
    case Signal => true
    case Packet => true
    case Notice => true
    case _ => Known(s, op.session)
  }

  /** Which sessions have retired. */
  ghost predicate Retirement(s: Shared) {
    && (s.binding.Some? ==> Known(s, s.binding.value))
    && (forall n :: n in s.retiredAt <==> 0 <= n < |s.sealed| && s.binding != Some(n))
    && (forall n :: n in s.retiredAt ==> s.retiredAt[n] <= |s.wire|)
    && (forall i :: 0 <= i < |s.wire| && !s.wire[i].Handshake? ==> Known(s, s.wire[i].session))
  }

  /** Operations that write, and those that visit the binding first. */
  predicate Writes(op: Op) { op.Send? || op.NotifyDrop? || op.Signal? || op.Packet? || op.Notice? }

  predicate Visits(op: Op) { !op.NotifyDrop? && !op.Packet? && !op.Notice? }

  /** What the writer's owner knows of the binding. */
  predicate Knowing(s: Shared, holder: PC) {
    && (holder.Output? ==> Writes(holder.op))
    && (holder.WantBinding? || holder.InBinding? ==> Visits(holder.op))
    && match holder
    case Output(Send(n, _)) => s.binding == Some(n)
    case Output(NotifyDrop(n)) => n in s.retiredAt && s.retiredAt[n] == |s.wire|
    case Output(Signal) => s.binding.None?
    case WantBinding(FailEnd(n, _)) => s.binding == Some(n)
    case InBinding(FailEnd(n, _)) => s.binding == Some(n)
    case Leaving(Bind) => s.binding.Some? && s.binding.value + 1 == |s.sealed|
    case Leaving(End(n)) => s.binding != Some(n)
    case Leaving(Disconnect(n)) => s.binding != Some(n)
    case Leaving(FailEnd(n, _)) => s.binding != Some(n)
    case Leaving(NotifyDrop(n)) => s.binding != Some(n)
    case Leaving(Unbind) => s.binding.None?
    case Leaving(Signal) => s.binding.None?
    case _ => true
  }

  /** A piece at the end of the wire is being continued, or its session retired. */
  predicate TailHeld(s: Shared, holder: PC) {
    var w := s.wire;
    w != [] && w[|w| - 1].Bytes? ==>
      var x := w[|w| - 1];
      || holder == Output(Send(x.session, x.seqno))
      || Failing(holder, x.session)
      || (x.session in s.retiredAt && s.retiredAt[x.session] == |w|)
  }

  /**
   Every number sealed in the bound session is on the wire, in the hand of the
   writer's owner, or with the owner of the sealer, in that order.
   */
  predicate Flight(s: Shared, holder: PC, sealing: PC) {
    s.binding.Some? && Known(s, s.binding.value) && !Failing(holder, s.binding.value) ==>
      var n := s.binding.value;
      var sent := |SentBy(s.wire, n)|;
      var inHand := InHand(holder).Some? && InHand(holder).value.0 == n;
      var next := sent + if inHand then 1 else 0;
      && (inHand ==> InHand(holder).value.1 == sent)
      && (if sealing.WantWriter? && sealing.op.Send? && sealing.op.session == n
          then sealing.op.seqno == next && |s.sealed[n]| == next + 1
          else |s.sealed[n]| == next)
  }

  /** Program counter of the owner of a session's sealer. */
  function SealerPc(s: State, n: nat): PC {
    if n in s.shared.sealers then Pc(s, s.shared.sealers[n]) else Idle
  }

  function BoundSealer(s: State): PC {
    if s.shared.binding.Some? then SealerPc(s, s.shared.binding.value) else Idle
  }

  ghost predicate WireInv(s: Shared, holder: PC) {
    && Ordered(s.wire) && Placed(s.wire, s.retiredAt) && Unbroken(s.wire, s.retiredAt)
    && Retirement(s) && Knowing(s, holder) && TailHeld(s, holder)
  }

  ghost predicate Inv(s: State) {
    && Owned(s)
    && (forall t :: PcKnown(s.shared, Pc(s, t)))
    && WireInv(s.shared, Holder(s))
    && Flight(s.shared, Holder(s), BoundSealer(s))
  }

  // ---------------------------------------------------------------------------
  // Steps on the shared part

  /** Owner of the writer after a thread went from `pc` to `to`. */
  function NewHolder(holder: PC, pc: PC, to: PC): PC {
    if HoldsWriter(to) then to else if HoldsWriter(pc) then Idle else holder
  }

  /** `pc` is where a thread can be when the writer's owner is at `holder`. */
  predicate Fits(s: Shared, holder: PC, pc: PC) {
    && (HoldsWriter(pc) ==> holder == pc)
    && (s.writer.None? ==> holder == Idle)
    && PcKnown(s, pc)
  }

  /** One item more, whose place the caller justifies. */
  lemma PlacedMore(w: seq<Item>, x: Item, retiredAt: map<nat, nat>)
    requires Placed(w, retiredAt)
    requires OfFrame(x) ==> x.session !in retiredAt
    requires x.DropFor? ==> x.session in retiredAt && retiredAt[x.session] == |w|
    ensures Placed(w + [x], retiredAt)
  {
    var v := w + [x];
    assert forall i :: 0 <= i < |v| ==> v[i] == if i < |w| then w[i] else x;
  }

  lemma UnbrokenMore(w: seq<Item>, x: Item, retiredAt: map<nat, nat>)
    requires Unbroken(w, retiredAt)
    requires w != [] && w[|w| - 1].Bytes? ==>
               var y := w[|w| - 1];
               x == y || x == Sent(y.session, y.seqno) || (y.session in retiredAt && retiredAt[y.session] == |w|)
    ensures Unbroken(w + [x], retiredAt)
  {
    var v := w + [x];
    assert forall i :: 0 <= i < |v| ==> v[i] == if i < |w| then w[i] else x;
  }

  /** The lasting facts about the wire, apart from what its owner is doing. */
  ghost predicate Settled(s: Shared) {
    Ordered(s.wire) && Placed(s.wire, s.retiredAt) && Unbroken(s.wire, s.retiredAt) && Retirement(s)
  }

  lemma AppendSettled(s: Shared, x: Item)
    requires Settled(s) && (!x.Handshake? ==> Known(s, x.session))
    requires OfFrame(x) ==> s.binding == Some(x.session) && x.seqno == |SentBy(s.wire, x.session)|
    requires x.DropFor? ==> x.session in s.retiredAt && s.retiredAt[x.session] == |s.wire|
    requires s.wire != [] && s.wire[|s.wire| - 1].Bytes? ==>
               var y := s.wire[|s.wire| - 1];
               || x == y || x == Sent(y.session, y.seqno)
               || (y.session in s.retiredAt && s.retiredAt[y.session] == |s.wire|)
    ensures Settled(s.(wire := s.wire + [x]))
  {
    OrderedMore(s.wire, x);
    PlacedMore(s.wire, x, s.retiredAt);
    UnbrokenMore(s.wire, x, s.retiredAt);
  }

  lemma SendFlight(s: Shared, n: nat, k: nat, sealing: PC, x: Item, to: PC)
    requires var pc := Output(Send(n, k)); Knowing(s, pc) && Flight(s, pc, sealing) && Known(s, n)
    requires (x == Bytes(n, k) && to == Output(Send(n, k))) || (x == Sent(n, k) && to == Leaving(Send(n, k)))
    ensures k == |SentBy(s.wire, n)| && Flight(s.(wire := s.wire + [x]), to, sealing)
  {
    SentByMore(s.wire, x, n);
  }

  lemma SendOutput(s: Shared, n: nat, k: nat, sealing: PC, x: Item, to: PC)
    requires var pc := Output(Send(n, k)); WireInv(s, pc) && Flight(s, pc, sealing) && Known(s, n)
    requires (x == Bytes(n, k) && to == Output(Send(n, k))) || (x == Sent(n, k) && to == Leaving(Send(n, k)))
    ensures var r := s.(wire := s.wire + [x]); WireInv(r, to) && Flight(r, to, sealing)
  {
    SendFlight(s, n, k, sealing, x, to);
    AppendSettled(s, x);
  }

  lemma OtherOutput(s: Shared, op: Op, sealing: PC, x: Item, to: PC)
    requires WireInv(s, Output(op)) && Flight(s, Output(op), sealing) && OpKnown(s, op) && !op.Send?
    requires x == if op.NotifyDrop? then DropFor(op.session) else Handshake
    requires to == Leaving(op) || (op.Packet? && to == Output(op))
    ensures var r := s.(wire := s.wire + [x]); WireInv(r, to) && Flight(r, to, sealing)
  {
    AppendSettled(s, x);
    if s.binding.Some? {
      SentByMore(s.wire, x, s.binding.value);
    }
  }

  /** Nothing written, only the program counter moves. */
  lemma SilentOutput(s: Shared, op: Op, c: Choice, sealing: PC)
    requires WireInv(s, Output(op)) && Flight(s, Output(op), sealing) && Emit(s, op, c).0 == []
    ensures var to := Emit(s, op, c).1; WireInv(s, to) && Flight(s, to, sealing)
  {
  }

  /** Output by the owner of the writer. */
  lemma OutputKeeps(s: Shared, op: Op, c: Choice, sealing: PC)
    requires WireInv(s, Output(op)) && Flight(s, Output(op), sealing) && OpKnown(s, op)
    ensures var (out, to) := Emit(s, op, c); var r := s.(wire := s.wire + out);
            WireInv(r, to) && Flight(r, to, sealing)
  {
    var (out, to) := Emit(s, op, c);
    if out == [] {
      assert s.wire + out == s.wire;
      SilentOutput(s, op, c, sealing);
    } else if op.Send? {
      SendOutput(s, op.session, op.seqno, sealing, out[0], to);
      assert out == [out[0]];
    } else {
      OtherOutput(s, op, sealing, out[0], to);
      assert out == [out[0]];
    }
  }

  lemma {:induction false} NoneSent(w: seq<Item>, n: nat)
    requires forall i :: 0 <= i < |w| && !w[i].Handshake? ==> w[i].session < n
    ensures SentBy(w, n) == []
  {
    if w != [] {
      NoneSent(w[..|w| - 1], n);
    }
  }

  /** A session retires where the wire ends. */
  lemma RetireSettled(s: Shared)
    requires Settled(s)
    ensures Settled(Rebind(s, None))
  {
  }

  lemma BindSettled(s: Shared)
    requires Settled(s)
    ensures Settled(Rebind(s, Some(|s.sealed|)).(sealed := s.sealed + [[]]))
  {
    RetireSettled(s);
  }

  /** Program counter of the bound session's sealer after a thread went from `pc` to `to`. */
  function NewSealing(binding: Option<nat>, sealing: PC, pc: PC, to: PC): PC {
    if binding.None? then Idle
    else if Sealer(to) == binding then to
    else if Sealer(pc) == binding then Idle
    else sealing
  }

  lemma DecideSettled(s: Shared, op: Op)
    requires Settled(s)
    ensures Settled(Decide(s, op).0)
  {
    RetireSettled(s);
    BindSettled(s);
  }

  lemma DecideKnowing(s: Shared, op: Op)
    requires Knowing(s, InBinding(op)) && TailHeld(s, InBinding(op))
    requires s.binding.Some? ==> Known(s, s.binding.value)
    ensures Knowing(Decide(s, op).0, Decide(s, op).1) && TailHeld(Decide(s, op).0, Decide(s, op).1)
  {
  }

  lemma DecideFlight(s: Shared, op: Op, sealing: PC)
    requires Retirement(s) && Knowing(s, InBinding(op)) && Flight(s, InBinding(op), sealing)
    ensures var (r, to) := Decide(s, op); Flight(r, to, if r.binding == s.binding then sealing else Idle)
  {
    NoneSent(s.wire, |s.sealed|);
  }

  /** A decision about the binding, by the owner of the writer. */
  lemma DecideKeeps(s: Shared, op: Op, sealing: PC)
    requires WireInv(s, InBinding(op)) && Flight(s, InBinding(op), sealing)
    ensures var (r, to) := Decide(s, op);
            WireInv(r, to) && Flight(r, to, if r.binding == s.binding then sealing else Idle)
  {
    DecideSettled(s, op);
    DecideKnowing(s, op);
    DecideFlight(s, op, sealing);
  }

  /** Nothing that the wire's invariant reads has changed. */
  predicate SameWire(s: Shared, r: Shared) {
    r.wire == s.wire && r.retiredAt == s.retiredAt && r.binding == s.binding && |r.sealed| == |s.sealed|
  }

  lemma SameWireSettled(s: Shared, r: Shared)
    requires Settled(s) && SameWire(s, r)
    ensures Settled(r)
  {
  }

  /** A thread that is neither writing nor deciding leaves wire and binding alone. */
  lemma QuietSame(s: Shared, t: Thread, pc: PC, c: Choice)
    requires !pc.Output? && !pc.InBinding?
    ensures SameWire(s, Next(s, t, pc, c).0)
  {
  }

  lemma QuietKnowing(s: Shared, holder: PC, t: Thread, pc: PC, c: Choice)
    requires Knowing(s, holder) && TailHeld(s, holder) && Fits(s, holder, pc)
    requires !pc.Output? && !pc.InBinding?
    ensures var (r, to) := Next(s, t, pc, c);
            Knowing(r, NewHolder(holder, pc, to)) && TailHeld(r, NewHolder(holder, pc, to))
  {
    QuietSame(s, t, pc, c);
  }

  lemma SealFlight(s: Shared, holder: PC, sealing: PC, t: Thread, pc: PC, c: Choice)
    requires Flight(s, holder, sealing) && pc.HasSealer?
    requires Sealer(pc) == s.binding ==> sealing == pc
    ensures var (r, to) := Next(s, t, pc, c); Flight(r, holder, NewSealing(r.binding, sealing, pc, to))
  {
  }

  lemma TakeFlight(s: Shared, holder: PC, sealing: PC, t: Thread, pc: PC, c: Choice)
    requires Flight(s, holder, sealing) && pc.WantWriter? && Fits(s, holder, pc)
    requires Sealer(pc) == s.binding && s.binding.Some? ==> sealing == pc
    ensures var (r, to) := Next(s, t, pc, c);
            Flight(r, NewHolder(holder, pc, to), NewSealing(r.binding, sealing, pc, to))
  {
  }

  /** The other steps leave the message in hand and the message being sealed alone. */
  lemma RestFlight(s: Shared, holder: PC, sealing: PC, t: Thread, pc: PC, c: Choice)
    requires Flight(s, holder, sealing) && !pc.HasSealer? && !pc.WantWriter? && !pc.Output? && !pc.InBinding?
    requires HoldsWriter(pc) ==> holder == pc
    requires s.binding.Some? && Sealer(pc) == s.binding ==> sealing == pc
    requires pc.WantSealer? && s.binding == Some(pc.session) && pc.session !in s.sealers ==> sealing == Idle
    ensures var (r, to) := Next(s, t, pc, c);
            Flight(r, NewHolder(holder, pc, to), NewSealing(r.binding, sealing, pc, to))
  {
    var (r, to) := Next(s, t, pc, c);
    RestSame(s, holder, sealing, t, pc, c);
    SameFlight(s, holder, sealing, r, NewHolder(holder, pc, to), NewSealing(r.binding, sealing, pc, to));
  }

  lemma RestSame(s: Shared, holder: PC, sealing: PC, t: Thread, pc: PC, c: Choice)
    requires !pc.HasSealer? && !pc.WantWriter? && !pc.Output? && !pc.InBinding?
    requires HoldsWriter(pc) ==> holder == pc
    requires s.binding.Some? && Sealer(pc) == s.binding ==> sealing == pc
    requires pc.WantSealer? && s.binding == Some(pc.session) && pc.session !in s.sealers ==> sealing == Idle
    ensures var (r, to) := Next(s, t, pc, c);
            var h, z := NewHolder(holder, pc, to), NewSealing(r.binding, sealing, pc, to);
            && r.wire == s.wire && r.binding == s.binding && r.sealed == s.sealed
            && InHand(h) == InHand(holder)
            && (forall n :: Failing(h, n) == Failing(holder, n))
            && (s.binding.Some? && (z.WantWriter? || sealing.WantWriter?) ==> z == sealing)
  {
  }

  lemma SameFlight(s: Shared, holder: PC, sealing: PC, r: Shared, h: PC, z: PC)
    requires Flight(s, holder, sealing)
    requires r.wire == s.wire && r.binding == s.binding && r.sealed == s.sealed && InHand(h) == InHand(holder)
    requires forall n :: Failing(h, n) == Failing(holder, n)
    requires s.binding.Some? && (z.WantWriter? || sealing.WantWriter?) ==> z == sealing
    ensures Flight(r, h, z)
  {
  }

  /** Program counter of the bound session's sealer after a step. */
  function NextSealing(s: Shared, sealing: PC, t: Thread, pc: PC, c: Choice): PC {
    var (r, to) := Next(s, t, pc, c);
    if r.binding == s.binding then NewSealing(s.binding, sealing, pc, to) else Idle
  }

  /** What a thread at `pc` can rely on about the sealer of the bound session. */
  predicate SealingFits(s: Shared, sealing: PC, pc: PC) {
    && (s.binding.Some? && Sealer(pc) == s.binding ==> sealing == pc)
    && (pc.WantSealer? && s.binding == Some(pc.session) && pc.session !in s.sealers ==> sealing == Idle)
    && (s.binding.None? ==> sealing == Idle)
  }

  lemma QuietFlight(s: Shared, holder: PC, sealing: PC, t: Thread, pc: PC, c: Choice)
    requires Flight(s, holder, sealing) && Fits(s, holder, pc) && SealingFits(s, sealing, pc)
    requires !pc.Output? && !pc.InBinding?
    ensures var (r, to) := Next(s, t, pc, c);
            Flight(r, NewHolder(holder, pc, to), NewSealing(r.binding, sealing, pc, to))
  {
    if pc.HasSealer? {
      SealFlight(s, holder, sealing, t, pc, c);
    } else if pc.WantWriter? {
      TakeFlight(s, holder, sealing, t, pc, c);
    } else {
      RestFlight(s, holder, sealing, t, pc, c);
    }
  }

  /** Shape of an output: the wire grows and the writer stays. */
  lemma OutputShape(s: Shared, sealing: PC, t: Thread, op: Op, c: Choice)
    requires SealingFits(s, sealing, Output(op))
    ensures var (out, to) := Emit(s, op, c); var pc := Output(op);
            && Next(s, t, pc, c) == (s.(wire := s.wire + out), to) && NewHolder(pc, pc, to) == to
            && NextSealing(s, sealing, t, pc, c) == sealing
  {
    EmitStays(s, op, c);
  }

  lemma EmitStays(s: Shared, op: Op, c: Choice)
    ensures var to := Emit(s, op, c).1; to.Output? || to.Leaving? || to.WantBinding?
  {
  }

  lemma NextOutput(s: Shared, sealing: PC, t: Thread, op: Op, c: Choice)
    requires WireInv(s, Output(op)) && Flight(s, Output(op), sealing) && OpKnown(s, op)
    requires SealingFits(s, sealing, Output(op))
    ensures var pc := Output(op); var (r, to) := Next(s, t, pc, c);
            WireInv(r, NewHolder(pc, pc, to)) && Flight(r, NewHolder(pc, pc, to), NextSealing(s, sealing, t, pc, c))
  {
    OutputShape(s, sealing, t, op, c);
    OutputKeeps(s, op, c, sealing);
  }

  lemma DecideStays(s: Shared, op: Op)
    ensures var to := Decide(s, op).1; to.Output? || to.Leaving?
  {
  }

  lemma UnlockKeeps(s: Shared, holder: PC, sealing: PC)
    requires WireInv(s, holder) && Flight(s, holder, sealing)
    ensures WireInv(s.(lock := None), holder) && Flight(s.(lock := None), holder, sealing)
  {
    SameWireSettled(s, s.(lock := None));
  }

  lemma NextQuiet(s: Shared, holder: PC, sealing: PC, t: Thread, pc: PC, c: Choice)
    requires WireInv(s, holder) && Flight(s, holder, sealing)
    requires Fits(s, holder, pc) && SealingFits(s, sealing, pc) && !pc.Output? && !pc.InBinding?
    ensures var (r, to) := Next(s, t, pc, c);
            && WireInv(r, NewHolder(holder, pc, to))
            && Flight(r, NewHolder(holder, pc, to), NextSealing(s, sealing, t, pc, c))
  {
    QuietSame(s, t, pc, c);
    SameWireSettled(s, Next(s, t, pc, c).0);
    QuietKnowing(s, holder, t, pc, c);
    QuietFlight(s, holder, sealing, t, pc, c);
  }

  /** Shape of a decision: the lock goes free and the writer stays. */
  lemma DecisionShape(s: Shared, sealing: PC, t: Thread, op: Op, c: Choice)
    requires SealingFits(s, sealing, InBinding(op))
    ensures var (d, to) := Decide(s, op); var pc := InBinding(op);
            && Next(s, t, pc, c) == (d.(lock := None), to) && NewHolder(pc, pc, to) == to
            && NextSealing(s, sealing, t, pc, c) == if d.binding == s.binding then sealing else Idle
  {
    DecideStays(s, op);
  }

  lemma NextDecision(s: Shared, sealing: PC, t: Thread, op: Op, c: Choice)
    requires WireInv(s, InBinding(op)) && Flight(s, InBinding(op), sealing)
    requires SealingFits(s, sealing, InBinding(op))
    ensures var pc := InBinding(op); var (r, to) := Next(s, t, pc, c);
            WireInv(r, NewHolder(pc, pc, to)) && Flight(r, NewHolder(pc, pc, to), NextSealing(s, sealing, t, pc, c))
  {
    var (d, to) := Decide(s, op);
    DecisionShape(s, sealing, t, op, c);
    DecideKeeps(s, op, sealing);
    UnlockKeeps(d, to, if d.binding == s.binding then sealing else Idle);
  }

  lemma NextKeeps(s: Shared, holder: PC, sealing: PC, t: Thread, pc: PC, c: Choice)
    requires WireInv(s, holder) && Flight(s, holder, sealing)
    requires Fits(s, holder, pc) && SealingFits(s, sealing, pc)
    ensures var (r, to) := Next(s, t, pc, c);
            && WireInv(r, NewHolder(holder, pc, to))
            && Flight(r, NewHolder(holder, pc, to), NextSealing(s, sealing, t, pc, c))
  {
    match pc
    case Output(op) => NextOutput(s, sealing, t, op, c);
    case InBinding(op) => NextDecision(s, sealing, t, op, c);
    case _ => NextQuiet(s, holder, sealing, t, pc, c);
  }

  // ---------------------------------------------------------------------------
  // Every step and every run

  lemma HolderMoves(s: State, t: Thread, c: Choice)
    requires Owned(s)
    ensures var (_, to) := Next(s.shared, t, Pc(s, t), c);
            Holder(Do(s, Go(t, c))) == NewHolder(Holder(s), Pc(s, t), to)
  {
    NextMovesLocks(s.shared, t, Pc(s, t), c);
    StepOwned(s, Go(t, c));
    assert HoldsWriter(Pc(s, t)) <==> s.shared.writer == Some(t);
  }

  lemma SealerMoves(s: State, t: Thread, c: Choice)
    requires Owned(s)
    ensures var (r, to) := Next(s.shared, t, Pc(s, t), c);
            r.binding.Some? ==>
              SealerPc(Do(s, Go(t, c)), r.binding.value) ==
              NewSealing(r.binding, SealerPc(s, r.binding.value), Pc(s, t), to)
  {
    NextMovesLocks(s.shared, t, Pc(s, t), c);
    StepOwned(s, Go(t, c));
  }

  /** Sessions stay known, and a thread moves between counters that name the same one. */
  lemma NextKnown(s: Shared, t: Thread, pc: PC, c: Choice)
    requires PcKnown(s, pc)
    ensures var (r, to) := Next(s, t, pc, c); |r.sealed| >= |s.sealed| && PcKnown(r, to)
  {
  }

  lemma StepKnown(s: State, step: Step)
    requires forall t :: PcKnown(s.shared, Pc(s, t))
    ensures forall t :: PcKnown(Do(s, step).shared, Pc(Do(s, step), t))
  {
    if step.Go? {
      NextKnown(s.shared, step.thread, Pc(s, step.thread), step.choice);
    }
    forall t ensures PcKnown(Do(s, step).shared, Pc(Do(s, step), t)) {
      assert PcKnown(s.shared, Pc(s, t));
    }
  }

  lemma SealersKnown(s: State, n: nat)
    requires Owned(s) && (forall t :: PcKnown(s.shared, Pc(s, t))) && n in s.shared.sealers
    ensures Known(s.shared, n)
  {
    assert PcKnown(s.shared, Pc(s, s.shared.sealers[n]));
  }

  /** A new binding is one that no thread seals for yet. */
  lemma BoundSealerMoves(s: State, t: Thread, c: Choice)
    requires Owned(s) && forall u :: PcKnown(s.shared, Pc(s, u))
    ensures BoundSealer(Do(s, Go(t, c))) == NextSealing(s.shared, BoundSealer(s), t, Pc(s, t), c)
  {
    SealerMoves(s, t, c);
    if |s.shared.sealed| in s.shared.sealers {
      SealersKnown(s, |s.shared.sealed|);
    }
    BindingMoves(s.shared, t, Pc(s, t), c);
  }

  lemma BindingMoves(s: Shared, t: Thread, pc: PC, c: Choice)
    ensures var (r, to) := Next(s, t, pc, c);
            || r.binding == s.binding || r.binding.None?
            || (r.binding == Some(|s.sealed|) && Sealer(pc).None? && Sealer(to).None?)
  {
    if pc.InBinding? {
      DecideStays(s, pc.op);
    } else if !pc.Output? {
      QuietSame(s, t, pc, c);
    }
  }

  /** The wire part of the invariant, for one step of a thread. */
  lemma GoKeeps(s: State, t: Thread, c: Choice)
    requires Inv(s)
    ensures var r := Do(s, Go(t, c));
            WireInv(r.shared, Holder(r)) && Flight(r.shared, Holder(r), BoundSealer(r))
  {
    HolderMoves(s, t, c);
    BoundSealerMoves(s, t, c);
    assert HoldsWriter(Pc(s, t)) <==> s.shared.writer == Some(t);
    assert PcKnown(s.shared, Pc(s, t));
    NextKeeps(s.shared, Holder(s), BoundSealer(s), t, Pc(s, t), c);
  }

  lemma StartKeeps(s: State, t: Thread, call: Call)
    requires Inv(s)
    ensures var r := Do(s, Start(t, call));
            r.shared == s.shared && Holder(r) == Holder(s) && BoundSealer(r) == BoundSealer(s)
  {
    assert HoldsWriter(Pc(s, t)) <==> s.shared.writer == Some(t);
  }

  lemma StepKeeps(s: State, step: Step)
    requires Inv(s)
    ensures Inv(Do(s, step))
  {
    StepOwned(s, step);
    StepKnown(s, step);
    match step
    case Start(t, call) => StartKeeps(s, t, call);
    case Go(t, c) => GoKeeps(s, t, c);
  }

  lemma {:induction false} EveryRun(server: bool, limit: nat, steps: seq<Step>)
    ensures Inv(Run(Init(server, limit), steps))
  {
    if steps != [] {
      EveryRun(server, limit, steps[..|steps| - 1]);
      StepKeeps(Run(Init(server, limit), steps[..|steps| - 1]), steps[|steps| - 1]);
    }
  }

  /**
   Sealing order: for every interleaving, the frames written for a session carry
   0, 1, 2, ... in wire order without a gap, each in one piece; and while the
   session is bound its counter is the number of frames written, plus the one in
   the hand of the writer's owner, plus the one waiting for the writer.
   */
  lemma SealingInOrder(server: bool, limit: nat, steps: seq<Step>, n: nat)
    ensures var s := Run(Init(server, limit), steps);
            && (forall i :: 0 <= i < |SentBy(s.shared.wire, n)| ==> SentBy(s.shared.wire, n)[i] == i)
            && Ordered(s.shared.wire) && Unbroken(s.shared.wire, s.shared.retiredAt)
            && Flight(s.shared, Holder(s), BoundSealer(s))
  {
    EveryRun(server, limit, steps);
    OrderedCounts(Run(Init(server, limit), steps).shared.wire, n);
  }

  /**
   Drop notifications: one that a sender triggered is at the very place where its
   session retired, so it occurs at most once, after all frames of that session
   and before anything written later, such as the output of a handshake.
   */
  lemma DropsInPlace(server: bool, limit: nat, steps: seq<Step>, i: nat, j: nat)
    requires var w := Run(Init(server, limit), steps).shared.wire;
             i < |w| && j < |w| && w[i].DropFor? && Concerns(w[j], w[i].session)
    ensures var s := Run(Init(server, limit), steps).shared;
            && s.wire[i].session in s.retiredAt && i == s.retiredAt[s.wire[i].session]
            && (s.wire[j].DropFor? ==> j == i) && (OfFrame(s.wire[j]) ==> j < i)
  {
    EveryRun(server, limit, steps);
  }

  /** The session has retired and no notification for it is still to be written. */
  ghost predicate Quiet(s: State, n: nat) {
    n in s.shared.retiredAt && Holder(s) != Output(NotifyDrop(n))
  }

  /** `r` has written and accepted nothing of session `n` beyond `s`. */
  ghost predicate NothingOf(s: Shared, r: Shared, n: nat) {
    && |s.wire| <= |r.wire| && s.wire == r.wire[..|s.wire|]
    && (forall i :: |s.wire| <= i < |r.wire| ==> !Concerns(r.wire[i], n))
    && |s.accepted| <= |r.accepted| && s.accepted == r.accepted[..|s.accepted|]
    && (forall i :: |s.accepted| <= i < |r.accepted| ==> r.accepted[i] != n)
  }

  lemma QuietDecide(s: Shared, op: Op, n: nat)
    requires n in s.retiredAt && s.binding != Some(n) && Known(s, n)
    ensures var (r, to) := Decide(s, op);
            && n in r.retiredAt && to != Output(NotifyDrop(n)) && r.wire == s.wire && r.accepted == s.accepted
  {
  }

  lemma QuietNext(s: Shared, holder: PC, t: Thread, pc: PC, c: Choice, n: nat)
    requires Retirement(s) && Knowing(s, holder) && (HoldsWriter(pc) ==> holder == pc)
    requires n in s.retiredAt && holder != Output(NotifyDrop(n))
    ensures var (r, to) := Next(s, t, pc, c);
            n in r.retiredAt && NewHolder(holder, pc, to) != Output(NotifyDrop(n)) && NothingOf(s, r, n)
  {
    match pc
    case InBinding(op) => QuietDecide(s, op, n);
    case Output(op) => QuietEmit(s, op, c, n);
    case _ => QuietWaits(s, t, pc, c, n);
  }

  lemma QuietEmit(s: Shared, op: Op, c: Choice, n: nat)
    requires Retirement(s) && Knowing(s, Output(op)) && n in s.retiredAt && op != NotifyDrop(n)
    ensures var (out, to) := Emit(s, op, c);
            to != Output(NotifyDrop(n)) && (forall x :: x in out ==> !Concerns(x, n))
  {
  }

  lemma QuietWaits(s: Shared, t: Thread, pc: PC, c: Choice, n: nat)
    requires !pc.Output? && !pc.InBinding? && s.binding != Some(n)
    ensures var (r, to) := Next(s, t, pc, c);
            && r.wire == s.wire && r.retiredAt == s.retiredAt && to != Output(NotifyDrop(n))
            && (r.accepted == s.accepted
                || (pc.Accepting? && pc.session != n && r.accepted == s.accepted + [pc.session]))
  {
  }

  lemma QuietStep(s: State, step: Step, n: nat)
    requires Inv(s) && Quiet(s, n)
    ensures Quiet(Do(s, step), n) && NothingOf(s.shared, Do(s, step).shared, n)
  {
    match step
    case Start(t, call) => StartKeeps(s, t, call);
    case Go(t, c) =>
      HolderMoves(s, t, c);
      assert HoldsWriter(Pc(s, t)) <==> s.shared.writer == Some(t);
      QuietNext(s.shared, Holder(s), t, Pc(s, t), c, n);
  }

  lemma {:induction false} QuietRun(s: State, steps: seq<Step>, n: nat)
    requires Inv(s) && Quiet(s, n)
    ensures Inv(Run(s, steps)) && Quiet(Run(s, steps), n) && NothingOf(s.shared, Run(s, steps).shared, n)
  {
    if steps != [] {
      var m := Run(s, steps[..|steps| - 1]);
      QuietRun(s, steps[..|steps| - 1], n);
      QuietStep(m, steps[|steps| - 1], n);
      StepKeeps(m, steps[|steps| - 1]);
      NothingTwice(s.shared, m.shared, Do(m, steps[|steps| - 1]).shared, n);
    }
  }

  lemma NothingTwice(s: Shared, m: Shared, r: Shared, n: nat)
    requires NothingOf(s, m, n) && NothingOf(m, r, n)
    ensures NothingOf(s, r, n)
  {
    assert forall i :: |s.wire| <= i < |m.wire| ==> r.wire[i] == m.wire[i];
    assert forall i :: |s.accepted| <= i < |m.accepted| ==> r.accepted[i] == m.accepted[i];
  }

  /** Session `n` is over once this operation returns. */
  predicate Ends(s: Shared, op: Op, n: nat) {
    match op
    case End(m) => m == n
    case Disconnect(m) => m == n
    case FailEnd(m, _) => m == n
    case NotifyDrop(m) => m == n
    case Unbind => Known(s, n)
    case Signal => Known(s, n)
    case Bind => n + 1 < |s.sealed|
    case _ => false
  }

  /**
   Session isolation: when an ending, an unbinding, a reset or a replacing bind
   returns, nothing of the old session, not even its drop notification, is written
   afterwards and no message received in it is accepted, whatever the threads do.
   */
  lemma EndedForGood(server: bool, limit: nat, before: seq<Step>, t: Thread, c: Choice, after: seq<Step>, n: nat)
    requires var s := Run(Init(server, limit), before);
             Pc(s, t).Leaving? && Ends(s.shared, Pc(s, t).op, n)
    ensures var r := Do(Run(Init(server, limit), before), Go(t, c));
            Pc(r, t).Idle? && NothingOf(r.shared, Run(r, after).shared, n)
  {
    var s := Run(Init(server, limit), before);
    EveryRun(server, limit, before);
    assert HoldsWriter(Pc(s, t)) <==> s.shared.writer == Some(t);
    assert PcKnown(s.shared, Pc(s, t));
    var r := Do(s, Go(t, c));
    StepKeeps(s, Go(t, c));
    assert r.shared == s.shared.(writer := None) && Quiet(r, n);
    QuietRun(r, after, n);
  }

  /** A thread in a call can move: the lock it wants, if any, is free. */
  predicate CanMove(s: State, t: Thread) {
    !Pc(s, t).Idle? && WaitsFor(s, t).None?
  }

  lemma MovesOn(s: State, t: Thread, c: Choice)
    requires CanMove(s, t) && PcKnown(s.shared, Pc(s, t)) && c != Chunk
    ensures Pc(Do(s, Go(t, c)), t) != Pc(s, t)
  {
  }

  /**
   No deadlock: in every reachable state, a thread in a call either can move or
   waits, along at most three locks, for one that can; and that one's next step
   changes its program counter unless the stream only takes part of its output.
   */
  lemma NoDeadlock(server: bool, limit: nat, steps: seq<Step>, t: Thread)
    returns (u: Thread)
    requires !Pc(Run(Init(server, limit), steps), t).Idle?
    ensures var s := Run(Init(server, limit), steps);
            && CanMove(s, u) && WaitsAlong(s, t, u, 3)
            && forall c :: c != Chunk ==> Pc(Do(s, Go(u, c)), u) != Pc(s, u)
  {
    var s := Run(Init(server, limit), steps);
    EveryRun(server, limit, steps);
    u := Blocker(s, t);
    BlockerNear(s, t);
    forall c | c != Chunk ensures Pc(Do(s, Go(u, c)), u) != Pc(s, u) {
      assert PcKnown(s.shared, Pc(s, u));
      MovesOn(s, u, c);
    }
  }

  /** `u` is reached from `t` by following at most `k` waits. */
  predicate WaitsAlong(s: State, t: Thread, u: Thread, k: nat)
    decreases k
  {
    t == u || (k > 0 && WaitsFor(s, t).Some? && WaitsAlong(s, WaitsFor(s, t).value, u, k - 1))
  }

  lemma {:induction false} BlockerNear(s: State, t: Thread)
    requires Owned(s) && !Pc(s, t).Idle?
    ensures WaitsAlong(s, t, Blocker(s, t), Rank(Pc(s, t)))
    ensures WaitsAlong(s, t, Blocker(s, t), 3)
    decreases Rank(Pc(s, t))
  {
    if WaitsFor(s, t).Some? {
      var u := WaitsFor(s, t).value;
      WaitingDescends(s, t);
      BlockerNear(s, u);
      AlongMore(s, u, Blocker(s, t), Rank(Pc(s, u)), Rank(Pc(s, t)) - 1);
      AlongMore(s, t, Blocker(s, t), Rank(Pc(s, t)), 3);
    }
  }

  lemma {:induction false} AlongMore(s: State, t: Thread, u: Thread, k: nat, m: nat)
    requires WaitsAlong(s, t, u, k) && k <= m
    ensures WaitsAlong(s, t, u, m)
    decreases k
  {
    if t != u {
      AlongMore(s, WaitsFor(s, t).value, u, k - 1, m - 1);
    }
  }

  // ---------------------------------------------------------------------------
  // Sizes

  /** Message `k` of session `n` was sealed, within the limit. */
  predicate Genuine(s: Shared, n: nat, k: nat) {
    n < |s.sealed| && k < |s.sealed[n]| && s.sealed[n][k] <= s.limit
  }

  /** What a thread is sending was sealed. */
  predicate PcGenuine(s: Shared, pc: PC) {
    match pc
    case WantWriter(op) => op.Send? ==> Genuine(s, op.session, op.seqno)
    case Handover(n, k) => Genuine(s, n, k)
    case WantBinding(op) => op.Send? ==> Genuine(s, op.session, op.seqno)
    case InBinding(op) => op.Send? ==> Genuine(s, op.session, op.seqno)
    case Output(op) => op.Send? ==> Genuine(s, op.session, op.seqno)
    case _ => true
  }

  ghost predicate WireGenuine(s: Shared) {
    forall i :: 0 <= i < |s.wire| && OfFrame(s.wire[i]) ==> Genuine(s, s.wire[i].session, s.wire[i].seqno)
  }

  /** Sealed messages stay sealed. */
  predicate SealedGrows(s: Shared, r: Shared) {
    && r.limit == s.limit && |s.sealed| <= |r.sealed|
    && forall n :: 0 <= n < |s.sealed| ==> s.sealed[n] <= r.sealed[n]
  }

  lemma GenuineStays(s: Shared, r: Shared, n: nat, k: nat)
    requires Genuine(s, n, k) && SealedGrows(s, r)
    ensures Genuine(r, n, k)
  {
    assert s.sealed[n] <= r.sealed[n];
  }

  lemma NextSeals(s: Shared, t: Thread, pc: PC, c: Choice)
    ensures SealedGrows(s, Next(s, t, pc, c).0)
  {
  }

  /** A thread goes on with what it has, or with what it just sealed. */
  lemma NextPcGenuine(s: Shared, t: Thread, pc: PC, c: Choice)
    requires PcGenuine(s, pc)
    ensures PcGenuine(Next(s, t, pc, c).0, Next(s, t, pc, c).1)
  {
    match pc
    case InBinding(op) => DecidePcGenuine(s, op);
    case Output(op) =>
    case _ =>
  }

  lemma DecidePcGenuine(s: Shared, op: Op)
    requires op.Send? ==> Genuine(s, op.session, op.seqno)
    ensures PcGenuine(Decide(s, op).0.(lock := None), Decide(s, op).1)
  {
  }

  lemma EmitGenuine(s: Shared, op: Op, c: Choice)
    requires op.Send? ==> Genuine(s, op.session, op.seqno)
    ensures forall x :: x in Emit(s, op, c).0 && OfFrame(x) ==> Genuine(s, x.session, x.seqno)
  {
  }

  lemma NextGenuine(s: Shared, t: Thread, pc: PC, c: Choice)
    requires PcGenuine(s, pc) && WireGenuine(s)
    ensures var (r, to) := Next(s, t, pc, c); SealedGrows(s, r) && PcGenuine(r, to) && WireGenuine(r)
  {
    var (r, to) := Next(s, t, pc, c);
    NextSeals(s, t, pc, c);
    NextPcGenuine(s, t, pc, c);
    if pc.Output? {
      EmitGenuine(s, pc.op, c);
    } else if pc.InBinding? {
      WireGenuineStays(s, r);
    } else {
      QuietSame(s, t, pc, c);
      WireGenuineStays(s, r);
    }
  }

  lemma WireGenuineStays(s: Shared, r: Shared)
    requires WireGenuine(s) && SealedGrows(s, r) && r.wire == s.wire
    ensures WireGenuine(r)
  {
    forall i | 0 <= i < |r.wire| && OfFrame(r.wire[i])
      ensures Genuine(r, r.wire[i].session, r.wire[i].seqno)
    {
      GenuineStays(s, r, s.wire[i].session, s.wire[i].seqno);
    }
  }

  lemma {:induction false} OnlySealedIsSent(server: bool, limit: nat, steps: seq<Step>)
    ensures var s := Run(Init(server, limit), steps);
            && s.shared.limit == limit && WireGenuine(s.shared)
            && forall t :: PcGenuine(s.shared, Pc(s, t))
  {
    if steps != [] {
      var past, step := steps[..|steps| - 1], steps[|steps| - 1];
      var s := Run(Init(server, limit), past);
      var r := Do(s, step);
      OnlySealedIsSent(server, limit, past);
      if step.Go? {
        NextGenuine(s.shared, step.thread, Pc(s, step.thread), step.choice);
      }
      forall t ensures PcGenuine(r.shared, Pc(r, t)) {
        if t != step.thread {
          PcGenuineStays(s.shared, r.shared, Pc(s, t));
        }
      }
    }
  }

  lemma PcGenuineStays(s: Shared, r: Shared, pc: PC)
    requires PcGenuine(s, pc) && SealedGrows(s, r)
    ensures PcGenuine(r, pc)
  {
  }

  /**
   Size refusals come only before sealing: under a limit that the message size
   search allows, every message that a thread brings to the writer, or that has
   bytes on the wire, is one whose sealed packet the framer accepts.
   */
  lemma SealedMessagesFit(server: bool, limit: nat, steps: seq<Step>, codec: FW.Codec, t: Thread, i: nat)
    requires codec.Lawful() && FW.Frameable(codec.bound, limit)
    ensures var s := Run(Init(server, limit), steps);
            && (InHand(Pc(s, t)).Some? ==> var (n, k) := InHand(Pc(s, t)).value; Accepts(s.shared, codec, n, k))
            && (i < |s.shared.wire| && OfFrame(s.shared.wire[i]) ==>
                  Accepts(s.shared, codec, s.shared.wire[i].session, s.shared.wire[i].seqno))
  {
    OnlySealedIsSent(server, limit, steps);
    var s := Run(Init(server, limit), steps);
    assert PcGenuine(s.shared, Pc(s, t));
  }

  /** Every sealed packet of the message's size fits a frame, encoded. */
  ghost predicate Accepts(s: Shared, codec: FW.Codec, n: nat, k: nat) {
    && n < |s.sealed| && k < |s.sealed[n]|
    && codec.bound(s.sealed[n][k] + FW.OVERHEAD) <= Framing.MAX_FRAME_SIZE
    && forall packet :: |packet| == s.sealed[n][k] + FW.OVERHEAD ==> |codec.encode(packet)| <= Framing.MAX_FRAME_SIZE
  }
}
