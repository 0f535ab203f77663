/**
 The transport server object and its receive loop, which refines the reference
 machine of TransportServer input by input.
 */
module ServerLoop {
  import opened Prelude
  import opened TransportServer

  /** How a handshake ended. */
  datatype Handshake =
    | Complete(session: nat)
    | Failed(error: Outcome)   // transport error, propagated
    | Rejected(late: bool)     // protocol or authentication failure

  /** How one pass of the receive loop ended. */
  datatype Pass = Return(outcome: Outcome) | Continue | Waiting

  /** How the handshake ends on an input that is neither a reset nor a decoded packet. */
  function Refusal(x: Input): Option<Handshake> {
    match x
    case Garbled(late) => Some(Rejected(late))
    case DeadlineHit => Some(Failed(RecvFailed))
    case ReadFails => Some(Failed(RecvFailed))
    case StreamEnds => Some(Failed(Terminated))
    case _ => None
  }

  /** Machine and outcome in which a handshake ends, when the server itself is in `m`. */
  function Concluded(m: Machine, h: Handshake): (Machine, Outcome) {
    match h
    case Complete(session) => (m.(phase := Established(session, 0), held := true), Opened(session))
    case Failed(error) => (m.(phase := Idle), error)
    case Rejected(late) =>
      (m.(phase := Idle, emits := m.emits + [DropSignal]), if late then RecvFailed else Absorbed)
  }

  lemma RefusalConcludes(m: Machine, x: Input)
    requires Handshaking(m) && !m.held && Refusal(x).Some?
    ensures Advance(m, x) == Concluded(m, Refusal(x).value)
  {
  }

  lemma OwnerDrops(m: Machine)
    requires !m.phase.AwaitAck?
    ensures Advance(m, Disconnects) ==
            (Machine(if m.phase.AwaitHello? then AwaitHello else Idle, false, m.attempts, m.emits + [DropSignal]),
             if m.held then LocalEnd else Absorbed)
  {
  }

  /** The first input shows something, so no longer prefix shows nothing. */
  lemma NoneBeforeLast(before: seq<Input>, script: seq<Input>, k: nat, past: seq<Input>)
    requires 0 < k <= |script| && Advance(Replay(before), script[0]).1 != Absorbed
    requires past == before + script[..k - 1] && Surfaced(past) == Surfaced(before)
    ensures k == 1
  {
    if k > 1 {
      FirstShown(before, script, k - 1);
    }
  }

  lemma NotNothing(before: seq<Input>, script: seq<Input>, after: seq<Input>)
    requires script != [] && Advance(Replay(before), script[0]).1 != Absorbed && after == before + script
    ensures Surfaced(after) != Surfaced(before)
  {
    assert script[..|script|] == script;
    FirstShown(before, script, |script|);
  }

  /** Inputs consumed with nothing shown before the last one stop at the first that shows something. */
  lemma FirstAnswers(before: seq<Input>, script: seq<Input>, after: seq<Input>, rest: seq<Input>)
    requires before + script == after + rest && |rest| < |script|
    requires Advance(Replay(before), script[0]).1 != Absorbed && Surfaced(after[..|after| - 1]) == Surfaced(before)
    ensures after == before + [script[0]] && |rest| == |script| - 1
  {
    Aligned(before, script, after, rest);
    NoneBeforeLast(before, script, |script| - |rest|, after[..|after| - 1]);
  }

  lemma Aligned(before: seq<Input>, script: seq<Input>, after: seq<Input>, rest: seq<Input>)
    requires before + script == after + rest && |rest| <= |script|
    ensures var k := |script| - |rest|;
            && after == before + script[..k] && rest == script[k..]
            && (k > 0 ==> after[..|after| - 1] == before + script[..k - 1])
            && (k == 1 ==> after == before + [script[0]])
  {
    var k, all := |script| - |rest|, before + script;
    assert after == all[..|before| + k] && rest == all[|before| + k..];
    assert all[..|before| + k] == before + script[..k];
  }

  lemma FirstShown(before: seq<Input>, script: seq<Input>, k: nat)
    requires 0 < k <= |script| && Advance(Replay(before), script[0]).1 != Absorbed
    ensures Surfaced(before + script[..k]) != Surfaced(before)
  {
    assert before + script[..k] == before + [script[0]] + script[1..k];
    OneMore(before, script[0]);
    RunSplits(before + [script[0]], script[1..k]);
  }

  /** An input passes from what is to come to what has happened. */
  lemma MoveOne(inputs: seq<Input>, script: seq<Input>)
    requires script != []
    ensures inputs + script == inputs + [script[0]] + script[1..]
  {
  }

  class Server {
    /** Receive context: its session and the next sequence number it accepts. */
    var receiver: Option<(nat, nat)>
    var sealer: Option<nat>
    /** Session the outgoing transport is bound to. */
    var binding: Option<nat>
    /** A reset has scheduled a handshake. */
    var pending: bool
    /** Server hellos generated so far; each has its own keys. */
    var attempts: nat
    var emits: seq<Emit>
    /** What the line and the senders have in store. */
    var script: seq<Input>
    /** All inputs, past and to come. */
    ghost var whole: seq<Input>
    /** Everything that happened so far, and what the reference machine makes of it. */
    ghost var inputs: seq<Input>
    ghost var now: Machine
    ghost var shown: seq<Outcome>

    ghost predicate Valid()
      reads this
    {
      Contexts() && inputs + script == whole && Disconnects !in script && Tied()
    }

    /** The contexts belong together, and a pending handshake has none. */
    ghost predicate Contexts()
      reads this
    {
      && sealer == (if receiver.Some? then Some(receiver.value.0) else None)
      && (binding.Some? ==> binding == sealer)
      && (pending ==> receiver.None?)
    }

    /** The reference machine has been fed the history. */
    ghost predicate Tied()
      reads this`inputs, this`now, this`shown
    {
      now == Replay(inputs) && shown == Surfaced(inputs)
    }

    function Image(phase: Phase): Machine
      reads this
    {
      Machine(phase, receiver.Some?, attempts, emits)
    }

    /** The reference state that the fields represent between two passes. */
    function View(): Machine
      reads this
    {
      Image(if pending then AwaitHello
            else if receiver.Some? && binding == Some(receiver.value.0)
            then Established(receiver.value.0, receiver.value.1)
            else Idle)
    }

    constructor (script: seq<Input>)
      requires Disconnects !in script
      ensures this.script == whole == script && inputs == [] && shown == []
      ensures Valid() && now == View() && receiver.None? && !pending
    {
      receiver, sealer, binding, pending := None, None, None, false;
      attempts, emits, this.script := 0, [], script;
      inputs, now, shown, whole := [], FRESH, [], script;
    }

    /** Nothing beyond `was` had been shown before the last input. */
    ghost predicate LastShows(was: seq<Outcome>)
      reads this`inputs
    {
      inputs != [] && Surfaced(inputs[..|inputs| - 1]) == was
    }

    ghost method Record(x: Input)
      requires Tied()
      modifies this`inputs, this`now, this`shown
      ensures Tied() && inputs == old(inputs) + [x] && LastShows(old(shown))
      ensures now == Advance(old(now), x).0
      ensures shown == old(shown) + Shown(Advance(old(now), x).1)
    {
      OneMore(inputs, x);
      inputs := inputs + [x];
      assert inputs[..|inputs| - 1] == old(inputs);
      now, shown := Replay(inputs), Surfaced(inputs);
    }

    /** Takes the next input off the script and advances the reference machine. */
    method Next() returns (x: Input)
      requires Valid() && script != []
      modifies this`script, this`inputs, this`now, this`shown
      ensures Valid() && x == old(script)[0] && |script| == |old(script)| - 1 && LastShows(old(shown))
      ensures now == Advance(old(now), x).0
      ensures shown == old(shown) + Shown(Advance(old(now), x).1)
    {
      x := script[0];
      MoveOne(inputs, script);
      script := script[1..];
      Record(x);
    }

    /**
     Waits for a packet of the handshake, which the deadline may interrupt. There
     is no session for a sender to lose. No input means that it still waits.
     */
    method NextHandshakePacket() returns (x: Option<Input>)
      requires Valid() && binding.None? && Handshaking(now)
      modifies this`script, this`inputs, this`now, this`shown
      ensures Valid()
      ensures x.None? ==> script == [] && now == old(now) && shown == old(shown)
      ensures x.Some? ==>
                && |script| < |old(script)| && !x.value.SendFails? && !x.value.Disconnects?
                && LastShows(old(shown)) && now == Advance(old(now), x.value).0
                && shown == old(shown) + Shown(Advance(old(now), x.value).1)
    {
      while script != []
        invariant Valid()
        invariant now == old(now) && shown == old(shown) && |script| <= |old(script)|
        decreases |script|
      {
        var y := Next();
        if !y.SendFails? { return Some(y); }
      }
      return None;
    }

    /** A sender's failed write ends the binding, and a drop signal follows unless it timed out. */
    method LoseBinding(ghost before: Machine, timedOut: bool)
      requires Valid() && !pending && before == View() && now == Advance(before, SendFails(timedOut)).0
      modifies this`binding, this`emits
      ensures Valid() && now == View()
    {
      if binding.Some? {
        binding := None;
        if !timedOut { emits := emits + [DropSignal]; }
      }
    }

    /**
     Waits for a packet outside a handshake, while a sender may fail and end the
     binding. `before` is the state in which the returned input was read.
     */
    method NextPacket() returns (x: Option<Input>, ghost before: Machine)
      requires Valid() && !pending && now == View()
      modifies this`script, this`inputs, this`now, this`shown, this`binding, this`emits
      ensures Valid() && before == View()
      ensures x.None? ==> script == [] && now == before && shown == old(shown)
      ensures x.Some? ==>
                && |script| < |old(script)| && LastShows(old(shown))
                && !x.value.SendFails? && !x.value.Disconnects? && !x.value.DeadlineHit?
                && now == Advance(before, x.value).0
                && shown == old(shown) + Shown(Advance(before, x.value).1)
    {
      before := View();
      while script != []
        invariant Valid() && now == before == View() && shown == old(shown)
        invariant |script| <= |old(script)|
        decreases |script|
      {
        x := Poll();
        if x.Some? {
          return x, View();
        }
        before := View();
      }
      return None, before;
    }

    /** Takes one input; a failed send and a deadline that nobody waits for are no packet. */
    method Poll() returns (x: Option<Input>)
      requires Valid() && !pending && now == View() && script != []
      modifies this`script, this`inputs, this`now, this`shown, this`binding, this`emits
      ensures Valid() && |script| < |old(script)|
      ensures x.None? ==> now == View() && shown == old(shown)
      ensures x.Some? ==>
                && LastShows(old(shown)) && View() == old(View())
                && !x.value.SendFails? && !x.value.Disconnects? && !x.value.DeadlineHit?
                && now == Advance(old(View()), x.value).0
                && shown == old(shown) + Shown(Advance(old(View()), x.value).1)
    {
      ghost var before := View();
      var y := Next();
      if y.SendFails? {
        LoseBinding(before, y.timedOut);
        return None;
      }
      x := if y.DeadlineHit? then None else Some(y);
    }

    /**
     Answers a hello and awaits its acknowledgment, under one deadline. A reset in
     place of either starts over. No result means that it still waits for input.
     */
    method Handshake() returns (h: Option<Handshake>)
      requires Valid() && !pending && receiver.None? && now == Image(AwaitHello)
      modifies this`script, this`inputs, this`now, this`shown, this`binding, this`emits, this`attempts
      ensures Valid() && (h.None? ==> script == [] && shown == old(shown))
      ensures h.Some? ==> |script| < |old(script)| && ConcludedWith(h.value, old(shown))
    {
      binding := None;
      while true
        invariant Valid() && receiver.None? && binding.None? && !pending && now == Image(AwaitHello)
        invariant |script| <= |old(script)| && shown == old(shown)
        decreases |script|
      {
        var attempt;
        h, attempt := AnswerHello();
        if h.Some? || attempt.None? { return; }
        var again;
        h, again := AwaitAcknowledgment(attempt.value.0, attempt.value.1);
        if !again { return; }
      }
    }

    /** The reference machine concluded the handshake the same way. */
    ghost predicate ConcludedWith(h: Handshake, was: seq<Outcome>)
      reads this
    {
      && now == Concluded(Image(Idle), h).0 && shown == was + Shown(Concluded(Image(Idle), h).1)
      && LastShows(was)
      && (h.Failed? ==> h.error != Absorbed && h.error != LocalEnd)
    }

    /** Skips the empty frames in front of a hello. */
    method SkipResets() returns (x: Option<Input>)
      requires Valid() && binding.None? && receiver.None? && now == Image(AwaitHello)
      modifies this`script, this`inputs, this`now, this`shown
      ensures Valid() && x != Some(Reset)
      ensures x.None? ==> script == [] && shown == old(shown)
      ensures x.Some? ==>
                && |script| < |old(script)| && !x.value.SendFails? && !x.value.Disconnects?
                && LastShows(old(shown)) && now == Advance(Image(AwaitHello), x.value).0
                && shown == old(shown) + Shown(Advance(Image(AwaitHello), x.value).1)
    {
      x := NextHandshakePacket();
      while x == Some(Reset)
        invariant Valid()
        invariant x.None? ==> script == [] && shown == old(shown)
        invariant x.Some? ==>
                    && |script| < |old(script)| && !x.value.SendFails? && !x.value.Disconnects?
                    && LastShows(old(shown)) && now == Advance(Image(AwaitHello), x.value).0
                    && shown == old(shown) + Shown(Advance(Image(AwaitHello), x.value).1)
        decreases |script|, if x.Some? then 1 else 0
      {
        x := NextHandshakePacket();
      }
    }

    /** Answers a hello with the server's, which has keys of its own. */
    method AnswerHello() returns (h: Option<Handshake>, attempt: Option<(nat, nat)>)
      requires Valid() && binding.None? && receiver.None? && !pending && now == Image(AwaitHello)
      modifies this`script, this`inputs, this`now, this`shown, this`emits, this`attempts
      ensures Valid()
      ensures h.Some? ==> |script| < |old(script)| && ConcludedWith(h.value, old(shown))
      ensures h.None? && attempt.None? ==> script == [] && shown == old(shown)
      ensures h.None? && attempt.Some? ==>
                && |script| < |old(script)| && shown == old(shown)
                && now == Image(AwaitAck(attempt.value.0, attempt.value.1))
    {
      h, attempt := None, None;
      var x := SkipResets();
      if x.None? { return; }
      if !x.value.Arrives? {
        RefusalConcludes(Image(AwaitHello), x.value);
        return Refusal(x.value), None;
      }
      var packet := x.value.packet;
      if !packet.Hello? { return Some(Rejected(x.value.late)), None; }
      attempt := Some((packet.key, attempts));
      emits := emits + [ArkHello(packet.key, attempts)];
      attempts := attempts + 1;
      if x.value.reply != Delivered {
        if x.value.reply == Broken { emits := emits + [DropSignal]; }
        h := Some(Failed(SendFailed));
      }
    }

    /** Reads the answer to the hello of an attempt; a reset asks to start over. */
    method AwaitAcknowledgment(ghost key: nat, attempt: nat) returns (h: Option<Handshake>, again: bool)
      requires Valid() && binding.None? && receiver.None? && now == Image(AwaitAck(key, attempt))
      modifies this`script, this`inputs, this`now, this`shown
      ensures Valid() && |script| <= |old(script)| && (again ==> h.None?)
      ensures again ==> now == Image(AwaitHello) && shown == old(shown)
      ensures h.None? && !again ==> script == [] && shown == old(shown)
      ensures h.Some? ==> ConcludedWith(h.value, old(shown))
    {
      h, again := None, false;
      var x := NextHandshakePacket();
      if x.None? { return; }
      if x.value.Reset? { return None, true; }
      if !x.value.Arrives? {
        RefusalConcludes(Image(AwaitAck(key, attempt)), x.value);
        return Refusal(x.value), false;
      }
      h := Some(if x.value.packet == Ack(attempt) then Complete(attempt) else Rejected(x.value.late));
    }

    /** Ends the binding, then drops both contexts; true if there was a session to report. */
    method EndSession() returns (ended: bool)
      requires sealer.Some? <==> receiver.Some?
      modifies this`binding, this`sealer, this`receiver
      ensures ended == old(receiver.Some?) && receiver.None? && sealer.None?
      ensures binding == if old(sealer).Some? && old(binding) == old(sealer) then None else old(binding)
    {
      if sealer.Some? && binding == sealer { binding := None; }
      sealer := None;
      ended := receiver.Some?;
      receiver := None;
    }

    method NewSession(session: nat)
      modifies this`binding, this`sealer, this`receiver
      ensures binding == Some(session) && sealer == Some(session) && receiver == Some((session, 0))
    {
      binding, sealer, receiver := Some(session), Some(session), Some((session, 0));
    }

    method SendDropped()
      modifies this`emits
      ensures emits == old(emits) + [DropSignal]
    {
      emits := emits + [DropSignal];
    }

    /**
     Returns the next outcome, consuming the inputs up to it. The call is the
     reference machine run on those inputs: it stops exactly where the machine
     first shows something and leaves the fields in the machine's state. With no
     outcome the script is used up and the call still waits.
     */
    method Recv() returns (out: Option<Outcome>)
      requires Valid() && now == View()
      modifies this
      ensures Valid() && whole == old(whole) && |script| <= |old(script)|
      ensures out.Some? ==> now == View() && shown == old(shown) + [out.value] && LastShows(old(shown))
      ensures out.Some? ==> out.value != Absorbed && out.value != LocalEnd
      ensures out.None? ==> script == [] && shown == old(shown)
      ensures old(Awaits(script)) ==>
                && out == Some(Message(old(receiver).value.0, old(receiver).value.1)) && binding == old(binding)
                && receiver == Some((old(receiver).value.0, old(receiver).value.1 + 1))
    {
      ghost var expected := Awaits(script);
      if expected {
        ExpectedIsMessage(now, receiver.value.0, receiver.value.1, script[0].reply, script[0].late);
      }
      out := Answer();
    }

    /** The session in use is about to read the packet it expects next. */
    ghost predicate Awaits(script: seq<Input>)
      reads this
    {
      && receiver.Some? && binding == Some(receiver.value.0) && script != [] && script[0].Arrives?
      && script[0].packet == Sealed(receiver.value.0, receiver.value.1)
    }

    /** The loop stops at the first input that shows something. */
    method Answer() returns (out: Option<Outcome>)
      requires Valid() && now == View()
      modifies this
      ensures Valid() && whole == old(whole) && |script| <= |old(script)|
      ensures out.Some? ==> now == View() && shown == old(shown) + [out.value] && LastShows(old(shown))
      ensures out.Some? ==> out.value != Absorbed && out.value != LocalEnd
      ensures out.None? ==> script == [] && shown == old(shown)
      ensures old(script) != [] && Advance(old(now), old(script)[0]).1 != Absorbed ==>
                && out == Some(Advance(old(now), old(script)[0]).1) && now == Advance(old(now), old(script)[0]).0
                && |script| == |old(script)| - 1
    {
      out := Loop();
      if old(script) != [] && Advance(old(now), old(script)[0]).1 != Absorbed {
        if out.None? {
          NotNothing(old(inputs), old(script), inputs);
        } else {
          FirstAnswers(old(inputs), old(script), inputs, script);
          OneMore(old(inputs), old(script)[0]);
          assert shown[|shown| - 1] == Advance(old(now), old(script)[0]).1;
        }
      }
    }

    method Loop() returns (out: Option<Outcome>)
      requires Valid() && now == View()
      modifies this
      ensures Valid() && whole == old(whole) && |script| <= |old(script)|
      ensures out.Some? ==> now == View() && shown == old(shown) + [out.value] && LastShows(old(shown))
      ensures out.Some? ==> out.value != Absorbed && out.value != LocalEnd && |script| < |old(script)|
      ensures out.None? ==> script == [] && shown == old(shown)
    {
      while true
        invariant Valid() && now == View() && shown == old(shown) && whole == old(whole)
        invariant |script| <= |old(script)|
        decreases |script|
      {
        var pass;
        if pending {
          pass := RunHandshake();
        } else {
          pass := ReceivePacket();
        }
        match pass {
          case Waiting => return None;
          case Return(o) => return Some(o);
          case Continue =>
        }
      }
    }

    /** What one pass of the loop promises. */
    twostate predicate Passed(pass: Pass)
      reads this
    {
      && Valid() && whole == old(whole)
      && match pass
         case Waiting => script == [] && shown == old(shown)
         case Continue => now == View() && shown == old(shown) && |script| < |old(script)|
         case Return(o) =>
           && |script| < |old(script)| && now == View() && shown == old(shown) + [o]
           && o != Absorbed && o != LocalEnd && LastShows(old(shown))
    }

    /** The pass after a reset. */
    method RunHandshake() returns (pass: Pass)
      requires Valid() && now == View() && pending
      modifies this
      ensures Passed(pass)
    {
      pending := false;
      var h := Handshake();
      if h.None? { return Waiting; }
      match h.value {
        case Failed(error) => pass := Return(error);
        case Rejected(late) =>
          SendDropped();
          pass := if late then Return(RecvFailed) else Continue;
        case Complete(session) =>
          NewSession(session);
          pass := Return(Opened(session));
      }
    }

    /** The pass outside a handshake. */
    method ReceivePacket() returns (pass: Pass)
      requires Valid() && now == View() && !pending
      modifies this
      ensures Passed(pass)
    {
      var x;
      ghost var before;
      x, before := NextPacket();
      if x.None? { return Waiting; }
      match x.value {
        case StreamEnds => pass := Return(Terminated);
        case ReadFails => pass := Return(RecvFailed);
        case Garbled(_) => pass := RejectFrame(x.value, before);
        case Reset => pass := TakeReset(before);
        case Arrives(packet, _, _) =>
          pass := TakePacket(packet, x.value, before);
      }
    }

    /** Invalid input ends the session, if any, and is answered. */
    method RejectFrame(ghost x: Input, ghost before: Machine) returns (pass: Pass)
      requires Valid() && !pending && before == View() && x.Garbled? && now == Advance(before, x).0
      modifies this`receiver, this`sealer, this`binding, this`emits
      ensures Valid() && now == View()
      ensures pass == if Advance(before, x).1 == Ended then Return(Ended) else Continue
      ensures Advance(before, x).1 == Ended || Advance(before, x).1 == Absorbed
    {
      var ended := EndSession();
      SendDropped();
      pass := if ended then Return(Ended) else Continue;
    }

    /** A reset ends the session, if any, and schedules a handshake. */
    method TakeReset(ghost before: Machine) returns (pass: Pass)
      requires Valid() && !pending && before == View() && now == Advance(before, Reset).0
      modifies this`receiver, this`sealer, this`binding, this`pending
      ensures Valid() && now == View()
      ensures pass == if Advance(before, Reset).1 == Ended then Return(Ended) else Continue
      ensures Advance(before, Reset).1 == Ended || Advance(before, Reset).1 == Absorbed
    {
      pending := true;
      var ended := EndSession();
      pass := if ended then Return(Ended) else Continue;
    }

    /** Opens a packet in the session, and accepts it only while the binding stands. */
    method TakePacket(packet: Packet, ghost x: Input, ghost before: Machine) returns (pass: Pass)
      requires Valid() && !pending && before == View() && x.Arrives? && x.packet == packet
      requires now == Advance(before, x).0
      modifies this`receiver, this`sealer, this`binding, this`emits
      ensures Valid() && now == View() && !pass.Waiting?
      ensures pass.Return? ==> pass.outcome == Advance(before, x).1 && (pass.outcome.Ended? || pass.outcome.Message?)
      ensures pass.Continue? ==> Advance(before, x).1 == Absorbed
    {
      if receiver.None? {
        SendDropped();
        return Continue;
      }
      var (session, next) := receiver.value;
      var opens := packet == Sealed(session, next);
      if opens { receiver := Some((session, next + 1)); }
      if opens && binding == sealer { return Return(Message(session, next)); }
      var _ := EndSession();
      SendDropped();
      pass := Return(Ended);
    }

    /** The owner's act in the history, inserted before what is still to come. */
    ghost method RecordDisconnect()
      requires Contexts() && Tied() && Disconnects !in script && View() == Advance(now, Disconnects).0
      modifies this`inputs, this`now, this`shown, this`whole
      ensures Valid() && now == View() && inputs == old(inputs) + [Disconnects]
      ensures shown == old(shown) + Shown(Advance(old(now), Disconnects).1)
    {
      Record(Disconnects);
      whole := inputs + script;
    }

    /** Drops the session for the owner, who gets no event for it. */
    method Disconnect() returns (out: Outcome)
      requires Valid() && now == View()
      modifies this
      ensures Valid() && now == View() && script == old(script) && inputs == old(inputs) + [Disconnects]
      ensures shown == old(shown) + Shown(out)
      ensures out == if old(receiver).Some? then LocalEnd else Absorbed
      ensures receiver.None? && binding.None? && pending == old(pending)
    {
      OwnerDrops(now);
      var ended := EndSession();
      SendDropped();
      out := if ended then LocalEnd else Absorbed;
      RecordDisconnect();
    }
  }
}
