/**
 The transport client: connecting past whatever the line still holds, and
 receiving within a session.
 */
module ClientLoop {
  import opened Prelude
  import opened TransportServer

  /** What the client can meet while it reads. */
  datatype Arrival =
    | Blank                                  // empty frame
    | Undecodable                            // oversized or not decodable
    | HelloFor(key: nat, attempt: nat, genuine: bool)  // server hello naming a client key
    | Opaque(session: nat, seqno: nat)       // sealed packet
    | Noise
    | ReadError
    | EndOfStream
    | OutOfTime
    | LostBinding                            // a sender's failed write ended the session

  /** Frames left over from earlier sessions and attempts. */
  predicate Stale(x: Arrival, key: nat) {
    x.Blank? || x.Undecodable? || x.Opaque? || x.Noise? || x.LostBinding? || (x.HelloFor? && x.key != key)
  }

  /** What the attempt with `key` gets to see, if anything. */
  function Answer(script: seq<Arrival>, key: nat): Option<Arrival> {
    if script == [] then None
    else if Stale(script[0], key) then Answer(script[1..], key)
    else Some(script[0])
  }

  /** The rest after that answer. */
  function Beyond(script: seq<Arrival>, key: nat): seq<Arrival> {
    if script == [] then []
    else if Stale(script[0], key) then Beyond(script[1..], key)
    else script[1..]
  }

  /** The answer is the first arrival that is not stale, whatever came before it. */
  lemma {:induction false} StaleSkipped(before: seq<Arrival>, rest: seq<Arrival>, key: nat)
    requires forall x <- before :: Stale(x, key)
    ensures Answer(before + rest, key) == Answer(rest, key) && Beyond(before + rest, key) == Beyond(rest, key)
  {
    if before == [] {
      assert before + rest == rest;
    } else {
      assert (before + rest)[1..] == before[1..] + rest;
      StaleSkipped(before[1..], rest, key);
    }
  }

  /** Something the attempt with `key` must look at: its own answer, or that there will be none. */
  predicate Relevant(x: Arrival, key: nat) {
    match x
    case HelloFor(k, _, _) => k == key
    case ReadError => true
    case EndOfStream => true
    case OutOfTime => true
    case _ => false
  }

  /** An attempt sees the first relevant arrival, and everything before it is skipped. */
  lemma FirstRelevant(before: seq<Arrival>, x: Arrival, rest: seq<Arrival>, key: nat)
    requires Relevant(x, key) && forall y <- before :: !Relevant(y, key)
    ensures Answer(before + [x] + rest, key) == Some(x) && Beyond(before + [x] + rest, key) == rest
  {
    assert forall y <- before :: Stale(y, key);
    assert before + [x] + rest == before + ([x] + rest);
    StaleSkipped(before, [x] + rest, key);
    assert ([x] + rest)[1..] == rest;
  }

  /** The next frame or failure a session reads, and whether its binding still stands then. */
  function Meets(script: seq<Arrival>, bound: bool): (Option<Arrival>, bool) {
    if script == [] then (None, bound)
    else if script[0].LostBinding? then Meets(script[1..], false)
    else if script[0].OutOfTime? then Meets(script[1..], bound)
    else (Some(script[0]), bound)
  }

  lemma {:induction false} SameFrame(script: seq<Arrival>)
    ensures Meets(script, true).0 == Meets(script, false).0
  {
    if script != [] {
      SameFrame(script[1..]);
    }
  }

  /** `attempt` is the server's handshake attempt that was joined. */
  datatype Connection = Connected(session: nat, attempt: nat) | Refused | StillConnecting

  /** A genuine answer to this key. */
  predicate Genuine(x: Option<Arrival>, key: nat) {
    x.Some? && x.value.HelloFor? && x.value.key == key && x.value.genuine
  }

  datatype Received = Got(session: nat, seqno: nat) | NoSession | SessionOver | StillReading

  class Client {
    var receiver: Option<(nat, nat)>
    var sealer: Option<nat>
    /** Session the outgoing transport is bound to. */
    var binding: Option<nat>
    /** Sessions established so far; each is new. */
    var sessions: nat
    var script: seq<Arrival>
    /** What the client's owner has seen. */
    ghost var shown: seq<Outcome>

    /** The contexts go together, and the owner's view agrees with them. */
    ghost predicate Valid()
      reads this
    {
      && sealer == (if receiver.Some? then Some(receiver.value.0) else None)
      && (binding.Some? ==> binding == sealer)
      && Watch(shown).Some? && Watch(shown).value.open == receiver
      && (Watch(shown).value.newest.Some? ==> Watch(shown).value.newest.value < sessions)
    }

    constructor (script: seq<Arrival>)
      ensures Valid() && this.script == script && shown == [] && receiver.None?
    {
      receiver, sealer, binding, sessions := None, None, None, 0;
      this.script, shown := script, [];
    }

    /** Reads up to the first frame that may belong to this attempt. */
    method SkipStale(key: nat) returns (x: Option<Arrival>)
      modifies this`script
      ensures x == Answer(old(script), key) && script == Beyond(old(script), key)
    {
      while script != []
        invariant Answer(script, key) == Answer(old(script), key)
        invariant Beyond(script, key) == Beyond(old(script), key)
        decreases |script|
      {
        var y := script[0];
        script := script[1..];
        if !Stale(y, key) { return Some(y); }
      }
      return None;
    }

    /**
     Connects with a fresh key: it succeeds exactly when its output goes out and
     the first frame that is not stale is the genuine answer to this key. When it
     fails or still waits, the client has no session and nothing is bound.
     */
    method Connect(key: nat, resetSent: bool, helloSent: bool, ackSent: bool) returns (r: Connection)
      requires Valid()
      modifies this
      ensures Valid() && (r.Connected? || (receiver.None? && binding.None? && sessions == old(sessions)))
      ensures r.Connected? <==> resetSent && helloSent && ackSent && Genuine(Answer(old(script), key), key)
      ensures r.Connected? ==>
                && r.session == old(sessions) < sessions && receiver == Some((r.session, 0))
                && binding == Some(r.session) && script == Beyond(old(script), key)
                && Answer(old(script), key) == Some(HelloFor(key, r.attempt, true))
      ensures r.StillConnecting? ==> resetSent && helloSent && Answer(old(script), key).None?
      ensures shown == old(shown) + (if old(receiver).Some? then [LocalEnd] else []) +
                       if r.Connected? then [Opened(r.session)] else []
    {
      Retire();
      if !resetSent || !helloSent { return Refused; }
      var x := SkipStale(key);
      if x.None? { return StillConnecting; }
      if !Genuine(x, key) || !ackSent { return Refused; }
      r := Connected(sessions, x.value.attempt);
      Establish();
    }

    /** Drops the contexts of an earlier session, whose owner asked for a new one. */
    method Retire()
      requires Valid()
      modifies this`receiver, this`sealer, this`binding, this`shown
      ensures Valid() && receiver.None? && binding.None?
      ensures shown == old(shown) + if old(receiver).Some? then [LocalEnd] else []
    {
      if receiver.Some? {
        Show(LocalEnd);
      }
      receiver, sealer, binding := None, None, None;
    }

    method Establish()
      requires Valid() && receiver.None?
      modifies this`receiver, this`sealer, this`binding, this`sessions, this`shown
      ensures Valid() && sessions == old(sessions) + 1 && binding == Some(old(sessions))
      ensures receiver == Some((old(sessions), 0)) && shown == old(shown) + [Opened(old(sessions))]
    {
      Show(Opened(sessions));
      receiver, sealer, binding := Some((sessions, 0)), Some(sessions), Some(sessions);
      sessions := sessions + 1;
    }

    ghost method Show(o: Outcome)
      modifies this`shown
      ensures shown == old(shown) + [o]
      ensures Watch(shown) == if Watch(old(shown)).None? then None else Observe(Watch(old(shown)).value, o)
    {
      WatchMore(shown, o);
      shown := shown + [o];
    }

    /**
     Receives the next message of the session. It delivers exactly the packet the
     session expects next, and only while the session is bound; anything else ends
     the session, and without one nothing is read.
     */
    method Recv() returns (r: Received)
      requires Valid()
      modifies this
      ensures Valid() && sessions == old(sessions)
      ensures old(receiver).None? <==> r.NoSession?
      ensures r.NoSession? ==> script == old(script) && shown == old(shown)
      ensures r.Got? <==>
              && old(receiver).Some?
              && Meets(old(script), old(binding).Some?) ==
                 (Some(Opaque(old(receiver).value.0, old(receiver).value.1)), true)
      ensures r.Got? ==>
                && old(receiver) == Some((r.session, r.seqno)) && receiver == Some((r.session, r.seqno + 1))
                && binding == old(binding) == Some(r.session) && shown == old(shown) + [Message(r.session, r.seqno)]
      ensures r.SessionOver? ==> receiver.None? && binding.None? && shown == old(shown) + [Ended]
      ensures r.StillReading? ==>
                script == [] && receiver == old(receiver) && shown == old(shown) && Meets(old(script), true).0.None?
    {
      if receiver.None? { return NoSession; }
      var (session, next) := receiver.value;
      while script != [] && (script[0].LostBinding? || script[0].OutOfTime?)
        invariant Valid() && receiver == old(receiver) && shown == old(shown) && sessions == old(sessions)
        invariant binding.Some? ==> binding == old(binding)
        invariant Meets(script, binding.Some?) == Meets(old(script), old(binding).Some?)
        invariant Meets(script, true).0 == Meets(old(script), true).0
        decreases |script|
      {
        var lost := script[0].LostBinding?;
        SameFrame(script[1..]);
        script := script[1..];
        if lost { binding := None; }
      }
      if script == [] { return StillReading; }
      var x := script[0];
      script := script[1..];
      if x == Opaque(session, next) && binding == Some(session) {
        Show(Message(session, next));
        receiver := Some((session, next + 1));
        return Got(session, next);
      }
      Show(Ended);
      receiver, sealer, binding := None, None, None;
      r := SessionOver;
    }
  }
}
