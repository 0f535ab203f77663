/**
 The inbound byte budget: the counter equals the bytes of the envelopes that are
 alive and undecoded, and never exceeds the limit of an open session.
 */
module Budget {
  import opened Prelude
  import opened Wire
  import opened Session
  import Promises
  import Obligations

  function Sum(s: seq<nat>): nat {
    if s == [] then 0 else s[0] + Sum(s[1..])
  }

  /** Some entry of a map. */
  ghost function Pick(m: map<nat, nat>): (k: nat)
    requires |m| != 0
    ensures k in m
  {
    var k :| k in m; k
  }

  ghost function Total(m: map<nat, nat>): nat
    decreases |m|
  {
    if |m| == 0 then 0
    else
      var k := Pick(m);
      assert |m - {k}| < |m| by { Shrinks(m, k); }
      m[k] + Total(m - {k})
  }

  lemma Shrinks(m: map<nat, nat>, k: nat)
    requires k in m
    ensures |m - {k}| == |m| - 1
  {
    assert (m - {k}).Keys == m.Keys - {k};
  }

  lemma RemoveTwo(m: map<nat, nat>, j: nat, k: nat)
    ensures (m - {j}) - {k} == (m - {k}) - {j}
  {
  }

  /** Any entry may be split off the total. */
  lemma {:induction false} TotalSplits(m: map<nat, nat>, k: nat)
    requires k in m
    ensures Total(m) == m[k] + Total(m - {k})
    decreases |m|
  {
    Shrinks(m, k);
    var j := Pick(m);
    if j != k {
      Shrinks(m, j);
      TotalSplits(m - {j}, k);
      TotalSplits(m - {k}, j);
      RemoveTwo(m, j, k);
    }
  }

  lemma TotalGrows(m: map<nat, nat>, k: nat, v: nat)
    requires k !in m
    ensures Total(m[k := v]) == Total(m) + v
  {
    TotalSplits(m[k := v], k);
    assert m[k := v] - {k} == m;
  }

  lemma {:induction false} SumAppend(a: seq<nat>, b: seq<nat>)
    ensures Sum(a + b) == Sum(a) + Sum(b)
    decreases |a|
  {
    if a == [] {
      assert a + b == b;
    } else {
      assert (a + b)[1..] == a[1..] + b;
      SumAppend(a[1..], b);
    }
  }

  function QueueBytes(s: State): nat {
    if s.core.Open? then Sum(Lengths(s.core.incoming)) else 0
  }

  /** Bytes of every live undecoded envelope, wherever it is. */
  ghost function LiveBytes(s: State): nat {
    QueueBytes(s) + Total(s.threads.decoding) + Total(s.threads.unread) + Sum(s.threads.garbage)
  }

  /** An unread response is the published result of a promise somebody still holds. */
  ghost predicate Backed(s: State, key: nat, length: nat) {
    && key in s.hist.results && key !in s.threads.gone
    && s.hist.results[key].result.Answered?
    && s.hist.results[key].result.envelope.length == length
  }

  ghost predicate Charged(s: State) {
    && s.retained == LiveBytes(s)
    && (s.core.Open? ==> s.retained <= s.core.maxBytes)
    && (forall k :: k in s.threads.unread ==> Backed(s, k, s.threads.unread[k]))
    && s.threads.decoding.Keys <= s.threads.responders
  }

  ghost predicate Inv(s: State) {
    Promises.Inv(s) && Obligations.Owed(s) && Charged(s)
  }

  /** The parts of the state that the budget depends on. */
  ghost predicate SameCharges(s: State, t: State) {
    && t.retained == s.retained
    && t.core.Open? == s.core.Open?
    && (s.core.Open? ==> t.core.incoming == s.core.incoming && t.core.maxBytes == s.core.maxBytes)
    && t.threads.decoding == s.threads.decoding && t.threads.unread == s.threads.unread
    && t.threads.garbage == s.threads.garbage
    && t.threads.decoding.Keys * s.threads.responders <= t.threads.responders
    && (forall k :: k in s.threads.unread && k !in s.threads.gone ==> k !in t.threads.gone)
    && Promises.Extends(s.hist.results, t.hist.results)
  }

  lemma SameChargesKeep(s: State, t: State)
    requires Charged(s) && SameCharges(s, t)
    ensures Charged(t)
  {
    forall k | k in t.threads.unread
      ensures Backed(t, k, t.threads.unread[k])
    {
      assert Backed(s, k, s.threads.unread[k]);
    }
  }

  predicate Free(step: Step) {
    step.Request? || step.Reply? || step.BeginAuto? || step.FinishAuto? || step.Take? || step.Transmit?
    || step.Unroute? || step.RecordWrite? || step.Expire? || step.SetAutoreply?
  }

  /** What the budget depends on, apart from the results. */
  predicate SameFields(s: State, t: State) {
    && t.retained == s.retained && t.core.Open? == s.core.Open?
    && (s.core.Open? ==> t.core.incoming == s.core.incoming && t.core.maxBytes == s.core.maxBytes)
    && t.threads.decoding == s.threads.decoding && t.threads.unread == s.threads.unread
    && t.threads.garbage == s.threads.garbage
    && t.threads.decoding.Keys * s.threads.responders <= t.threads.responders
    && t.threads.gone <= s.threads.gone + {s.hist.issued}
  }

  lemma CallerFields(s: State, step: Step)
    requires step.Request? || step.Reply? || step.BeginAuto? || step.FinishAuto?
    ensures SameFields(s, Do(s, step))
  {
  }

  lemma HandFields(s: State, step: Step)
    requires step.Transmit? || step.Unroute? || step.RecordWrite?
    ensures SameFields(s, Do(s, step))
  {
  }

  lemma WriterFields(s: State, step: Step)
    requires Free(step) && !step.Request? && !step.Reply? && !step.BeginAuto? && !step.FinishAuto?
    ensures SameFields(s, Do(s, step))
  {
    if step.Transmit? || step.Unroute? || step.RecordWrite? {
      HandFields(s, step);
    } else if step.Take? {
      TakeFields(s, step.now);
    }
  }

  lemma TakeFields(s: State, now: int)
    ensures SameFields(s, TakeState(s, now))
  {
  }

  /** Steps of senders, writers and timers leave every charge alone. */
  lemma FreeFields(s: State, step: Step)
    requires Free(step)
    ensures SameFields(s, Do(s, step))
  {
    if step.Request? || step.Reply? || step.BeginAuto? || step.FinishAuto? {
      CallerFields(s, step);
    } else {
      WriterFields(s, step);
    }
  }

  lemma FreeSteps(s: State, step: Step)
    requires Promises.Conserved(s) && Charged(s) && Free(step)
    ensures SameCharges(s, Do(s, step))
  {
    FreeFields(s, step);
    Promises.StepFinal(s, step);
    var t := Do(s, step);
    forall k | k in s.threads.unread
      ensures k != s.hist.issued
    {
      assert Backed(s, k, s.threads.unread[k]);
      assert k in Promises.Below(s.hist.issued);
    }
  }

  lemma CloseCharges(s: State, reason: Error, now: int)
    requires Charged(s) && Promises.Conserved(s)
    ensures Charged(CloseState(s, reason, now))
  {
    var t := CloseState(s, reason, now);
    if s.core.Open? {
      SumAppend(s.threads.garbage, Lengths(s.core.incoming));
      Promises.CloseExtends(s, reason, now);
      forall k | k in t.threads.unread
        ensures Backed(t, k, t.threads.unread[k])
      {
        assert Backed(s, k, s.threads.unread[k]);
      }
    }
  }

  lemma AdmitCharges(s: State, e: Envelope)
    requires Charged(s) && s.core.Open? && (e.body.unknown || Fits(s, e.length))
    ensures Charged(Admit(s, e))
  {
    var t := Admit(s, e);
    if !e.body.unknown {
      assert Lengths(s.core.incoming + [e]) == Lengths(s.core.incoming) + [e.length];
      SumAppend(Lengths(s.core.incoming), [e.length]);
    }
    forall k | k in t.threads.unread
      ensures Backed(t, k, t.threads.unread[k])
    {
      assert Backed(s, k, s.threads.unread[k]);
    }
  }

  /** Buffering a response in a live promise. */
  lemma BufferCharges(s: State, t: State, key: nat, e: Envelope)
    requires Charged(s) && s.core.Open? && Fits(s, e.length)
    requires key !in s.hist.results && key !in s.threads.gone
    requires t.core.Open? && t.core.incoming == s.core.incoming && t.core.maxBytes == s.core.maxBytes
    requires t.retained == s.retained + e.length
    requires t.threads == s.threads.(unread := s.threads.unread[key := e.length])
    requires Promises.Extends(s.hist.results, t.hist.results)
    requires key in t.hist.results && t.hist.results[key].result == Answered(e)
    ensures Charged(t)
  {
    forall k | k in t.threads.unread ensures Backed(t, k, t.threads.unread[k]) {
      if k != key {
        assert Backed(s, k, s.threads.unread[k]);
      }
    }
    assert key in s.threads.unread ==> Backed(s, key, s.threads.unread[key]);
    TotalGrows(s.threads.unread, key, e.length);
  }

  lemma CompleteCharges(s: State, key: nat, e: Envelope, now: int)
    requires Charged(s) && s.core.Open? && key in s.core.operations && key !in s.hist.results
    ensures Charged(CompleteResponse(s, key, e, now))
  {
    var t := CompleteResponse(s, key, e, now);
    if now < s.core.operations[key].deadline && Fits(s, e.length) && key !in s.threads.gone {
      var r := Settlement(Answered(e), now, s.core.operations[key].deadline);
      assert t.hist.results == s.hist.results[key := r];
      BufferCharges(s, t, key, e);
    } else {
      SameChargesKeep(s, t);
    }
  }

  lemma DeliverCharges(s: State, e: Envelope, now: int)
    requires Promises.Conserved(s) && Charged(s)
    ensures Charged(DeliverState(s, e, now))
  {
    if s.core.Open? {
      if KindOf(e.id, Own(s.side)) == IncomingRequest {
        if Verdict(s, e, now).None? {
          AdmitCharges(s, e);
        }
      } else {
        var h := s.(hist := s.hist.(heard := s.hist.heard + {e.id}));
        SameChargesKeep(s, h);
        if e.id in s.core.outstanding {
          var t := h.(core := s.core.(outstanding := s.core.outstanding - {e.id}));
          SameChargesKeep(s, t);
          if s.core.outstanding[e.id] in s.core.operations {
            CompleteCharges(t, s.core.outstanding[e.id], e, now);
          }
        }
      }
    }
  }

  lemma ReleaseCharges(s: State, key: nat)
    requires Charged(s)
    ensures Charged(Release(s, key))
    ensures key !in Release(s, key).threads.unread
  {
    if key in s.threads.unread {
      TotalSplits(s.threads.unread, key);
      var t := Release(s, key);
      assert forall k :: k in t.threads.unread ==> Backed(s, k, s.threads.unread[k]);
    }
  }

  lemma RecvCharges(s: State)
    requires Charged(s) && Obligations.Owed(s)
    ensures Charged(RecvState(s))
  {
    if s.core.Open? && s.core.incoming != [] {
      var e, t := s.core.incoming[0], RecvState(s);
      assert Lengths(s.core.incoming) == [e.length] + Lengths(t.core.incoming);
      Obligations.OnePlace(Obligations.AccountOf(s), e.id);
      assert e.id == Obligations.Ids(s.core.incoming)[0];
      assert e.id in multiset(Obligations.Ids(s.core.incoming));
      assert e.id !in multiset(s.threads.responders);
      TotalGrows(s.threads.decoding, e.id, e.length);
      assert forall k :: k in t.threads.unread ==> Backed(s, k, s.threads.unread[k]);
    }
  }

  lemma WriteFailedCharges(s: State, now: int)
    requires Charged(s) && Promises.Conserved(s)
    ensures Charged(WriteFailedState(s, now))
  {
    CloseCharges(s, Transport, now);
    var t := CloseState(s, Transport, now);
    SameChargesKeep(t, t.(threads := t.threads.(hand := Empty)));
  }

  lemma DropCharges(s: State, key: nat)
    requires Charged(s)
    ensures Charged(Do(s, DropPromise(key)))
  {
    ReleaseCharges(s, key);
    var t := Release(s, key);
    SameChargesKeep(t, t.(threads := t.threads.(gone := t.threads.gone + {key})));
  }

  lemma GarbageCharges(s: State)
    requires Charged(s)
    ensures Charged(Do(s, DropGarbage))
  {
    var t := Do(s, DropGarbage);
    assert forall k :: k in t.threads.unread ==> Backed(s, k, s.threads.unread[k]);
  }

  /** Steps that charge or release bytes keep the counter exact. */
  lemma ChargingSteps(s: State, step: Step)
    requires Inv(s) && !Free(step)
    ensures Charged(Do(s, step))
  {
    match step
    case Deliver(e, now) => DeliverCharges(s, e, now);
    case WriteFailed(now) => WriteFailedCharges(s, now);
    case Close(reason, now) => CloseCharges(s, reason, now);
    case SetLimits(requests, bytes, now) => SetLimitsCharges(s, requests, bytes, now);
    case Recv => RecvCharges(s);
    case Decode(id) => DecodeCharges(s, id);
    case ReadResult(key) => ReleaseCharges(s, key);
    case DropPromise(key) => DropCharges(s, key);
    case DropGarbage => GarbageCharges(s);
  }

  lemma DecodeCharges(s: State, id: nat)
    requires Charged(s)
    ensures Charged(Do(s, Decode(id)))
  {
    if id in s.threads.decoding {
      DecodeFields(s, id);
      TotalSplits(s.threads.decoding, id);
      DecodedCharged(s, Do(s, Decode(id)), id);
    }
  }

  lemma DecodeFields(s: State, id: nat)
    requires id in s.threads.decoding
    ensures Do(s, Decode(id)) == s.(retained := Minus(s.retained, s.threads.decoding[id]),
                                    threads := s.threads.(decoding := s.threads.decoding - {id}))
  {
  }

  lemma DecodedCharged(s: State, t: State, id: nat)
    requires Charged(s) && id in s.threads.decoding
    requires t == s.(retained := Minus(s.retained, s.threads.decoding[id]),
                     threads := s.threads.(decoding := s.threads.decoding - {id}))
    requires Total(s.threads.decoding) == s.threads.decoding[id] + Total(s.threads.decoding - {id})
    ensures Charged(t)
  {
    assert forall k :: k in t.threads.unread ==> Backed(s, k, s.threads.unread[k]);
  }

  lemma SetLimitsCharges(s: State, requests: nat, bytes: nat, now: int)
    requires Promises.Conserved(s) && Charged(s)
    ensures Charged(SetLimitsState(s, requests, bytes, now))
  {
    if s.core.Open? {
      var t := s.(core := s.core.(maxRequests := requests, maxBytes := bytes));
      var u := if |s.core.reserved| > requests then CloseState(t, RequestLimit(requests), now)
               else CloseState(t, ByteLimit(bytes), now);
      SumAppend(s.threads.garbage, Lengths(s.core.incoming));
      Promises.CloseExtends(t, if |s.core.reserved| > requests then RequestLimit(requests) else ByteLimit(bytes), now);
      assert forall k :: k in s.threads.unread ==> Backed(s, k, s.threads.unread[k]);
    }
  }

  lemma StepKeeps(s: State, step: Step)
    requires Inv(s)
    ensures Inv(Do(s, step))
  {
    Promises.StepKeeps(s, step);
    Obligations.StepOwed(s, step);
    if Free(step) {
      FreeSteps(s, step);
      SameChargesKeep(s, Do(s, step));
    } else {
      ChargingSteps(s, step);
    }
  }

  /**
   The byte budget over every run: the counter is the exact total of the queued
   requests, the requests being decoded, the unread responses and the leavings of
   a close, so no release underflows; and an open session is within its limit.
   */
  lemma {:induction false} EveryRun(side: Side, steps: seq<Step>)
    ensures Inv(Run(Init(side), steps))
    decreases |steps|
  {
    if steps == [] {
      Promises.EveryRun(side, []);
      Obligations.EveryRun(side, []);
    } else {
      EveryRun(side, steps[..|steps| - 1]);
      StepKeeps(Run(Init(side), steps[..|steps| - 1]), steps[|steps| - 1]);
    }
  }
}
