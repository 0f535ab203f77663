/**
 Lifecycle of a protocol server: one reader that attaches sessions under a lock
 it takes twice, an owner that accepts them and sets policy, and any number of
 threads closing the server. A step is one critical section of the server lock
 or one call into a session.
 */
module Lifecycle {
  import opened Prelude

  datatype Policy = Policy(requests: nat, bytes: nat, autoreply: nat)

  datatype Reason = SessionReset | LocalClose | LimitExceeded | Failure(code: nat)

  /** A session, by its policy, what it retains, why it closed and whether its memory is gone. */
  datatype Session = Session(policy: Policy, requests: nat, bytes: nat, closed: Option<Reason>, freed: bool)

  datatype Server =
    | Open(policy: Policy, session: Option<nat>, ready: Option<nat>)
    | Closed(reason: Reason, session: Option<nat>)

  datatype Reader =
    | Receiving
    | Attaching(newest: nat)
    | Replacing(newest: nat, previous: Option<nat>)  // outside the lock
    | Installing(newest: nat)
    | Announcing(unaccepted: Option<nat>)           // about to wake the accepter
    | Dropping(unaccepted: Option<nat>)
    | Refused(newest: nat)
    | Stopped

  datatype Closer =
    | Away
    | Captured(session: Option<nat>, ready: Option<nat>, reason: Reason)
    | Shouting(ready: Option<nat>)                  // about to wake the accepter
    | Releasing(ready: Option<nat>)
    | Returned

  /** `asleep` says that the owner waits in `accept` on the condition variable. */
  datatype State = State(
    server: Server, sessions: seq<Session>,
    attached: set<nat>, accepted: seq<nat>,
    reader: Reader, closers: map<nat, Closer>, asleep: bool)

  datatype Step =
    | Connect(defaults: Policy)                    // the transport completes a handshake
    | Read                                         // the reader goes on
    | Stop                                         // the reader leaves its loop
    | Accept                                       // the owner looks for a session, or goes to sleep
    | Spurious                                     // the condition variable wakes it for nothing
    | SetLimits(requests: nat, bytes: nat)         // on the server
    | SetAutoreply(autoreply: nat)
    | Close(thread: nat, reason: Reason)
    | Go(thread: nat)                              // a closing thread goes on
    | Adjust(session: nat, policy: Policy)         // on an accepted session
    | Retain(session: nat, requests: nat, bytes: nat)
    | EndSession(session: nat, reason: Reason)     // by its owner, its workers or the reader
    | Free(session: nat)

  function Init(policy: Policy): State {
    State(Open(policy, None, None), [], {}, [], Receiving, map[], false)
  }

  // ---------------------------------------------------------------------------
  // Calls into a session

  /** The first reason stands. */
  function Shut(x: Session, reason: Reason): Session {
    if x.closed.Some? then x else x.(closed := Some(reason))
  }

  predicate Within(x: Session, p: Policy) { x.requests <= p.requests && x.bytes <= p.bytes }

  /** New limits close an open session whose usage exceeds them; a closed one ignores them. */
  function Limit(x: Session, requests: nat, bytes: nat): Session {
    if x.closed.Some? then x
    else
      var y := x.(policy := x.policy.(requests := requests, bytes := bytes));
      if Within(y, y.policy) then y else Shut(y, LimitExceeded)
  }

  function Delay(x: Session, autoreply: nat): Session {
    if x.closed.Some? then x else x.(policy := x.policy.(autoreply := autoreply))
  }

  function ShutAt(sessions: seq<Session>, n: Option<nat>, reason: Reason): seq<Session> {
    if n.Some? && n.value < |sessions| then sessions[n.value := Shut(sessions[n.value], reason)] else sessions
  }

  /** A weak reference, which fails once the session is gone. */
  function Upgrade(sessions: seq<Session>, n: Option<nat>): Option<nat> {
    if n.Some? && n.value < |sessions| && !sessions[n.value].freed then n else None
  }

  // ---------------------------------------------------------------------------
  // Steps

  function Closing(s: State, t: nat, reason: Reason): State {
    match s.server
    case Closed(first, session) =>
      s.(closers := s.closers[t := Captured(Upgrade(s.sessions, session), None, first)])
    case Open(_, session, ready) =>
      s.(server := Closed(reason, session),
         closers := s.closers[t := Captured(Upgrade(s.sessions, session), ready, reason)])
  }

  function ReaderGoes(s: State): State {
    match s.reader
    case Attaching(n) =>
      if s.server.Closed? then s.(reader := Refused(n))
      else s.(reader := Replacing(n, Upgrade(s.sessions, s.server.session)))
    case Replacing(n, previous) =>
      s.(sessions := ShutAt(s.sessions, previous, SessionReset), reader := Installing(n))
    case Installing(n) =>
      if s.server.Closed? then s.(reader := Refused(n))
      else if n >= |s.sessions| then s
      else
        var p := s.server.policy;
        s.(sessions := s.sessions[n := Delay(Limit(s.sessions[n], p.requests, p.bytes), p.autoreply)],
           server := Open(p, Some(n), Some(n)), attached := s.attached + {n},
           reader := Announcing(s.server.ready))
    case Announcing(earlier) => s.(asleep := false, reader := Dropping(earlier))
    case Dropping(earlier) => s.(sessions := ShutAt(s.sessions, earlier, LocalClose), reader := Receiving)
    case Refused(n) => s.(sessions := ShutAt(s.sessions, Some(n), LocalClose), reader := Stopped)
    case _ => s
  }

  function CloserGoes(s: State, t: nat): State {
    if t !in s.closers then s
    else
      match s.closers[t]
      case Captured(session, ready, reason) =>
        s.(sessions := ShutAt(s.sessions, session, reason), closers := s.closers[t := Shouting(ready)])
      case Shouting(ready) => s.(asleep := false, closers := s.closers[t := Releasing(ready)])
      case Releasing(ready) =>
        s.(sessions := ShutAt(s.sessions, ready, LocalClose), closers := s.closers[t := Returned])
      case _ => s
  }

  /** Policy of the server and, under the same lock, of its current session. */
  function Govern(s: State, policy: Policy, change: Session -> Session): State {
    if s.server.Closed? then s
    else
      var n := Upgrade(s.sessions, s.server.session);
      s.(server := s.server.(policy := policy),
         sessions := if n.Some? then s.sessions[n.value := change(s.sessions[n.value])] else s.sessions)
  }

  function Do(s: State, step: Step): State {
    match step
    case Connect(defaults) =>
      if !s.reader.Receiving? then s
      else s.(sessions := s.sessions + [Session(defaults, 0, 0, None, false)], reader := Attaching(|s.sessions|))
    case Read => ReaderGoes(s)
    case Stop => if s.reader.Receiving? then s.(reader := Stopped) else s
    case Accept =>
      if s.asleep || s.server.Closed? then s
      else if s.server.ready.None? then s.(asleep := true)
      else s.(server := s.server.(ready := None), accepted := s.accepted + [s.server.ready.value])
    case Spurious => s.(asleep := false)
    case SetLimits(requests, bytes) =>
      if s.server.Closed? then s
      else Govern(s, s.server.policy.(requests := requests, bytes := bytes), x => Limit(x, requests, bytes))
    case SetAutoreply(autoreply) =>
      if s.server.Closed? then s
      else Govern(s, s.server.policy.(autoreply := autoreply), x => Delay(x, autoreply))
    case Close(t, reason) =>
      if t in s.closers && !s.closers[t].Away? && !s.closers[t].Returned? then s else Closing(s, t, reason)
    case Go(t) => CloserGoes(s, t)
    case Adjust(n, p) =>
      if n >= |s.sessions| || n !in s.accepted then s
      else s.(sessions := s.sessions[n := Delay(Limit(s.sessions[n], p.requests, p.bytes), p.autoreply)])
    case Retain(n, requests, bytes) =>
      if n >= |s.sessions| || n !in s.attached then s
      else
        var x := s.sessions[n].(requests := requests, bytes := bytes);
        if x.closed.Some? || Within(x, x.policy) then s.(sessions := s.sessions[n := x]) else s
    case EndSession(n, reason) => s.(sessions := ShutAt(s.sessions, Some(n), reason))
    case Free(n) =>
      if n < |s.sessions| && s.sessions[n].closed.Some?
      then s.(sessions := s.sessions[n := s.sessions[n].(freed := true)]) else s
  }

  function Run(s: State, steps: seq<Step>): State {
    if steps == [] then s else Do(Run(s, steps[..|steps| - 1]), steps[|steps| - 1])
  }

  // ---------------------------------------------------------------------------
  // Invariant

  predicate Ended(sessions: seq<Session>, n: nat) {
    n < |sessions| && sessions[n].closed.Some?
  }

  predicate NoneOrEnded(sessions: seq<Session>, n: Option<nat>) {
    n.Some? ==> Ended(sessions, n.value)
  }

  /** Sessions change only this way: none vanishes, reopens or changes its reason. */
  predicate Grows(a: seq<Session>, b: seq<Session>) {
    |a| <= |b| && forall n :: 0 <= n < |a| && a[n].closed.Some? ==> b[n].closed == a[n].closed
  }

  predicate SessionOk(s: State, n: nat)
    requires n < |s.sessions|
  {
    var x := s.sessions[n];
    && (x.freed ==> x.closed.Some?)
    && (x.closed.None? ==> n in s.attached ==> Within(x, x.policy))
    && (n !in s.attached ==> x.requests == 0 && x.bytes == 0)
  }

  /** Attachments, and that all but the current one are closed. */
  ghost predicate OneCurrent(s: State) {
    && (s.server.session.Some? ==> s.server.session.value in s.attached)
    && (forall n :: n in s.attached ==> n < |s.sessions|)
    && (forall n :: n in s.attached && s.server.session != Some(n) ==> Ended(s.sessions, n))
  }

  /** The session offered for acceptance carries the server's policy. */
  predicate Offered(s: State) {
    s.server.Open? && s.server.ready.Some? ==>
      && s.server.ready == s.server.session && s.server.ready.value !in s.accepted
      && s.server.ready.value < |s.sessions|
      && (s.sessions[s.server.ready.value].closed.None? ==>
            s.sessions[s.server.ready.value].policy == s.server.policy)
  }

  predicate ReaderOk(s: State) {
    match s.reader
    case Attaching(n) => n + 1 == |s.sessions| && n !in s.attached
    case Replacing(n, previous) =>
      && n + 1 == |s.sessions| && n !in s.attached
      && (if previous.Some? then s.server.session == previous else NoneOrEnded(s.sessions, s.server.session))
    case Installing(n) => n + 1 == |s.sessions| && n !in s.attached && NoneOrEnded(s.sessions, s.server.session)
    case Refused(n) => n + 1 == |s.sessions| && n !in s.attached && s.server.Closed?
    case _ => true
  }

  predicate CloserOk(s: State, c: Closer) {
    match c
    case Away => true
    case Captured(session, _, _) =>
      && s.server.Closed?
      && (if session.Some? then s.server.session == session else NoneOrEnded(s.sessions, s.server.session))
    case _ => s.server.Closed? && NoneOrEnded(s.sessions, s.server.session)
  }

  /** A wakeup of the accepter is still to come. */
  ghost predicate WakeupOwed(s: State) {
    s.reader.Announcing? || exists t :: t in s.closers && (s.closers[t].Captured? || s.closers[t].Shouting?)
  }

  /** The accepter sleeps only with nothing to return, or with a wakeup on its way. */
  ghost predicate SleepsWell(s: State) {
    s.asleep ==> (s.server.Open? && s.server.ready.None?) || WakeupOwed(s)
  }

  ghost predicate Inv(s: State) {
    && OneCurrent(s) && Offered(s) && ReaderOk(s) && SleepsWell(s)
    && (forall n :: n in s.accepted ==> n in s.attached)
    && (forall n :: 0 <= n < |s.sessions| ==> SessionOk(s, n))
    && (forall t :: t in s.closers ==> CloserOk(s, s.closers[t]))
  }

  lemma StepGrows(s: State, step: Step)
    ensures Grows(s.sessions, Do(s, step).sessions)
  {
  }

  /** A weak reference fails only when the session has ended. */
  lemma UpgradeFails(s: State)
    requires Inv(s)
    ensures Upgrade(s.sessions, s.server.session).None? ==> NoneOrEnded(s.sessions, s.server.session)
  {
    if s.server.session.Some? {
      assert SessionOk(s, s.server.session.value);
    }
  }

  lemma ReadCurrent(s: State)
    requires OneCurrent(s) && ReaderOk(s)
    ensures OneCurrent(ReaderGoes(s))
  {
  }

  lemma CloseCurrent(s: State, t: nat, reason: Reason)
    requires OneCurrent(s)
    ensures OneCurrent(Closing(s, t, reason)) && OneCurrent(CloserGoes(s, t))
  {
  }

  lemma OtherCurrent(s: State, step: Step)
    requires OneCurrent(s) && !step.Read? && !step.Close? && !step.Go?
    ensures OneCurrent(Do(s, step))
  {
  }

  lemma StepCurrent(s: State, step: Step)
    requires Inv(s)
    ensures OneCurrent(Do(s, step))
  {
    match step
    case Read => ReadCurrent(s);
    case Close(t, reason) => CloseCurrent(s, t, reason);
    case Go(t) => CloseCurrent(s, t, LocalClose);
    case _ => OtherCurrent(s, step);
  }

  lemma StepOffered(s: State, step: Step)
    requires Inv(s)
    ensures Offered(Do(s, step))
  {
    UpgradeFails(s);
  }

  lemma StepReader(s: State, step: Step)
    requires Inv(s)
    ensures ReaderOk(Do(s, step))
  {
    UpgradeFails(s);
    StepGrows(s, step);
  }

  lemma StepAccepted(s: State, step: Step)
    requires Inv(s)
    ensures forall n :: n in Do(s, step).accepted ==> n in Do(s, step).attached
    ensures s.attached <= Do(s, step).attached
  {
  }

  lemma StepSession(s: State, step: Step, n: nat)
    requires Inv(s) && n < |Do(s, step).sessions|
    ensures SessionOk(Do(s, step), n)
  {
    if n < |s.sessions| {
      assert SessionOk(s, n);
      if step.Read? {
        ReadSession(s, n);
      } else if step.Go? || step.Close? {
        CloseSession(s, step, n);
      }
    }
  }

  lemma CloseSession(s: State, step: Step, n: nat)
    requires n < |s.sessions| && SessionOk(s, n) && (step.Go? || step.Close?)
    ensures n < |Do(s, step).sessions| && SessionOk(Do(s, step), n)
  {
  }

  lemma ReadSession(s: State, n: nat)
    requires ReaderOk(s) && n < |s.sessions| && SessionOk(s, n)
    ensures n < |ReaderGoes(s).sessions| && SessionOk(ReaderGoes(s), n)
  {
  }

  lemma StepSessions(s: State, step: Step)
    requires Inv(s)
    ensures var r := Do(s, step);
            && (forall n :: n in r.accepted ==> n in r.attached)
            && forall n :: 0 <= n < |r.sessions| ==> SessionOk(r, n)
  {
    StepAccepted(s, step);
    forall n | 0 <= n < |Do(s, step).sessions| ensures SessionOk(Do(s, step), n) {
      StepSession(s, step, n);
    }
  }

  lemma StepClosers(s: State, step: Step)
    requires Inv(s)
    ensures var r := Do(s, step); forall t :: t in r.closers ==> CloserOk(r, r.closers[t])
  {
    UpgradeFails(s);
    StepGrows(s, step);
  }

  /** A closer that has yet to wake the accepter, unless this step did, still has to. */
  lemma OwedStays(s: State, step: Step, t: nat)
    requires t in s.closers && (s.closers[t].Captured? || s.closers[t].Shouting?)
    ensures var r := Do(s, step);
            !r.asleep || (t in r.closers && (r.closers[t].Captured? || r.closers[t].Shouting?))
  {
  }

  lemma StepSleeps(s: State, step: Step)
    requires SleepsWell(s)
    ensures SleepsWell(Do(s, step))
  {
    var r := Do(s, step);
    if t :| t in s.closers && (s.closers[t].Captured? || s.closers[t].Shouting?) {
      OwedStays(s, step, t);
    } else if step.Close? && s.server.Open? && r.server.Closed? {
      assert r.closers[step.thread].Captured?;
    }
  }

  lemma StepKeeps(s: State, step: Step)
    requires Inv(s)
    ensures Inv(Do(s, step))
  {
    StepSleeps(s, step);
    StepCurrent(s, step);
    StepOffered(s, step);
    StepReader(s, step);
    StepSessions(s, step);
    StepClosers(s, step);
  }

  lemma {:induction false} RunKeeps(s: State, steps: seq<Step>)
    requires Inv(s)
    ensures Inv(Run(s, steps)) && Grows(s.sessions, Run(s, steps).sessions)
  {
    if steps != [] {
      var m := Run(s, steps[..|steps| - 1]);
      RunKeeps(s, steps[..|steps| - 1]);
      StepKeeps(m, steps[|steps| - 1]);
      StepGrows(m, steps[|steps| - 1]);
    }
  }

  // ---------------------------------------------------------------------------
  // Every run

  /** At any time, every session attached before the current one is closed, with its first reason for good. */
  lemma EarlierSessionsClosed(policy: Policy, before: seq<Step>, after: seq<Step>, n: nat)
    requires var s := Run(Init(policy), before); n in s.attached && s.server.session != Some(n)
    ensures var s := Run(Init(policy), before); var r := Run(s, after);
            Ended(s.sessions, n) && Ended(r.sessions, n) && r.sessions[n].closed == s.sessions[n].closed
  {
    RunKeeps(Init(policy), before);
    RunKeeps(Run(Init(policy), before), after);
  }

  /**
   What `accept` returns is the newest attached session, never returned before,
   which if still open carries the server's policy and respects it.
   */
  lemma AcceptedUnderPolicy(policy: Policy, steps: seq<Step>)
    requires var s := Run(Init(policy), steps); s.server.Open? && s.server.ready.Some?
    ensures var s := Run(Init(policy), steps); var n := s.server.ready.value; var r := Do(Do(s, Spurious), Accept);
            && r.accepted == s.accepted + [n] && n !in s.accepted && s.server.session == Some(n)
            && n < |s.sessions| && r.sessions == s.sessions
            && (s.sessions[n].closed.None? ==>
                  s.sessions[n].policy == s.server.policy && Within(s.sessions[n], s.server.policy))
  {
    RunKeeps(Init(policy), steps);
    var s := Run(Init(policy), steps);
    assert SessionOk(s, s.server.ready.value);
  }

  /**
   No lost session: in every run, when the accepter sleeps and neither the reader nor
   a closing thread is about to wake it, the server is open and nothing is ready.
   */
  lemma NoLostSession(policy: Policy, steps: seq<Step>)
    ensures var s := Run(Init(policy), steps);
            s.asleep && !WakeupOwed(s) ==> s.server.Open? && s.server.ready.None?
  {
    RunKeeps(Init(policy), steps);
  }

  /** Attaching applies the policy without closing the session, whatever the policy is. */
  lemma AttachingHarmless(policy: Policy, steps: seq<Step>)
    requires var s := Run(Init(policy), steps); s.reader.Installing? && s.server.Open?
    ensures var s := Run(Init(policy), steps); var n := s.reader.newest; var r := Do(s, Read);
            && n < |s.sessions| && r.server.session == r.server.ready == Some(n)
            && r.sessions[n].closed == s.sessions[n].closed
            && (r.sessions[n].closed.None? ==> r.sessions[n].policy == s.server.policy)
  {
    RunKeeps(Init(policy), steps);
    var s := Run(Init(policy), steps);
    assert SessionOk(s, s.reader.newest);
  }

  /**
   Once any `close` has returned, every session ever attached is closed, and no
   session is attached or accepted any more.
   */
  lemma CloseEndsAll(policy: Policy, before: seq<Step>, t: nat, after: seq<Step>)
    requires var s := Run(Init(policy), before); t in s.closers && s.closers[t].Returned?
    ensures var s := Run(Init(policy), before); var r := Run(s, after);
            && r.server == s.server && s.server.Closed? && r.attached == s.attached && r.accepted == s.accepted
            && forall n :: n in r.attached ==> Ended(r.sessions, n)
  {
    var s := Run(Init(policy), before);
    RunKeeps(Init(policy), before);
    assert CloserOk(s, s.closers[t]);
    StaysClosed(s, after);
    RunKeeps(s, after);
    assert forall n :: n in s.attached ==> Ended(s.sessions, n);
  }

  /** A closed server keeps its first reason, and nothing is attached or accepted. */
  lemma {:induction false} StaysClosed(s: State, steps: seq<Step>)
    requires s.server.Closed?
    ensures var r := Run(s, steps);
            r.server == s.server && r.attached == s.attached && r.accepted == s.accepted
  {
    if steps != [] {
      StaysClosed(s, steps[..|steps| - 1]);
    }
  }

  // ---------------------------------------------------------------------------
  // What the calls achieve

  /** The current session, which is still there and open. */
  predicate Current(s: State, n: nat) {
    s.server.Open? && s.server.session == Some(n) && n < |s.sessions| && s.sessions[n].closed.None?
  }

  /**
   New limits become the server's and, accepted or not, those of the current session,
   which is closed exactly if it exceeds them; every other session is left alone.
   */
  lemma LimitsReachCurrent(policy: Policy, steps: seq<Step>, n: nat, requests: nat, bytes: nat)
    requires Current(Run(Init(policy), steps), n)
    ensures var s := Run(Init(policy), steps); var r := Do(s, SetLimits(requests, bytes)); var x := s.sessions[n];
            && r.server.Open? && r.server.policy == Policy(requests, bytes, s.server.policy.autoreply)
            && |r.sessions| == |s.sessions|
            && r.sessions[n].policy == Policy(requests, bytes, x.policy.autoreply)
            && (r.sessions[n].closed ==
                if x.requests <= requests && x.bytes <= bytes then None else Some(LimitExceeded))
            && forall m :: 0 <= m < |s.sessions| && m != n ==> r.sessions[m] == s.sessions[m]
  {
    RunKeeps(Init(policy), steps);
    assert SessionOk(Run(Init(policy), steps), n);
  }

  lemma AutoreplyReachesCurrent(policy: Policy, steps: seq<Step>, n: nat, autoreply: nat)
    requires Current(Run(Init(policy), steps), n)
    ensures var s := Run(Init(policy), steps); var r := Do(s, SetAutoreply(autoreply));
            && r.server.Open? && r.server.policy == s.server.policy.(autoreply := autoreply)
            && |r.sessions| == |s.sessions| && r.sessions[n].closed.None?
            && r.sessions[n].policy == s.sessions[n].policy.(autoreply := autoreply)
            && forall m :: 0 <= m < |s.sessions| && m != n ==> r.sessions[m] == s.sessions[m]
  {
    RunKeeps(Init(policy), steps);
    assert SessionOk(Run(Init(policy), steps), n);
  }

  /**
   A new connection that is handled without interruption replaces the current session:
   the old one is closed as reset, the new one is offered under the server's policy, and
   the accepter is awake.
   */
  lemma ConnectionAttaches(policy: Policy, steps: seq<Step>, defaults: Policy)
    requires var s := Run(Init(policy), steps); s.server.Open? && s.reader.Receiving?
    ensures var s := Run(Init(policy), steps); var n := |s.sessions|;
            var r := Do(Do(Do(Do(Do(Do(s, Connect(defaults)), Read), Read), Read), Read), Read);
            && r.reader.Receiving? && !r.asleep && |r.sessions| == n + 1
            && r.server == Open(s.server.policy, Some(n), Some(n)) && n in r.attached
            && r.sessions[n].closed.None? && r.sessions[n].policy == s.server.policy
            && (s.server.session.Some? ==>
                  var m := s.server.session.value;
                  && m < n && r.sessions[m].closed ==
                     if s.sessions[m].closed.Some? then s.sessions[m].closed else Some(SessionReset))
  {
    var s := Run(Init(policy), steps);
    RunKeeps(Init(policy), steps);
    UpgradeFails(s);
    OldOffer(s);
    Attaches(s, defaults);
  }

  lemma Attaches(s: State, defaults: Policy)
    requires s.server.Open? && s.reader.Receiving?
    requires s.server.ready.Some? ==> s.server.ready == s.server.session
    requires s.server.session.Some? ==> s.server.session.value < |s.sessions|
    requires Upgrade(s.sessions, s.server.session).None? ==> NoneOrEnded(s.sessions, s.server.session)
    ensures var n := |s.sessions|;
            var r := Do(Do(Do(Do(Do(Do(s, Connect(defaults)), Read), Read), Read), Read), Read);
            && r.reader.Receiving? && !r.asleep && |r.sessions| == n + 1
            && r.server == Open(s.server.policy, Some(n), Some(n)) && n in r.attached
            && r.sessions[n].closed.None? && r.sessions[n].policy == s.server.policy
            && (s.server.session.Some? ==>
                  var m := s.server.session.value;
                  r.sessions[m].closed ==
                  if s.sessions[m].closed.Some? then s.sessions[m].closed else Some(SessionReset))
  {
    var n := |s.sessions|;
    var previous := Upgrade(s.sessions, s.server.session);
    var a := Do(s, Connect(defaults));
    assert a.reader == Attaching(n) && a.server == s.server;
    var b := Do(a, Read);
    assert b.reader == Replacing(n, previous);
    var c := Do(b, Read);
    assert c.reader == Installing(n) && c.sessions == ShutAt(a.sessions, previous, SessionReset);
    var d := Do(c, Read);
    assert d.reader == Announcing(s.server.ready) && d.server == Open(s.server.policy, Some(n), Some(n));
    var e := Do(d, Read);
    assert e.reader == Dropping(s.server.ready) && !e.asleep && e.sessions == d.sessions;
  }

  lemma OldOffer(s: State)
    requires Inv(s) && s.server.Open?
    ensures s.server.ready.Some? ==> s.server.ready == s.server.session
  {
  }

  /** A close that runs alone closes the server and its current session with its reason, and wakes the accepter. */
  lemma CloseCompletes(policy: Policy, steps: seq<Step>, t: nat, reason: Reason)
    requires var s := Run(Init(policy), steps); s.server.Open? && t !in s.closers
    ensures var s := Run(Init(policy), steps);
            var r := Do(Do(Do(Do(s, Close(t, reason)), Go(t)), Go(t)), Go(t));
            && r.server == Closed(reason, s.server.session) && t in r.closers && r.closers[t].Returned? && !r.asleep
            && (s.server.session.Some? ==>
                  var m := s.server.session.value;
                  && m < |s.sessions| == |r.sessions| && r.sessions[m].closed ==
                     if s.sessions[m].closed.Some? then s.sessions[m].closed else Some(reason))
  {
    var s := Run(Init(policy), steps);
    RunKeeps(Init(policy), steps);
    UpgradeFails(s);
    OldOffer(s);
    var a := Do(s, Close(t, reason));
    assert a.closers[t] == Captured(Upgrade(s.sessions, s.server.session), s.server.ready, reason);
    var b := Do(a, Go(t));
    assert b.closers[t] == Shouting(s.server.ready);
    var c := Do(b, Go(t));
    assert c.closers[t] == Releasing(s.server.ready) && !c.asleep && c.sessions == b.sessions;
  }

  /** An awake accepter takes what is ready, learns that the server is closed, or goes to sleep. */
  lemma AcceptAnswers(policy: Policy, steps: seq<Step>)
    requires !Run(Init(policy), steps).asleep
    ensures var s := Run(Init(policy), steps); var r := Do(s, Accept);
            if s.server.Closed? then r == s
            else if s.server.ready.Some?
            then
              && r.accepted == s.accepted + [s.server.ready.value]
              && r.server.Open? && r.server.ready.None? && !r.asleep
            else r.asleep && r.accepted == s.accepted
  {
  }

  /** An accepted session that is open takes the policy its owner gives it, and is closed exactly if it exceeds it. */
  lemma OwnerAdjusts(policy: Policy, steps: seq<Step>, n: nat, p: Policy)
    requires var s := Run(Init(policy), steps); n in s.accepted && n < |s.sessions| && s.sessions[n].closed.None?
    ensures var s := Run(Init(policy), steps); var r := Do(s, Adjust(n, p)); var x := s.sessions[n];
            && |r.sessions| == |s.sessions| && r.server == s.server
            && r.sessions[n].policy.requests == p.requests && r.sessions[n].policy.bytes == p.bytes
            && (if x.requests <= p.requests && x.bytes <= p.bytes
                then r.sessions[n].closed.None? && r.sessions[n].policy == p
                else r.sessions[n].closed == Some(LimitExceeded))
  {
  }

  /** A connection that comes after the server closed is closed at once, and the reader stops. */
  lemma ConnectionRefused(policy: Policy, steps: seq<Step>, defaults: Policy)
    requires var s := Run(Init(policy), steps); s.server.Closed? && s.reader.Receiving?
    ensures var s := Run(Init(policy), steps); var n := |s.sessions|;
            var r := Do(Do(Do(s, Connect(defaults)), Read), Read);
            && r.reader.Stopped? && r.server == s.server && |r.sessions| == n + 1
            && r.sessions[n].closed == Some(LocalClose) && n !in r.attached
  {
    RunKeeps(Init(policy), steps);
    var s := Run(Init(policy), steps);
    var a := Do(s, Connect(defaults));
    assert a.reader == Attaching(|s.sessions|);
    assert Do(a, Read).reader == Refused(|s.sessions|);
  }
}
