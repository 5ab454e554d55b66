/** Where the telemetry loop is, told from the answers it was given. Telemetry says what one
    step does; here the position after any number of steps is read off the last answers that
    decide it. */
module TelemetryCourse {
  import opened Common
  import opened EdgeBuffer
  import opened Histories
  import opened Telemetry

  /** The states a run goes through, the first and the last included. */
  function Trace(s0: State, script: seq<Env>): (states: seq<State>)
    ensures |states| == |script| + 1
    ensures forall n :: 0 <= n <= |script| ==> states[n] == Run(s0, script[..n])
  {
    seq(|script| + 1, n requires 0 <= n <= |script| => Run(s0, script[..n]))
  }

  lemma TraceSteps(s0: State, script: seq<Env>)
    ensures var states := Trace(s0, script);
            states[0] == s0 && forall k :: 0 <= k < |script| ==> states[k + 1] == Step(states[k], script[k])
  {
    forall k | 0 <= k < |script|
      ensures Trace(s0, script)[k + 1] == Step(Trace(s0, script)[k], script[k])
    {
      RunSnoc(s0, script, k);
    }
  }

  // ------------------------------------------------- sessions and pauses

  /** Connected: replaying or in the publish session. */
  predicate InSession(s: State) {
    s.pc.Drain? || Connected(s.pc)
  }

  predicate Dials(s: State, e: Env) {
    s.pc.Connect? && e.connects
  }

  /** A select that gives Done or Closed, or a connection test that finds none. */
  predicate Leaves(s: State, e: Env) {
    (s.pc.Select? && (e.choice.Done? || e.choice.Closed?)) || ((s.pc.Check? || s.pc.Recheck?) && !e.connected)
  }

  predicate Pausing(s: State) {
    s.pc.PostSession?
  }

  predicate Wakes(s: State, e: Env) {
    e.choice.Done? || e.choice.Tick?
  }

  lemma StepSessions(s: State, e: Env)
    ensures InSession(Step(s, e)) <==> Dials(s, e) || (InSession(s) && !Leaves(s, e))
    ensures Pausing(Step(s, e)) <==> Leaves(s, e) || (Pausing(s) && !Wakes(s, e))
  {
  }

  /** In every run the loop is in a session exactly if it has dialed successfully and since
      then no select gave Done or Closed and no connection test failed; a failed publish
      alone never ends one. And it is in the pause after one exactly if one was so left and
      neither Done nor the end of the pause has come since. */
  lemma Sessions(fallback: bool, interval: int, script: seq<Env>, n: nat)
    requires n <= |script|
    ensures var states := Trace(Init(fallback, interval), script);
            (InSession(states[n]) <==> SinceLast(states, script, Dials, Leaves, n)) &&
            (Pausing(states[n]) <==> SinceLast(states, script, Leaves, Wakes, n))
  {
    var states := Trace(Init(fallback, interval), script);
    TraceSteps(Init(fallback, interval), script);
    forall k | 0 <= k < |script|
      ensures InSession(states[k + 1]) <==>
              Dials(states[k], script[k]) || (InSession(states[k]) && !Leaves(states[k], script[k]))
      ensures Pausing(states[k + 1]) <==>
              Leaves(states[k], script[k]) || (Pausing(states[k]) && !Wakes(states[k], script[k]))
    {
      StepSessions(states[k], script[k]);
    }
    LastsSince(states, script, InSession, Dials, Leaves, n);
    LastsSince(states, script, Pausing, Leaves, Wakes, n);
  }

  // -------------------------------------------------------------- outages

  /** Emptying the event channel while offline. */
  predicate Emptying(s: State) {
    s.pc.FallbackDrain? || s.pc.BufferDrain?
  }

  predicate Sleeping(s: State) {
    s.pc.FallbackWait? || s.pc.BackoffWait?
  }

  predicate Misses(s: State, e: Env) {
    s.pc.Connect? && !e.connects
  }

  /** With a fallback a new interval does not end the wait, but starts it anew. */
  predicate Again(s: State, e: Env) {
    s.pc.FallbackWait? && e.choice.NewInterval?
  }

  predicate Empties(s: State, e: Env) {
    Misses(s, e) || Again(s, e)
  }

  predicate NoPayload(s: State, e: Env) {
    !e.choice.Payload?
  }

  predicate Emptied(s: State, e: Env) {
    Emptying(s) && !e.choice.Payload?
  }

  predicate WakesOrAgain(s: State, e: Env) {
    Wakes(s, e) || Again(s, e)
  }

  lemma StepOutages(s: State, e: Env)
    ensures Emptying(Step(s, e)) <==> Empties(s, e) || (Emptying(s) && !NoPayload(s, e))
    ensures Sleeping(Step(s, e)) <==> Emptied(s, e) || (Sleeping(s) && !WakesOrAgain(s, e))
  {
  }

  /** In every run the loop empties the channel exactly if a dial failed, or a fallback wait
      gave a new interval, and the channel has had a payload at every step since. It sleeps
      exactly if the channel so emptied was found without one and neither Done nor the end
      of the sleep nor, with a fallback, a new interval has come since. */
  lemma Outages(fallback: bool, interval: int, script: seq<Env>, n: nat)
    requires n <= |script|
    ensures var states := Trace(Init(fallback, interval), script);
            (Emptying(states[n]) <==> SinceLast(states, script, Empties, NoPayload, n)) &&
            (Sleeping(states[n]) <==> SinceLast(states, script, Emptied, WakesOrAgain, n))
  {
    var states := Trace(Init(fallback, interval), script);
    TraceSteps(Init(fallback, interval), script);
    forall k | 0 <= k < |script|
      ensures Emptying(states[k + 1]) <==>
              Empties(states[k], script[k]) || (Emptying(states[k]) && !NoPayload(states[k], script[k]))
      ensures Sleeping(states[k + 1]) <==>
              Emptied(states[k], script[k]) || (Sleeping(states[k]) && !WakesOrAgain(states[k], script[k]))
    {
      StepOutages(states[k], script[k]);
    }
    LastsSince(states, script, Emptying, Empties, NoPayload, n);
    LastsSince(states, script, Sleeping, Emptied, WakesOrAgain, n);
  }

  /** A way of being offline that fits the configuration. */
  predicate Fitting(s: State, fallback: bool) {
    s.fallback == fallback &&
    (s.pc.FallbackDrain? || s.pc.FallbackWait? ==> fallback) &&
    (s.pc.BufferDrain? || s.pc.BackoffWait? ==> !fallback)
  }

  lemma StepFitting(s: State, e: Env, fallback: bool)
    requires Fitting(s, fallback)
    ensures Fitting(Step(s, e), fallback)
  {
  }

  /** Which of the two ways of being offline the loop takes is a matter of configuration. */
  lemma {:induction false} FallbackOnly(fallback: bool, interval: int, script: seq<Env>)
    ensures Fitting(Run(Init(fallback, interval), script), fallback)
  {
    if script != [] {
      FallbackOnly(fallback, interval, script[..|script| - 1]);
      StepFitting(Run(Init(fallback, interval), script[..|script| - 1]), script[|script| - 1], fallback);
    }
  }

  // --------------------------------------------- starting and stopping

  predicate AtTop(s: State) {
    s.pc.Top?
  }

  predicate Dialing(s: State) {
    s.pc.Connect?
  }

  predicate IsStopped(s: State) {
    s.pc.Stopped?
  }

  /** The end of a sleep, of a fallback wait or of a pause. */
  predicate TimesOut(s: State, e: Env) {
    (Sleeping(s) || Pausing(s)) && e.choice.Tick?
  }

  /** Done, at the top, in a sleep, in a fallback wait or in a pause. */
  predicate Stops(s: State, e: Env) {
    (AtTop(s) || Sleeping(s) || Pausing(s)) && e.choice.Done?
  }

  lemma StepStarts(s: State, e: Env)
    ensures AtTop(Step(s, e)) <==> TimesOut(s, e)
    ensures Dialing(Step(s, e)) <==> AtTop(s) && !e.choice.Done?
    ensures IsStopped(Step(s, e)) <==> Stops(s, e) || IsStopped(s)
  {
  }

  predicate Never(s: State, e: Env) {
    false
  }

  /** In every run the loop has stopped exactly if Done was given at the top, in a sleep, in
      a fallback wait or in a pause; it dials right after it was at the top and not done, and
      is at the top first of all and after each sleep, fallback wait or pause that ends. */
  lemma StartsAndStops(fallback: bool, interval: int, script: seq<Env>, n: nat)
    requires n <= |script|
    ensures var states := Trace(Init(fallback, interval), script);
            (IsStopped(states[n]) <==> SinceLast(states, script, Stops, Never, n)) &&
            (Dialing(states[n]) <==> n > 0 && AtTop(states[n - 1]) && !script[n - 1].choice.Done?) &&
            (AtTop(states[n]) <==> n == 0 || TimesOut(states[n - 1], script[n - 1]))
  {
    var states := Trace(Init(fallback, interval), script);
    TraceSteps(Init(fallback, interval), script);
    forall k | 0 <= k < |script|
      ensures IsStopped(states[k + 1]) <==>
              Stops(states[k], script[k]) || (IsStopped(states[k]) && !Never(states[k], script[k]))
    {
      StepStarts(states[k], script[k]);
    }
    LastsSince(states, script, IsStopped, Stops, Never, n);
    if n > 0 {
      var k := n - 1;
      assert states[k + 1] == Step(states[k], script[k]);
      StepStarts(states[k], script[k]);
    }
  }

  // ------------------------------------------------- interval, JetStream

  function IntervalOf(s: State): int {
    s.interval
  }

  function Duration(e: Env): int {
    match e.choice
    case NewInterval(d) => d
    case _ => 0
  }

  /** A new interval, given in a fallback wait or at the select of a session. */
  predicate SetsInterval(s: State, e: Env) {
    (s.pc.FallbackWait? || s.pc.Select?) && e.choice.NewInterval?
  }

  function JetStreamOf(s: State): bool {
    s.js
  }

  function HasJetStream(e: Env): bool {
    e.jetStream
  }

  lemma StepInForce(s: State, e: Env)
    ensures Step(s, e).interval == if SetsInterval(s, e) then Duration(e) else s.interval
    ensures Step(s, e).js == if Dials(s, e) then HasJetStream(e) else s.js
  {
  }

  /** In every run the interval is the last one a fallback wait or the select of a session
      gave, or else the initial one; and whether there is a JetStream context is what the
      last successful dial found. */
  lemma InForce(fallback: bool, interval: int, script: seq<Env>, n: nat)
    requires n <= |script|
    ensures var states := Trace(Init(fallback, interval), script);
            LastSet(states, script, 0, n, interval, SetsInterval, Duration, states[n].interval) &&
            LastSet(states, script, 0, n, false, Dials, HasJetStream, states[n].js)
  {
    var s0 := Init(fallback, interval);
    var states := Trace(s0, script);
    TraceSteps(s0, script);
    forall k | 0 <= k < |script|
      ensures IntervalOf(states[k + 1])
           == if SetsInterval(states[k], script[k]) then Duration(script[k]) else IntervalOf(states[k])
      ensures JetStreamOf(states[k + 1])
           == if Dials(states[k], script[k]) then HasJetStream(script[k]) else JetStreamOf(states[k])
    {
      StepInForce(states[k], script[k]);
    }
    assert Keeps(states, script, 0, n, IntervalOf, SetsInterval, Duration);
    assert Keeps(states, script, 0, n, JetStreamOf, Dials, HasJetStream);
    KeepsLast(states, script, 0, n, IntervalOf, SetsInterval, Duration);
    KeepsLast(states, script, 0, n, JetStreamOf, Dials, HasJetStream);
    assert IntervalOf(states[0]) == interval && JetStreamOf(states[0]) == false;
  }

  // -------------------------------------------------------------- sleeps

  /** The end of a backoff sleep. */
  predicate Slept(s: State, e: Env) {
    s.pc.BackoffWait? && e.choice.Tick?
  }

  /** The steps that ended a backoff sleep after the last successful dial. */
  ghost function SleepsSinceDial(states: seq<State>, script: seq<Env>, n: nat): set<nat>
    requires n <= |script| < |states|
  {
    set k: nat | k < n && Slept(states[k], script[k]) &&
                 forall j :: k < j < n ==> !Dials(states[j], script[j])
  }

  lemma SleepsNext(states: seq<State>, script: seq<Env>, n: nat)
    requires n < |script| < |states|
    ensures var now, next := SleepsSinceDial(states, script, n), SleepsSinceDial(states, script, n + 1);
            next == if Dials(states[n], script[n]) then {}
                    else if Slept(states[n], script[n]) then now + {n} else now
  {
    var now, next := SleepsSinceDial(states, script, n), SleepsSinceDial(states, script, n + 1);
    forall k: nat
      ensures k in next <==> !Dials(states[n], script[n]) && (k in now || (k == n && Slept(states[n], script[n])))
    {
    }
  }

  lemma StepWaits(s: State, e: Env)
    ensures |Step(s, e).waits| == if Dials(s, e) then 0 else if Slept(s, e) then |s.waits| + 1 else |s.waits|
  {
  }

  ghost predicate WaitsCount(states: seq<State>, script: seq<Env>)
    requires |script| < |states|
  {
    states[0].waits == [] &&
    forall k :: 0 <= k < |script| ==>
      |states[k + 1].waits| == if Dials(states[k], script[k]) then 0
                               else if Slept(states[k], script[k]) then |states[k].waits| + 1
                               else |states[k].waits|
  }

  lemma {:induction false} WaitsCounted(states: seq<State>, script: seq<Env>, n: nat)
    requires n <= |script| < |states| && WaitsCount(states, script)
    ensures |states[n].waits| == |SleepsSinceDial(states, script, n)|
  {
    if n > 0 {
      var k := n - 1;
      WaitsCounted(states, script, k);
      SleepsNext(states, script, k);
      assert |states[k + 1].waits| == if Dials(states[k], script[k]) then 0
                                      else if Slept(states[k], script[k]) then |states[k].waits| + 1
                                      else |states[k].waits|;
    } else {
      assert SleepsSinceDial(states, script, 0) == {};
    }
  }

  /** The backoff starts from the beginning after every successful dial: its place in the
      schedule is the number of sleeps that have ended since the last one. */
  lemma SleepsCounted(fallback: bool, interval: int, script: seq<Env>, n: nat)
    requires n <= |script|
    ensures var states := Trace(Init(fallback, interval), script);
            states[n].backoff == WaitOf(|SleepsSinceDial(states, script, n)|)
  {
    var states := Trace(Init(fallback, interval), script);
    TraceSteps(Init(fallback, interval), script);
    forall k | 0 <= k < |script|
      ensures |states[k + 1].waits| == if Dials(states[k], script[k]) then 0
                                       else if Slept(states[k], script[k]) then |states[k].waits| + 1
                                       else |states[k].waits|
    {
      StepWaits(states[k], script[k]);
    }
    WaitsCounted(states, script, n);
    Backoff(fallback, interval, script[..n]);
  }

  // ----------------------------------------------------- one payload's course

  /** The event was put into the buffer last, with this stamp. */
  predicate BufferedLast(l: Ledger, id: nat, stamp: int) {
    l.buffer != [] && l.buffer[|l.buffer| - 1] == Entry(id, stamp)
  }

  lemma TakesIt(s: State, payload: Bytes, e: Env)
    requires s.pc.Select? && s.ledger.inflight == [] && e.choice == Payload(payload)
    ensures var s', id := Step(s, e), |s.ledger.received|;
            s'.pc == Check && s'.js == s.js && s'.ledger.inflight == [id] && s'.ledger.handed == s.ledger.handed &&
            s'.ledger.received == s.ledger.received + [Receipt(payload, e.now)]
  {
  }

  lemma ChecksIt(s: State, id: nat, e: Env)
    requires s.pc.Check? && s.ledger.inflight == [id]
    ensures e.connected ==> Step(s, e) == s.(pc := Send)
    ensures !e.connected ==> Step(s, e).pc == PostSession && BufferedLast(Step(s, e).ledger, id, e.now)
  {
  }

  lemma SendsIt(s: State, id: nat, e: Env)
    requires s.pc.Send? && s.ledger.inflight == [id]
    ensures !s.js || e.acked ==>
              Step(s, e).pc == Select &&
              Step(s, e).ledger.handed == s.ledger.handed + [HandOff(id, if s.js then JetStream else Core)]
    ensures s.js && !e.acked ==>
              Step(s, e).pc == Recheck && BufferedLast(Step(s, e).ledger, id, e.now)
  {
  }

  lemma RechecksIt(s: State, id: nat, stamp: int, e: Env)
    requires s.pc.Recheck? && BufferedLast(s.ledger, id, stamp)
    ensures if e.connected then Step(s, e).pc == Select && id in Step(s, e).ledger.refused
            else Step(s, e).pc == PostSession
  {
  }

  /** What is done with a payload, given the states the four steps lead to. */
  predicate Handled(s: State, payload: Bytes, take: Env, check: Env, send: Env, again: Env, s1: State, s2: State,
      s3: State, s4: State)
  {
    var id := |s.ledger.received|;
    s1.ledger.received == s.ledger.received + [Receipt(payload, take.now)] &&
    if !check.connected then
      s2.pc == PostSession && BufferedLast(s2.ledger, id, check.now)
    else if !s.js || send.acked then
      s3.pc == Select && s3.ledger.handed == s.ledger.handed + [HandOff(id, if s.js then JetStream else Core)]
    else
      BufferedLast(s3.ledger, id, send.now) &&
      if again.connected then s4.pc == Select && id in s4.ledger.refused else s4.pc == PostSession
  }

  /** What becomes of a payload the select of a session gives. It is received. If the
      connection test then fails, it is buffered and the session is left. Otherwise it is
      published, and handed off if there is no JetStream context or the publish is
      acknowledged. If it is not, it is buffered, and the loop is back at the select, the
      event refused, if the connection test after that succeeds. */
  lemma PayloadCourse(fallback: bool, interval: int, script: seq<Env>, payload: Bytes, take: Env, check: Env, send: Env,
      again: Env)
    requires Run(Init(fallback, interval), script).pc.Select? && take.choice == Payload(payload)
    ensures var s := Run(Init(fallback, interval), script);
            var s1 := Step(s, take);
            var s2 := Step(s1, check);
            var s3 := Step(s2, send);
            Handled(s, payload, take, check, send, again, s1, s2, s3, Step(s3, again))
  {
    var s := Run(Init(fallback, interval), script);
    var id := |s.ledger.received|;
    AlwaysInSession(fallback, interval, script);
    TakesIt(s, payload, take);
    var s1 := Step(s, take);
    ChecksIt(s1, id, check);
    if check.connected {
      var s2 := s1.(pc := Send);
      SendsIt(s2, id, send);
      if s2.js && !send.acked {
        RechecksIt(Step(s2, send), id, send.now, again);
      }
    }
  }

  /** A replay of n drained events is over, and the session at its select, after one step
      for each and one more, with all of them handed off in order. */
  lemma ReplayEnds(s: State, script: seq<Env>)
    requires s.pc.Replay? && |script| == |s.ledger.inflight| + 1
    ensures var s' := Run(s, script);
            s'.pc == Select && s'.ledger.inflight == [] &&
            HandedIds(s'.ledger.handed) == HandedIds(s.ledger.handed) + s.ledger.inflight
  {
    var before := script[..|script| - 1];
    ReplayHandsAll(s, before);
    assert s.ledger.inflight[..|before|] == s.ledger.inflight;
  }
}
