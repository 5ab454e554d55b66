/** Runs of the telemetry loop that reach the limits Telemetry and PublishCalls state: an
    event buffered when a late sleep of an outage begins, and an event published three
    times. */
module TelemetryRuns {
  import opened Common
  import opened EdgeBuffer
  import opened PublishCalls
  import opened Telemetry

  // --------------------------------------------- runs from the front

  /** The state a script leads to, read from its front. */
  function Leads<S, E>(step: (S, E) -> S, s: S, script: seq<E>): S {
    if script == [] then s else Leads(step, step(s, script[0]), script[1..])
  }

  /** What its steps put out. */
  function Yields<S, E, O>(step: (S, E) -> S, out: (S, E) -> seq<O>, s: S, script: seq<E>): seq<O> {
    if script == [] then [] else out(s, script[0]) + Yields(step, out, step(s, script[0]), script[1..])
  }

  lemma {:induction false} LeadsConcat<S, E, O>(step: (S, E) -> S, out: (S, E) -> seq<O>, s: S, a: seq<E>, b: seq<E>)
    ensures Leads(step, s, a + b) == Leads(step, Leads(step, s, a), b)
    ensures Yields(step, out, s, a + b) == Yields(step, out, s, a) + Yields(step, out, Leads(step, s, a), b)
  {
    if a == [] {
      assert a + b == b;
    } else {
      var s1, rest := step(s, a[0]), a[1..];
      LeadsConcat(step, out, s1, rest, b);
      assert (a + b)[1..] == rest + b;
      ConcatAssoc(out(s, a[0]), Yields(step, out, s1, rest), Yields(step, out, Leads(step, s1, rest), b));
    }
  }

  lemma LeadsOne<S, E, O>(step: (S, E) -> S, out: (S, E) -> seq<O>, s: S, e: E)
    ensures Leads(step, s, [e]) == step(s, e) && Yields(step, out, s, [e]) == out(s, e)
  {
    assert [e][1..] == [] && out(s, e) + [] == out(s, e);
  }

  lemma LeadsFront<S, E, O>(step: (S, E) -> S, out: (S, E) -> seq<O>, s: S, e: E, rest: seq<E>)
    ensures Leads(step, s, [e] + rest) == Leads(step, step(s, e), rest)
    ensures Yields(step, out, s, [e] + rest) == out(s, e) + Yields(step, out, step(s, e), rest)
  {
    assert ([e] + rest)[1..] == rest;
  }

  lemma LeadsBack<S, E, O>(step: (S, E) -> S, out: (S, E) -> seq<O>, s: S, before: seq<E>, e: E)
    ensures Leads(step, s, before + [e]) == step(Leads(step, s, before), e)
    ensures Yields(step, out, s, before + [e]) == Yields(step, out, s, before) + out(Leads(step, s, before), e)
  {
    LeadsConcat(step, out, s, before, [e]);
    LeadsOne(step, out, Leads(step, s, before), e);
  }

  lemma LeadsFour<S, E, O>(step: (S, E) -> S, out: (S, E) -> seq<O>, s: S, e1: E, e2: E, e3: E, e4: E)
    ensures Leads(step, s, [e1] + ([e2] + ([e3] + [e4]))) == step(step(step(step(s, e1), e2), e3), e4)
    ensures Yields(step, out, s, [e1] + ([e2] + ([e3] + [e4])))
         == out(s, e1) + (out(step(s, e1), e2) +
            (out(step(step(s, e1), e2), e3) + out(step(step(step(s, e1), e2), e3), e4)))
  {
    var s1 := step(s, e1);
    var s2 := step(s1, e2);
    LeadsFront(step, out, s, e1, [e2] + ([e3] + [e4]));
    LeadsFront(step, out, s1, e2, [e3] + [e4]);
    LeadsFront(step, out, s2, e3, [e4]);
    LeadsOne(step, out, step(s2, e3), e4);
  }

  /** The same from the back. */
  function Ends<S, E>(step: (S, E) -> S, s: S, script: seq<E>): S {
    if script == [] then s else step(Ends(step, s, script[..|script| - 1]), script[|script| - 1])
  }

  function Tells<S, E, O>(step: (S, E) -> S, out: (S, E) -> seq<O>, s: S, script: seq<E>): seq<O> {
    if script == [] then []
    else
      var before := script[..|script| - 1];
      Tells(step, out, s, before) + out(Ends(step, s, before), script[|script| - 1])
  }

  lemma {:induction false} FrontAndBack<S, E, O>(step: (S, E) -> S, out: (S, E) -> seq<O>, s: S, script: seq<E>)
    ensures Leads(step, s, script) == Ends(step, s, script)
    ensures Yields(step, out, s, script) == Tells(step, out, s, script)
  {
    if script != [] {
      var before, e := script[..|script| - 1], script[|script| - 1];
      FrontAndBack(step, out, s, before);
      LeadsBack(step, out, s, before, e);
      assert before + [e] == script;
    }
  }

  lemma {:induction false} RunEnds(s: State, script: seq<Env>)
    ensures Run(s, script) == Ends(Step, s, script)
    ensures Calls(s, script) == Tells(Step, CallsOf, s, script)
  {
    if script != [] {
      RunEnds(s, script[..|script| - 1]);
    }
  }

  /** The runs of the telemetry loop, read from the front. */
  lemma RunLeads(s: State, script: seq<Env>)
    ensures Run(s, script) == Leads(Step, s, script)
    ensures Calls(s, script) == Yields(Step, CallsOf, s, script)
  {
    RunEnds(s, script);
    FrontAndBack(Step, CallsOf, s, script);
  }

  /** Nothing happens but a clock reading. */
  function Quiet(now: int): Env {
    Env(now, false, false, false, false, Idle)
  }

  // ------------------------------------------------------ the seventh sleep

  /** A failed dial, with this found in the channel, up to the sleep. */
  function Misses(now: int, found: Choice): seq<Env> {
    [Quiet(now)] + ([Quiet(now)] + ([Quiet(now).(choice := found)] + [Quiet(now)]))
  }

  /** One with nothing found, as far as the end of the sleep that follows it. */
  function Cycle(now: int): seq<Env> {
    [Quiet(now)] + ([Quiet(now)] + ([Quiet(now)] + [Quiet(now).(choice := Tick)]))
  }

  function Cycles(n: nat, now: int): seq<Env> {
    if n == 0 then [] else Cycles(n - 1, now) + Cycle(now)
  }

  lemma AfterCycle(s: State, now: int)
    requires s.pc == Top && !s.fallback
    ensures Leads(Step, s, Cycle(now)) == s.(backoff := Doubled(s.backoff), waits := s.waits + [s.backoff])
  {
    var q, t := Quiet(now), Quiet(now).(choice := Tick);
    LeadsFour(Step, CallsOf, s, q, q, q, t);
    assert Step(s, q) == s.(pc := Connect);
    assert Step(s.(pc := Connect), q) == s.(pc := BufferDrain);
    assert Step(s.(pc := BufferDrain), q) == s.(pc := BackoffWait);
  }

  /** n sleeps of an outage in which nothing is received. */
  lemma {:induction false} AfterCycles(interval: int, n: nat, now: int)
    ensures var s := Leads(Step, Init(false, interval), Cycles(n, now));
            s.pc == Top && !s.fallback && |s.waits| == n && s.ledger == Init(false, interval).ledger
  {
    if n > 0 {
      AfterCycles(interval, n - 1, now);
      LeadsConcat(Step, CallsOf, Init(false, interval), Cycles(n - 1, now), Cycle(now));
      AfterCycle(Leads(Step, Init(false, interval), Cycles(n - 1, now)), now);
    }
  }

  lemma KeptAlone(l: Ledger, payload: Bytes, now: int)
    requires l.buffer == []
    ensures Apply(l, Keep(payload), now).buffer == [Entry(|l.received|, now)]
  {
  }

  lemma AfterMiss(s: State, payload: Bytes, now: int)
    requires s.pc == Top && !s.fallback && s.ledger.buffer == []
    ensures var s' := Leads(Step, s, Misses(now, Payload(payload)));
            s'.pc == BackoffWait && s'.waits == s.waits && s'.ledger.buffer == [Entry(|s.ledger.received|, now)]
  {
    var q, p := Quiet(now), Quiet(now).(choice := Payload(payload));
    LeadsFour(Step, CallsOf, s, q, q, p, q);
    assert Step(s, q) == s.(pc := Connect);
    assert Step(s.(pc := Connect), q) == s.(pc := BufferDrain);
    var s3 := Step(s.(pc := BufferDrain), p);
    KeptAlone(s.ledger, payload, now);
    assert s3.pc == BufferDrain && s3.waits == s.waits && s3.ledger == Apply(s.ledger, Keep(payload), now);
    assert Step(s3, q) == s3.(pc := BackoffWait);
  }

  /** For every n there is a run in which the sleep after n others of an outage begins
      with an event in the buffer. */
  lemma SleepReached(interval: int, n: nat, payload: Bytes, now: int)
    ensures var s := Run(Init(false, interval), Cycles(n, now) + Misses(now, Payload(payload)));
            s.pc == BackoffWait && |s.waits| == n && s.ledger.buffer == [Entry(0, now)]
  {
    var s0 := Init(false, interval);
    RunLeads(s0, Cycles(n, now) + Misses(now, Payload(payload)));
    LeadsConcat(Step, CallsOf, s0, Cycles(n, now), Misses(now, Payload(payload)));
    AfterCycles(interval, n, now);
    AfterMiss(Leads(Step, s0, Cycles(n, now)), payload, now);
  }

  /** So an event can be buffered just before the seventh sleep of an outage; if that sleep
      takes its 320 seconds, the reconnection that ends it finds the event too old. */
  lemma LostInSeventhSleep(interval: int, payload: Bytes, now: int, tick: Env, top: Env, dial: Env, drain: Env)
    requires tick.choice.Tick? && !top.choice.Done? && dial.connects && drain.now >= now + 320 * SECOND
    ensures var s := Run(Init(false, interval), Cycles(6, now) + Misses(now, Payload(payload)));
            var l := Reconnected(s, tick, top, dial, drain).ledger;
            s.ledger.buffer == [Entry(0, now)] && 0 !in l.inflight && Expiry(0, now, drain.now) in l.expired
  {
    SleepReached(interval, 6, payload, now);
    AcrossASleep(false, interval, Cycles(6, now) + Misses(now, Payload(payload)), 0, tick, top, dial, drain);
  }

  // --------------------------------------------------- three publish calls

  /** A connection with JetStream, up to the first replayed event, if there is one. */
  function Opens(now: int): seq<Env> {
    [Quiet(now)] + ([Quiet(now).(connects := true, jetStream := true)] + ([Quiet(now)] + [Quiet(now)]))
  }

  /** An event whose publish fails; the connection is then found down. */
  function FailsLive(payload: Bytes, now: int): seq<Env> {
    [Quiet(now).(choice := Payload(payload))] + ([Quiet(now).(connected := true)] + ([Quiet(now)] + [Quiet(now)]))
  }

  /** The state after the dial of a connection. */
  function Dialed(s: State): State {
    s.(pc := Drain, js := true, backoff := FIRST_BACKOFF, waits := [])
  }

  lemma AfterDial(s: State, now: int)
    requires s.pc == Top
    ensures var s3 := Step(Dialed(s), Quiet(now));
            s3.pc == Replay && s3.js && s3.ledger == Apply(s.ledger, DrainAll, now) &&
            Leads(Step, s, Opens(now)) == Step(s3, Quiet(now)) &&
            Yields(Step, CallsOf, s, Opens(now)) == CallsOf(s3, Quiet(now))
  {
    var q, dial := Quiet(now), Quiet(now).(connects := true, jetStream := true);
    LeadsFour(Step, CallsOf, s, q, dial, q, q);
    assert Step(s, q) == s.(pc := Connect) && CallsOf(s, q) == [];
    assert Step(s.(pc := Connect), dial) == Dialed(s) && CallsOf(s.(pc := Connect), dial) == [];
    assert CallsOf(Dialed(s), q) == [];
    var made := CallsOf(Step(Dialed(s), q), q);
    assert [] + ([] + ([] + made)) == made;
  }

  lemma DrainNothing(l: Ledger, now: int)
    requires l.buffer == [] && l.inflight == []
    ensures Apply(l, DrainAll, now) == l
  {
    assert l.expired + [] == l.expired;
    assert Apply(l, DrainAll, now).inflight == [];
  }

  lemma AfterOpens(s: State, now: int)
    requires s.pc == Top && s.ledger.buffer == [] && s.ledger.inflight == []
    ensures var s' := Leads(Step, s, Opens(now));
            s'.pc == Select && s'.js && s'.ledger == s.ledger && Yields(Step, CallsOf, s, Opens(now)) == []
  {
    AfterDial(s, now);
    DrainNothing(s.ledger, now);
  }

  lemma TakenAlone(l: Ledger, payload: Bytes, now: int)
    requires l.buffer == [] && l.inflight == []
    ensures var l1, id := Apply(l, Take(payload), now), |l.received|;
            l1.inflight == [id] && l1.buffer == [] &&
            Apply(l1, Store, now).buffer == [Entry(id, now)] && Apply(l1, Store, now).inflight == []
  {
  }

  lemma TakeStep(s: State, payload: Bytes, now: int)
    requires s.pc == Select
    ensures var p := Quiet(now).(choice := Payload(payload));
            Step(s, p) == s.(pc := Check, ledger := Apply(s.ledger, Take(payload), now)) && CallsOf(s, p) == []
  {
  }

  lemma CheckStep(s: State, now: int)
    requires s.pc == Check
    ensures var up := Quiet(now).(connected := true);
            Step(s, up) == s.(pc := Send) && CallsOf(s, up) == []
  {
  }

  lemma DownStep(s: State, now: int)
    requires s.pc == Recheck
    ensures Step(s, Quiet(now)) == s.(pc := PostSession) && CallsOf(s, Quiet(now)) == []
  {
  }

  lemma FailStep(s: State, now: int)
    requires s.pc == Send && s.js && s.ledger.inflight != []
    ensures Step(s, Quiet(now)) == s.(pc := Recheck, ledger := Apply(s.ledger, Store, now))
    ensures CallsOf(s, Quiet(now)) == [Failed(s.ledger.inflight[0])]
  {
  }

  lemma AfterFailsLive(s: State, payload: Bytes, now: int)
    requires s.pc == Select && s.js && s.ledger.buffer == [] && s.ledger.inflight == []
    ensures var s', id := Leads(Step, s, FailsLive(payload, now)), |s.ledger.received|;
            s'.pc == PostSession && s'.ledger.buffer == [Entry(id, now)] && s'.ledger.inflight == [] &&
            Yields(Step, CallsOf, s, FailsLive(payload, now)) == [Failed(id)]
  {
    var q, p, up := Quiet(now), Quiet(now).(choice := Payload(payload)), Quiet(now).(connected := true);
    var s1 := s.(pc := Check, ledger := Apply(s.ledger, Take(payload), now));
    var s2 := s1.(pc := Send);
    var s3 := s1.(pc := Recheck, ledger := Apply(s1.ledger, Store, now));
    TakenAlone(s.ledger, payload, now);
    LeadsFour(Step, CallsOf, s, p, up, q, q);
    TakeStep(s, payload, now);
    CheckStep(s1, now);
    FailStep(s2, now);
    DownStep(s3, now);
    assert [] + ([] + ([Failed(|s.ledger.received|)] + [])) == [Failed(|s.ledger.received|)];
  }

  lemma DrainOne(l: Ledger, id: nat, now: int)
    requires l.buffer == [Entry(id, now)] && l.inflight == []
    ensures Apply(l, DrainAll, now).inflight == [id]
  {
    DrainOfYoung(l.buffer, now, MAX_AGE);
    assert Data(l.buffer) == [id];
  }

  /** The end of the pause after a session, and a reconnection whose replay fails again. */
  lemma AfterFailsReplay(s: State, id: nat, now: int)
    requires s.pc == PostSession && s.ledger.buffer == [Entry(id, now)] && s.ledger.inflight == []
    ensures Yields(Step, CallsOf, s, [Quiet(now).(choice := Tick)] + Opens(now)) == [Failed(id), Call(id, Core, false)]
  {
    var t := Quiet(now).(choice := Tick);
    var s1 := s.(pc := Top);
    assert Step(s, t) == s1 && CallsOf(s, t) == [];
    LeadsFront(Step, CallsOf, s, t, Opens(now));
    AfterDial(s1, now);
    DrainOne(s.ledger, id, now);
    assert [] + [Failed(id), Call(id, Core, false)] == [Failed(id), Call(id, Core, false)];
  }

  /** A live publish that fails, a lost connection, a reconnection, and a replay that fails
      and is repeated on core NATS. */
  function ThreeCalls(payload: Bytes, now: int): seq<Env> {
    Opens(now) + (FailsLive(payload, now) + ([Quiet(now).(choice := Tick)] + Opens(now)))
  }

  /** It publishes its event three times. */
  lemma PublishedThreeTimes(fallback: bool, interval: int, payload: Bytes, now: int)
    ensures Calls(Init(fallback, interval), ThreeCalls(payload, now)) == [Failed(0), Failed(0), Call(0, Core, false)]
  {
    var s0, again := Init(fallback, interval), [Quiet(now).(choice := Tick)] + Opens(now);
    var s1 := Leads(Step, s0, Opens(now));
    var s2 := Leads(Step, s1, FailsLive(payload, now));
    AfterOpens(s0, now);
    AfterFailsLive(s1, payload, now);
    AfterFailsReplay(s2, 0, now);
    RunLeads(s0, ThreeCalls(payload, now));
    LeadsConcat(Step, CallsOf, s0, Opens(now), FailsLive(payload, now) + again);
    LeadsConcat(Step, CallsOf, s1, FailsLive(payload, now), again);
  }
}
