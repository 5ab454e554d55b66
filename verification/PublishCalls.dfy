/** The single calls of js.Publish and nc.Publish that a run of the telemetry loop makes.
    An event may be published more than once: a replay repeats on core NATS what JetStream
    did not acknowledge, and an event JetStream did not acknowledge in a session is
    buffered and replayed later. What Telemetry records as a hand-off is a call that was
    acknowledged, or one on core NATS, whose error the agent drops. */
module PublishCalls {
  import opened Common
  import opened EdgeBuffer
  import opened Telemetry

  /** A call of js.Publish, with whether it was acknowledged, or of nc.Publish, which
      acknowledges nothing. */
  datatype Call = Call(id: nat, via: Via, acked: bool)

  /** The call counts as a hand-off. */
  predicate Counts(via: Via, acked: bool) {
    via.Core? || acked
  }

  /** The calls made at one step, for the first event in hand. */
  function CallsOf(s: State, e: Env): seq<Call> {
    if s.ledger.inflight == [] || !(s.pc.Replay? || s.pc.Send?) then []
    else
      var id := s.ledger.inflight[0];
      if !s.js then [Call(id, Core, false)]
      else if e.acked then [Call(id, JetStream, true)]
      else if s.pc.Send? then [Call(id, JetStream, false)]
      else [Call(id, JetStream, false), Call(id, Core, false)]
  }

  /** All calls of a run, in order. */
  function Calls(s0: State, script: seq<Env>): seq<Call> {
    if script == [] then []
    else
      var before := script[..|script| - 1];
      Calls(s0, before) + CallsOf(Run(s0, before), script[|script| - 1])
  }

  lemma CallsSnoc(s0: State, script: seq<Env>, n: nat)
    requires n < |script|
    ensures Calls(s0, script[..n + 1]) == Calls(s0, script[..n]) + CallsOf(Run(s0, script[..n]), script[n])
  {
    assert script[..n + 1][..n] == script[..n];
  }

  // ------------------------------------------------ calls and hand-offs

  function AsHandOff(c: Call): seq<HandOff> {
    if Counts(c.via, c.acked) then [HandOff(c.id, c.via)] else []
  }

  /** The hand-offs that calls amount to, in order. */
  function Counted(calls: seq<Call>): seq<HandOff> {
    if calls == [] then [] else Counted(calls[..|calls| - 1]) + AsHandOff(calls[|calls| - 1])
  }

  lemma CountedNext(calls: seq<Call>, c: Call)
    ensures Counted(calls + [c]) == Counted(calls) + AsHandOff(c)
  {
    assert (calls + [c])[..|calls|] == calls;
  }

  lemma CountedTwo(calls: seq<Call>, made: seq<Call>)
    requires |made| == 2 && AsHandOff(made[0]) == []
    ensures Counted(calls + made) == Counted(calls) + AsHandOff(made[1])
  {
    CountedNext(calls, made[0]);
    CountedNext(calls + [made[0]], made[1]);
    assert calls + made == calls + [made[0]] + [made[1]];
    assert Counted(calls) + [] == Counted(calls);
  }

  /** The calls of a step amount to at most one hand-off: that of the last of them. */
  lemma CountedLast(calls: seq<Call>, made: seq<Call>)
    requires 1 <= |made| <= 2 && (|made| == 2 ==> AsHandOff(made[0]) == [])
    ensures Counted(calls + made) == Counted(calls) + AsHandOff(made[|made| - 1])
  {
    if |made| == 1 {
      CountedNext(calls, made[0]);
      assert made == [made[0]];
    } else {
      CountedTwo(calls, made);
    }
  }

  /** What a step hands off, by the calls it makes. */
  lemma StepHandsLast(s: State, e: Env)
    ensures var made := CallsOf(s, e);
            Step(s, e).ledger.handed == s.ledger.handed + if made == [] then [] else AsHandOff(made[|made| - 1])
  {
    StepHands(s, e);
  }

  lemma StepCounts(s: State, e: Env, calls: seq<Call>)
    requires Counted(calls) == s.ledger.handed
    ensures Counted(calls + CallsOf(s, e)) == Step(s, e).ledger.handed
  {
    StepHandsLast(s, e);
    if CallsOf(s, e) == [] {
      assert calls + CallsOf(s, e) == calls;
    } else {
      CountedLast(calls, CallsOf(s, e));
    }
  }

  /** The hand-offs on the ledger are exactly the calls that were acknowledged or on core
      NATS: none is missing, none is recorded twice, and the order is that of the calls. */
  lemma {:induction false} CountedAreHanded(fallback: bool, interval: int, script: seq<Env>)
    ensures var s0 := Init(fallback, interval);
            Counted(Calls(s0, script)) == Run(s0, script).ledger.handed
  {
    if script != [] {
      var before := script[..|script| - 1];
      CountedAreHanded(fallback, interval, before);
      StepCounts(Run(Init(fallback, interval), before), script[|script| - 1], Calls(Init(fallback, interval), before));
    }
  }

  ghost predicate AllReceived(calls: seq<Call>, l: Ledger) {
    forall i :: 0 <= i < |calls| ==> calls[i].id < |l.received|
  }

  lemma StepCallsKnown(s: State, e: Env, calls: seq<Call>)
    requires InRange(s.ledger) && AllReceived(calls, s.ledger)
    ensures s.ledger.received <= Step(s, e).ledger.received
    ensures AllReceived(calls + CallsOf(s, e), s.ledger) && AllReceived(calls + CallsOf(s, e), Step(s, e).ledger)
  {
    if s.ledger.inflight != [] {
      assert Pending(s.ledger)[|s.ledger.buffer|] == s.ledger.inflight[0];
    }
  }

  /** Only events that were received are published. */
  lemma {:induction false} CallsKnown(fallback: bool, interval: int, script: seq<Env>)
    ensures var s0 := Init(fallback, interval);
            AllReceived(Calls(s0, script), Run(s0, script).ledger)
  {
    if script != [] {
      var s0, before := Init(fallback, interval), script[..|script| - 1];
      CallsKnown(fallback, interval, before);
      Ordering(fallback, interval, before);
      StepCallsKnown(Run(s0, before), script[|script| - 1], Calls(s0, before));
    }
  }

  // --------------------------------------------------- the calls for an event

  function Of(calls: seq<Call>, id: nat): seq<Call> {
    if calls == [] then []
    else Of(calls[..|calls| - 1], id) + if calls[|calls| - 1].id == id then [calls[|calls| - 1]] else []
  }

  lemma OfNext(calls: seq<Call>, c: Call, id: nat)
    ensures Of(calls + [c], id) == Of(calls, id) + if c.id == id then [c] else []
  {
    assert (calls + [c])[..|calls|] == calls;
  }

  lemma OfTwo(calls: seq<Call>, c: Call, d: Call, id: nat)
    requires c.id == d.id
    ensures Of(calls + ([c] + [d]), id) == Of(calls, id) + if c.id == id then [c] + [d] else []
  {
    OfNext(calls, c, id);
    OfNext(calls + [c], d, id);
    ConcatAssoc(calls, [c], [d]);
    ConcatAssoc(Of(calls, id), [c], [d]);
  }

  lemma OfMade(calls: seq<Call>, made: seq<Call>, id: nat)
    requires |made| <= 2 && forall i, j :: 0 <= i < |made| && 0 <= j < |made| ==> made[i].id == made[j].id
    ensures Of(calls + made, id) == Of(calls, id) + if made != [] && made[0].id == id then made else []
  {
    if made == [] {
      assert calls + made == calls;
    } else {
      OfNext(calls, made[0], id);
      if |made| == 1 {
        assert made == [made[0]];
      } else {
        OfTwo(calls, made[0], made[1], id);
        assert made == [made[0]] + [made[1]];
      }
    }
  }

  /** js.Publish, not acknowledged. */
  function Failed(id: nat): Call {
    Call(id, JetStream, false)
  }

  /** Calls before the event is handed off: at most one, in a session, that failed. */
  predicate Undelivered(calls: seq<Call>, id: nat) {
    calls == [] || calls == [Failed(id)]
  }

  /** Calls once it is: only the last counts. One or two may have failed before it; if two,
      the second failed in a replay, and the last is its repetition on core NATS. */
  predicate Delivered(calls: seq<Call>, id: nat) {
    1 <= |calls| <= 3 &&
    var last := calls[|calls| - 1];
    Counts(last.via, last.acked) && last.id == id &&
    (forall i :: 0 <= i < |calls| - 1 ==> calls[i] == Failed(id)) &&
    (|calls| == 3 ==> last.via.Core?)
  }

  predicate WasHanded(l: Ledger, id: nat) {
    id in HandedIds(l.handed)
  }

  /** The calls made so far for one event, and where it is. */
  ghost predicate Story(s: State, calls: seq<Call>, id: nat) {
    (if WasHanded(s.ledger, id) then Delivered(calls, id) else Undelivered(calls, id)) &&
    (id >= |s.ledger.received| ==> calls == []) &&
    ((s.pc.Check? || s.pc.Send?) && s.ledger.inflight == [id] ==> calls == [])
  }

  lemma InHandNotHanded(fallback: bool, interval: int, script: seq<Env>)
    ensures var l := Run(Init(fallback, interval), script).ledger;
            forall i :: 0 <= i < |l.inflight| ==> !WasHanded(l, l.inflight[i]) && l.inflight[i] < |l.received|
  {
    Conservation(fallback, interval, script);
    var l := Run(Init(fallback, interval), script).ledger;
    forall i | 0 <= i < |l.inflight|
      ensures !WasHanded(l, l.inflight[i]) && l.inflight[i] < |l.received|
    {
      var id := l.inflight[i];
      assert id in multiset(l.inflight);
      assert multiset(HandedIds(l.handed))[id] + multiset(l.inflight)[id] <= Places(l)[id] <= 1;
    }
  }

  lemma HandedNext(handed: seq<HandOff>, h: HandOff, id: nat)
    ensures id in HandedIds(handed + [h]) <==> id in HandedIds(handed) || h.id == id
  {
    assert HandedIds(handed + [h]) == HandedIds(handed) + [h.id];
  }

  function Own(s: State, e: Env, id: nat): seq<Call> {
    if s.ledger.inflight != [] && s.ledger.inflight[0] == id then CallsOf(s, e) else []
  }

  /** The calls of a step are all for the first event in hand. */
  lemma CallsForFirst(s: State, e: Env, calls: seq<Call>, id: nat)
    ensures Of(calls + CallsOf(s, e), id) == Of(calls, id) + Own(s, e, id)
  {
    OfMade(calls, CallsOf(s, e), id);
  }

  /** What a step hands off. */
  lemma StepHandedIds(s: State, e: Env, id: nat)
    ensures WasHanded(Step(s, e).ledger, id) <==>
            WasHanded(s.ledger, id) || (Own(s, e, id) != [] && AsHandOff(Own(s, e, id)[|Own(s, e, id)| - 1]) != [])
  {
    var made := CallsOf(s, e);
    StepHandsLast(s, e);
    if made != [] && AsHandOff(made[|made| - 1]) != [] {
      HandedNext(s.ledger.handed, AsHandOff(made[|made| - 1])[0], id);
    }
  }

  /** An event about to be published was in hand before, or has just been received. */
  lemma StepInHand(s: State, e: Env, id: nat)
    requires Session(s)
    ensures var s' := Step(s, e);
            |s.ledger.received| <= |s'.ledger.received| &&
            ((s'.pc.Check? || s'.pc.Send?) && s'.ledger.inflight == [id] ==>
              id == |s.ledger.received| || (s.pc.Check? && s.ledger.inflight == [id]))
  {
    var s' := Step(s, e);
    if s.pc.Select? && s'.pc.Check? {
      assert s'.ledger.inflight == [|s.ledger.received|];
    }
  }

  /** An event that is not the one in hand. */
  lemma OtherStory(s: State, e: Env, calls: seq<Call>, id: nat)
    requires Session(s) && Story(s, calls, id)
    requires s.ledger.inflight == [] || s.ledger.inflight[0] != id
    ensures Story(Step(s, e), calls, id)
  {
    StepHandedIds(s, e, id);
    StepInHand(s, e, id);
  }

  lemma DeliveredNow(calls: seq<Call>, made: seq<Call>, id: nat)
    requires Undelivered(calls, id) && |made| == 1 && made[0].id == id && Counts(made[0].via, made[0].acked)
    ensures Delivered(calls + made, id)
  {
  }

  lemma DeliveredRepeated(calls: seq<Call>, made: seq<Call>, id: nat)
    requires Undelivered(calls, id) && made == [Failed(id), Call(id, Core, false)]
    ensures Delivered(calls + made, id)
  {
  }

  /** What the calls of a step make of those before. */
  lemma CallsGrow(s: State, e: Env, calls: seq<Call>, id: nat)
    requires Undelivered(calls, id) && (s.pc.Send? ==> calls == [])
    requires s.ledger.inflight != [] && s.ledger.inflight[0] == id
    ensures var made := CallsOf(s, e);
            if made != [] && AsHandOff(made[|made| - 1]) != [] then Delivered(calls + made, id)
            else Undelivered(calls + made, id) && (made != [] ==> s.pc.Send?)
  {
    var made := CallsOf(s, e);
    if made == [] {
      assert calls + made == calls;
    } else if |made| == 2 {
      DeliveredRepeated(calls, made, id);
    } else if Counts(made[0].via, made[0].acked) {
      DeliveredNow(calls, made, id);
    } else {
      assert [] + made == made;
    }
  }

  /** The event in hand. */
  lemma OwnStory(s: State, e: Env, calls: seq<Call>, id: nat)
    requires Session(s) && Story(s, calls, id)
    requires s.ledger.inflight != [] && s.ledger.inflight[0] == id
    requires !WasHanded(s.ledger, id) && id < |s.ledger.received|
    ensures Story(Step(s, e), calls + CallsOf(s, e), id)
  {
    if s.pc.Send? || s.pc.Check? {
      assert s.ledger.inflight == [id];
    }
    StepHandedIds(s, e, id);
    StepInHand(s, e, id);
    CallsGrow(s, e, calls, id);
    if s.pc.Check? {
      assert CallsOf(s, e) == [] && calls + [] == calls;
    }
  }

  /** In every run an event is published at most three times. It is handed off exactly if
      some call for it was acknowledged or on core NATS; that call is the last one for it,
      and all those before it were JetStream publishes that failed. So an event is
      published more than once exactly if a JetStream publish of it failed and it has been
      handed off since. */
  lemma {:induction false} CallsForEvent(fallback: bool, interval: int, script: seq<Env>, id: nat)
    ensures var s0 := Init(fallback, interval);
            var calls := Of(Calls(s0, script), id);
            Story(Run(s0, script), calls, id) &&
            (|calls| >= 2 <==> WasHanded(Run(s0, script).ledger, id) && Failed(id) in calls)
  {
    if script != [] {
      var s0, before, e := Init(fallback, interval), script[..|script| - 1], script[|script| - 1];
      var s, calls := Run(s0, before), Calls(s0, before);
      CallsForEvent(fallback, interval, before, id);
      AlwaysInSession(fallback, interval, before);
      InHandNotHanded(fallback, interval, before);
      CallsForFirst(s, e, calls, id);
      if s.ledger.inflight != [] && s.ledger.inflight[0] == id {
        OwnStory(s, e, Of(calls, id), id);
      } else {
        assert Of(calls, id) + [] == Of(calls, id);
        OtherStory(s, e, Of(calls, id), id);
      }
    }
    StoryMeans(Of(Calls(Init(fallback, interval), script), id), id);
  }

  lemma StoryMeans(calls: seq<Call>, id: nat)
    ensures Undelivered(calls, id) ==> |calls| < 2
    ensures Delivered(calls, id) ==> (|calls| >= 2 <==> Failed(id) in calls)
  {
    if Delivered(calls, id) {
      assert calls[|calls| - 1] != Failed(id);
      if |calls| >= 2 {
        assert calls[0] == Failed(id);
      }
    }
  }
}
