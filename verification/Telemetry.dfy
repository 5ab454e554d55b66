/** The store-and-forward loop of internal/agent/agent.go as a step machine.

    One step is one interaction of the loop with the world: a clock reading, a select,
    a connection attempt, a publish. The world's answers come from an arbitrary script,
    so a statement about every script is a statement about every run; a script that
    ends is a process that is killed there. */
module Telemetry {
  import opened Common
  import opened EdgeBuffer

  const MAX_AGE: int := 300 * SECOND
  const FIRST_BACKOFF: int := 5 * SECOND
  const BACKOFF_LIMIT: int := 300 * SECOND

  /** Where the loop is. */
  datatype Pc =
    | Top           // about to test whether the context is done
    | Connect       // about to dial NATS
    | FallbackDrain // offline with a fallback URL: emptying the event channel
    | FallbackWait  //   waiting for the fallback ticker
    | BufferDrain   // offline without one: emptying the event channel
    | BackoffWait   //   sleeping for the backoff
    | Drain         // connected: about to drain the edge buffer
    | Replay        //   publishing the drained events
    | Select        // in a publish session: waiting for an event
    | Check         //   about to test the connection
    | Send          //   about to publish the event
    | Recheck       //   about to test the connection again after a failed publish
    | PostSession   // connection closed, sleeping before the next attempt
    | Stopped

  /** What a select came up with. */
  datatype Choice =
    | Done
    | Tick
    | NewInterval(d: int)
    | Payload(payload: Bytes)
    | Closed
    | Idle

  /** Everything the world may answer at one step; a step uses the parts it asks for. */
  datatype Env = Env(
    now: int,
    connects: bool,   // dialing NATS succeeds
    jetStream: bool,  // the new connection has a JetStream context
    connected: bool,  // nc.IsConnected()
    acked: bool,      // js.Publish succeeds
    choice: Choice)

  // ------------------------------------------------------------- ledger

  /** The n-th event received from the channel has identity n. */
  datatype Receipt = Receipt(payload: Bytes, at: int)

  datatype Via = JetStream | Core

  datatype HandOff = HandOff(id: nat, via: Via)

  datatype Expiry = Expiry(id: nat, stamp: int, at: int)

  /** Where the events are. */
  datatype Ledger = Ledger(
    received: seq<Receipt>,
    buffer: seq<Entry<nat>>,     // the edge buffer
    inflight: seq<nat>,          // drained but not replayed, or taken from the channel
    handed: seq<HandOff>,        // acknowledged by JetStream, or published on core NATS
    expired: seq<Expiry>,        // evicted by a push or left out by a drain
    refused: set<nat>)           // JetStream publish failed while the connection stayed up

  /** What one step does to the events. */
  datatype Effect =
    | Nothing
    | Take(payload: Bytes)   // from the channel, to be published
    | Keep(payload: Bytes)   // from the channel, straight into the buffer
    | Store                  // the event in hand, into the buffer
    | DrainAll               // the young part of the buffer, to be replayed
    | Hand(via: Via)         // the first event in hand, acknowledged or on core NATS
    | Refuse                 // note that the event just stored was refused

  function Received(l: Ledger, payload: Bytes, now: int): Ledger {
    l.(received := l.received + [Receipt(payload, now)])
  }

  /** A push into the edge buffer, with the entries it evicts put on record. */
  function Buffered(l: Ledger, id: nat, now: int): Ledger {
    l.(buffer := Push(l.buffer, id, now, MAX_AGE),
       expired := l.expired + Expiries(l.buffer[..Stale(l.buffer, now - MAX_AGE)], now))
  }

  function Apply(l: Ledger, effect: Effect, now: int): Ledger {
    match effect
    case Nothing => l
    case Take(payload) => Received(l, payload, now).(inflight := l.inflight + [|l.received|])
    case Keep(payload) => Buffered(Received(l, payload, now), |l.received|, now)
    case Store =>
      if l.inflight == [] then l else Buffered(l.(inflight := l.inflight[1..]), l.inflight[0], now)
    case DrainAll =>
      l.(buffer := [], inflight := l.inflight + EdgeBuffer.Drain(l.buffer, now, MAX_AGE),
         expired := l.expired + Expiries(Aged(l.buffer, now - MAX_AGE), now))
    case Hand(via) =>
      if l.inflight == [] then l
      else l.(handed := l.handed + [HandOff(l.inflight[0], via)], inflight := l.inflight[1..])
    case Refuse =>
      if l.buffer == [] then l else l.(refused := l.refused + {l.buffer[|l.buffer| - 1].data})
  }

  // ------------------------------------------------------------- machine

  datatype State = State(
    fallback: bool,       // a fallback URL is configured
    pc: Pc,
    ledger: Ledger,
    js: bool,             // the session has a JetStream context
    backoff: int,
    waits: seq<int>,      // backoff sleeps since the last connection
    interval: int)

  function Init(fallback: bool, interval: int): State {
    State(fallback, Top, Ledger([], [], [], [], [], {}), false, FIRST_BACKOFF, [], interval)
  }

  /** What the loop does with the events at this step. */
  function EffectOf(s: State, e: Env): Effect {
    match s.pc
    case FallbackDrain | BufferDrain => if e.choice.Payload? then Keep(e.choice.payload) else Nothing
    case Drain => DrainAll
    case Replay => if s.ledger.inflight == [] then Nothing else Hand(if s.js && e.acked then JetStream else Core)
    case Select => if e.choice.Payload? then Take(e.choice.payload) else Nothing
    case Check => if e.connected then Nothing else Store
    case Send => if !s.js then Hand(Core) else if e.acked then Hand(JetStream) else Store
    case Recheck => if e.connected then Refuse else Nothing
    case _ => Nothing
  }

  /** Where the loop goes. A select that offers nothing it waits for keeps it waiting. */
  function NextPc(s: State, e: Env): Pc {
    match s.pc
    case Top => if e.choice.Done? then Stopped else Connect
    case Connect => if e.connects then Drain else if s.fallback then FallbackDrain else BufferDrain
    case FallbackDrain => if e.choice.Payload? then FallbackDrain else FallbackWait
    case FallbackWait =>
      (match e.choice
       case Done => Stopped
       case NewInterval(_) => FallbackDrain
       case Tick => Top
       case _ => FallbackWait)
    case BufferDrain => if e.choice.Payload? then BufferDrain else BackoffWait
    case BackoffWait =>
      (match e.choice
       case Done => Stopped
       case Tick => Top
       case _ => BackoffWait)
    case Drain => Replay
    case Replay => if s.ledger.inflight == [] then Select else Replay
    case Select =>
      (match e.choice
       case Done => PostSession
       case Closed => PostSession
       case Payload(_) => Check
       case _ => Select)
    case Check => if e.connected then Send else PostSession
    case Send => if s.js && !e.acked then Recheck else Select
    case Recheck => if e.connected then Select else PostSession
    case PostSession =>
      (match e.choice
       case Done => Stopped
       case Tick => Top
       case _ => PostSession)
    case Stopped => Stopped
  }

  function Doubled(backoff: int): int {
    if backoff < BACKOFF_LIMIT then 2 * backoff else backoff
  }

  function Step(s: State, e: Env): State {
    var connecting := s.pc.Connect? && e.connects;
    var slept := s.pc.BackoffWait? && e.choice.Tick?;
    State(
      s.fallback,
      NextPc(s, e),
      Apply(s.ledger, EffectOf(s, e), e.now),
      if connecting then e.jetStream else s.js,
      if connecting then FIRST_BACKOFF else if slept then Doubled(s.backoff) else s.backoff,
      if connecting then [] else if slept then s.waits + [s.backoff] else s.waits,
      if (s.pc.FallbackWait? || s.pc.Select?) && e.choice.NewInterval? then e.choice.d else s.interval)
  }

  function Run(s: State, script: seq<Env>): State {
    if script == [] then s else Step(Run(s, script[..|script| - 1]), script[|script| - 1])
  }

  // -------------------------------------------------------- conservation

  function Expiries(gone: seq<Entry<nat>>, now: int): (r: seq<Expiry>)
    ensures |r| == |gone|
    ensures forall i :: 0 <= i < |r| ==> r[i] == Expiry(gone[i].data, gone[i].createdAt, now)
  {
    seq(|gone|, i requires 0 <= i < |gone| => Expiry(gone[i].data, gone[i].createdAt, now))
  }

  function HandedIds(handed: seq<HandOff>): (r: seq<nat>)
    ensures |r| == |handed| && forall i :: 0 <= i < |r| ==> r[i] == handed[i].id
  {
    seq(|handed|, i requires 0 <= i < |handed| => handed[i].id)
  }

  function ExpiredIds(expired: seq<Expiry>): (r: seq<nat>)
    ensures |r| == |expired| && forall i :: 0 <= i < |r| ==> r[i] == expired[i].id
  {
    seq(|expired|, i requires 0 <= i < |expired| => expired[i].id)
  }

  function Tally(a: seq<nat>, b: seq<nat>, c: seq<nat>, d: seq<nat>): multiset<nat> {
    multiset(a) + multiset(b) + multiset(c) + multiset(d)
  }

  /** How often each event occurs, over all the places an event can be. */
  function Places(l: Ledger): multiset<nat> {
    Tally(HandedIds(l.handed), l.inflight, Data(l.buffer), ExpiredIds(l.expired))
  }

  /** Each of the first n events once. */
  function Everyone(n: nat): (m: multiset<nat>)
    ensures forall id: nat :: m[id] == if id < n then 1 else 0
  {
    if n == 0 then multiset{} else Everyone(n - 1) + multiset{n - 1}
  }

  ghost predicate Conserved(l: Ledger) {
    Places(l) == Everyone(|l.received|)
  }

  /** Nothing leaves the buffer unsent before it is MAX_AGE old. */
  ghost predicate ExpiredOld(l: Ledger) {
    forall i :: 0 <= i < |l.expired| ==> l.expired[i].at - l.expired[i].stamp >= MAX_AGE
  }

  /** How a new event and evicted ones show in the tally. */
  lemma StoredAlong(a: seq<nat>, b: seq<nat>, gone: seq<nat>, kept: seq<nat>, id: nat, d: seq<nat>)
    ensures Tally(a, b, kept + [id], d + gone) == Tally(a, b, gone + kept, d) + multiset{id}
  {
    assert multiset(kept + [id]) == multiset(kept) + multiset{id};
    assert multiset(d + gone) == multiset(d) + multiset(gone);
    assert multiset(gone + kept) == multiset(gone) + multiset(kept);
  }

  lemma BufferedMoves(l: Ledger, id: nat, now: int) returns (gone: seq<nat>, kept: seq<nat>)
    ensures var l' := Buffered(l, id, now);
            Data(l.buffer) == gone + kept && Data(l'.buffer) == kept + [id] &&
            ExpiredIds(l'.expired) == ExpiredIds(l.expired) + gone
  {
    var n := Stale(l.buffer, now - MAX_AGE);
    gone, kept := Data(l.buffer[..n]), Data(l.buffer[n..]);
    assert Data(l.buffer) == gone + kept;
    assert Data(Push(l.buffer, id, now, MAX_AGE)) == kept + [id];
    ExpiriesIds(l.expired, l.buffer[..n], now);
  }

  lemma BufferedPlaces(l: Ledger, id: nat, now: int)
    ensures Places(Buffered(l, id, now)) == Places(l) + multiset{id}
  {
    var gone, kept := BufferedMoves(l, id, now);
    StoredAlong(HandedIds(l.handed), l.inflight, gone, kept, id, ExpiredIds(l.expired));
  }

  /** Moving the first of one list to the end of another. */
  lemma MovedAlong(done: seq<nat>, id: nat, rest: seq<nat>, b: seq<nat>, c: seq<nat>)
    ensures Tally(done + [id], rest, b, c) == Tally(done, [id] + rest, b, c)
  {
    assert multiset(done + [id]) + multiset(rest) == multiset(done) + multiset([id] + rest);
  }

  lemma HandedIdsNext(handed: seq<HandOff>, h: HandOff)
    ensures HandedIds(handed + [h]) == HandedIds(handed) + [h.id]
  {
  }

  /** Where the events of a ledger are after one is handed off. */
  lemma HandMoves(l: Ledger, via: Via, now: int)
    requires l.inflight != []
    ensures var l', id, rest := Apply(l, Hand(via), now), l.inflight[0], l.inflight[1..];
            HandedIds(l'.handed) == HandedIds(l.handed) + [id] && l.inflight == [id] + rest && l'.inflight == rest &&
            Data(l'.buffer) == Data(l.buffer) && ExpiredIds(l'.expired) == ExpiredIds(l.expired) &&
            l'.received == l.received
  {
    HandedIdsNext(l.handed, HandOff(l.inflight[0], via));
  }

  lemma HandPlaces(l: Ledger, via: Via, now: int)
    ensures Places(Apply(l, Hand(via), now)) == Places(l)
  {
    if l.inflight != [] {
      HandMoves(l, via, now);
      MovedAlong(HandedIds(l.handed), l.inflight[0], l.inflight[1..], Data(l.buffer), ExpiredIds(l.expired));
    }
  }

  lemma DataCons<T>(e: Entry<T>, rest: seq<Entry<T>>)
    ensures multiset(Data([e] + rest)) == multiset{e.data} + multiset(Data(rest))
  {
    assert Data([e] + rest) == [e.data] + Data(rest);
  }

  lemma HeadSorted<T>(buf: seq<Entry<T>>, cutoff: int)
    requires buf != []
    ensures buf[0].createdAt > cutoff ==>
              Fresh(buf, cutoff) == [buf[0]] + Fresh(buf[1..], cutoff) && Aged(buf, cutoff) == Aged(buf[1..], cutoff)
    ensures buf[0].createdAt <= cutoff ==>
              Fresh(buf, cutoff) == Fresh(buf[1..], cutoff) && Aged(buf, cutoff) == [buf[0]] + Aged(buf[1..], cutoff)
  {
  }

  /** Draining splits the buffer without loss. */
  lemma {:induction false} FreshAndAged<T>(buf: seq<Entry<T>>, cutoff: int)
    ensures multiset(Data(buf)) == multiset(Data(Fresh(buf, cutoff))) + multiset(Data(Aged(buf, cutoff)))
  {
    if buf != [] {
      var head, tail := buf[0], buf[1..];
      FreshAndAged(tail, cutoff);
      assert buf == [head] + tail;
      DataCons(head, tail);
      HeadSorted(buf, cutoff);
      if head.createdAt > cutoff {
        DataCons(head, Fresh(tail, cutoff));
      } else {
        DataCons(head, Aged(tail, cutoff));
      }
    }
  }

  lemma {:induction false} AgedIsOld<T>(buf: seq<Entry<T>>, cutoff: int)
    ensures forall i :: 0 <= i < |Aged(buf, cutoff)| ==> Aged(buf, cutoff)[i].createdAt <= cutoff
  {
    if buf != [] {
      AgedIsOld(buf[1..], cutoff);
    }
  }

  lemma ExpiriesIds(expired: seq<Expiry>, gone: seq<Entry<nat>>, now: int)
    ensures ExpiredIds(expired + Expiries(gone, now)) == ExpiredIds(expired) + Data(gone)
  {
  }

  /** How a drain shows in the tally. */
  lemma DrainedAlong(a: seq<nat>, b: seq<nat>, c: seq<nat>, young: seq<nat>, aged: seq<nat>, d: seq<nat>)
    requires multiset(c) == multiset(young) + multiset(aged)
    ensures Tally(a, b + young, [], d + aged) == Tally(a, b, c, d)
  {
    assert multiset(b + young) == multiset(b) + multiset(young);
    assert multiset(d + aged) == multiset(d) + multiset(aged);
  }

  lemma DrainMoves(l: Ledger, now: int)
    ensures var l', cutoff := Apply(l, DrainAll, now), now - MAX_AGE;
            l'.handed == l.handed && l'.inflight == l.inflight + Data(Fresh(l.buffer, cutoff)) &&
            Data(l'.buffer) == [] && ExpiredIds(l'.expired) == ExpiredIds(l.expired) + Data(Aged(l.buffer, cutoff))
  {
    ExpiriesIds(l.expired, Aged(l.buffer, now - MAX_AGE), now);
  }

  lemma DrainPlaces(l: Ledger, now: int)
    ensures Places(Apply(l, DrainAll, now)) == Places(l)
  {
    var young, aged := Data(Fresh(l.buffer, now - MAX_AGE)), Data(Aged(l.buffer, now - MAX_AGE));
    FreshAndAged(l.buffer, now - MAX_AGE);
    DrainMoves(l, now);
    DrainedAlong(HandedIds(l.handed), l.inflight, Data(l.buffer), young, aged, ExpiredIds(l.expired));
  }

  lemma TakePlaces(l: Ledger, payload: Bytes, now: int)
    ensures Places(Apply(l, Take(payload), now)) == Places(l) + multiset{|l.received|}
  {
    var id: nat := |l.received|;
    assert multiset(l.inflight + [id]) == multiset(l.inflight) + multiset{id};
  }

  lemma InFront(a: seq<nat>, id: nat, rest: seq<nat>, c: seq<nat>, d: seq<nat>)
    ensures Tally(a, [id] + rest, c, d) == Tally(a, rest, c, d) + multiset{id}
  {
    assert multiset([id] + rest) == multiset{id} + multiset(rest);
  }

  lemma PlacesInFront(l: Ledger, l0: Ledger)
    requires l.inflight != [] && l0 == l.(inflight := l.inflight[1..])
    ensures Places(l) == Places(l0) + multiset{l.inflight[0]}
  {
    assert l.inflight == [l.inflight[0]] + l0.inflight;
    InFront(HandedIds(l.handed), l.inflight[0], l0.inflight, Data(l.buffer), ExpiredIds(l.expired));
  }

  lemma StorePlaces(l: Ledger, now: int)
    ensures Places(Apply(l, Store, now)) == Places(l)
  {
    if l.inflight != [] {
      var l0 := l.(inflight := l.inflight[1..]);
      PlacesInFront(l, l0);
      BufferedPlaces(l0, l.inflight[0], now);
    }
  }

  /** Receiving adds one event; everything else only moves events around. */
  lemma ApplyPlaces(l: Ledger, effect: Effect, now: int)
    ensures var l' := Apply(l, effect, now);
            if effect.Take? || effect.Keep? then
              |l'.received| == |l.received| + 1 && Places(l') == Places(l) + multiset{|l.received|}
            else
              l'.received == l.received && Places(l') == Places(l)
  {
    match effect {
      case Take(payload) =>
        TakePlaces(l, payload, now);
      case Keep(payload) =>
        BufferedPlaces(Received(l, payload, now), |l.received|, now);
      case Store =>
        StorePlaces(l, now);
      case DrainAll =>
        DrainPlaces(l, now);
      case Hand(via) =>
        HandPlaces(l, via, now);
      case _ =>
    }
  }

  lemma ApplyExpiry(l: Ledger, effect: Effect, now: int)
    requires ExpiredOld(l)
    ensures ExpiredOld(Apply(l, effect, now))
  {
    AgedIsOld(l.buffer, now - MAX_AGE);
  }

  lemma ApplyConserves(l: Ledger, effect: Effect, now: int)
    requires Conserved(l)
    ensures Conserved(Apply(l, effect, now))
  {
    ApplyPlaces(l, effect, now);
    assert Everyone(|l.received| + 1) == Everyone(|l.received|) + multiset{|l.received|};
  }

  /** Conservation: after any run, every event received is in exactly one place, and
      in it once: handed off, under way, buffered or expired. Nothing else is anywhere.
      What expired had been in the buffer for at least the maximal age. */
  lemma {:induction false} Conservation(fallback: bool, interval: int, script: seq<Env>)
    ensures var l := Run(Init(fallback, interval), script).ledger;
            Conserved(l) && ExpiredOld(l) &&
            forall id: nat :: Places(l)[id] == if id < |l.received| then 1 else 0
  {
    if script != [] {
      var before, e := script[..|script| - 1], script[|script| - 1];
      Conservation(fallback, interval, before);
      var s := Run(Init(fallback, interval), before);
      ApplyConserves(s.ledger, EffectOf(s, e), e.now);
      ApplyExpiry(s.ledger, EffectOf(s, e), e.now);
    }
  }

  lemma {:induction false} TwiceMeansTwo(ids: seq<nat>, i: nat, j: nat)
    requires i < j < |ids| && ids[i] == ids[j]
    ensures multiset(ids)[ids[i]] >= 2
  {
    assert ids == ids[..j] + [ids[j]] + ids[j + 1..];
    assert ids[..j][i] == ids[i] && ids[i] in multiset(ids[..j]);
  }

  /** No event is acknowledged by JetStream or published on core NATS more than once, and
      none that expired is. An event may be published more often: see PublishCalls. */
  lemma NeverTwice(fallback: bool, interval: int, script: seq<Env>)
    ensures var l := Run(Init(fallback, interval), script).ledger;
            (forall i, j :: 0 <= i < j < |l.handed| ==> l.handed[i].id != l.handed[j].id) &&
            (forall i, j :: 0 <= i < |l.handed| && 0 <= j < |l.expired| ==> l.handed[i].id != l.expired[j].id)
  {
    Conservation(fallback, interval, script);
    var l := Run(Init(fallback, interval), script).ledger;
    var handed, expired := HandedIds(l.handed), ExpiredIds(l.expired);
    assert forall id: nat :: multiset(handed)[id] + multiset(expired)[id] <= Places(l)[id] <= 1;
    forall i, j | 0 <= i < j < |l.handed|
      ensures l.handed[i].id != l.handed[j].id
    {
      if handed[i] == handed[j] {
        TwiceMeansTwo(handed, i, j);
      }
    }
    forall i, j | 0 <= i < |l.handed| && 0 <= j < |l.expired|
      ensures l.handed[i].id != l.expired[j].id
    {
      assert handed[i] in multiset(handed) && expired[j] in multiset(expired);
    }
  }

  // ------------------------------------------------------------ ordering

  ghost predicate Increasing(ids: seq<nat>) {
    forall i, j :: 0 <= i < j < |ids| ==> ids[i] < ids[j]
  }

  /** The events not yet decided: the buffered ones, then those under way. */
  function Pending(l: Ledger): seq<nat> {
    Data(l.buffer) + l.inflight
  }

  /** No event with a greater identity was handed off among the first n hand-offs. */
  ghost predicate NotOvertaken(l: Ledger, id: nat, n: nat)
    requires n <= |l.handed|
  {
    forall i :: 0 <= i < n ==> l.handed[i].id < id
  }

  /** Only refused events are ever handed off after a later one. */
  ghost predicate InOrder(l: Ledger) {
    forall j :: 0 <= j < |l.handed| ==>
      l.handed[j].id in l.refused || NotOvertaken(l, l.handed[j].id, j)
  }

  /** Only refused events are still pending while a later one was handed off. */
  ghost predicate PendingInOrder(l: Ledger) {
    Increasing(Pending(l)) &&
    forall k :: 0 <= k < |Pending(l)| ==>
      Pending(l)[k] in l.refused || NotOvertaken(l, Pending(l)[k], |l.handed|)
  }

  ghost predicate InRange(l: Ledger) {
    (forall j :: 0 <= j < |l.handed| ==> l.handed[j].id < |l.received|) &&
    (forall k :: 0 <= k < |Pending(l)| ==> Pending(l)[k] < |l.received|)
  }

  ghost predicate Refused(l: Ledger, buffer: seq<Entry<nat>>) {
    forall i :: 0 <= i < |buffer| ==> buffer[i].data in l.refused
  }

  /** What the position in the loop says about the events: a publish session starts
      with an empty buffer, and from then on only refused events are put into it. */
  ghost predicate Session(s: State) {
    var l := s.ledger;
    match s.pc
    case Replay => l.buffer == []
    case Select => l.inflight == [] && Refused(l, l.buffer)
    case Check | Send => |l.inflight| == 1 && Refused(l, l.buffer)
    case Recheck => l.inflight == [] && l.buffer != [] && Refused(l, l.buffer[..|l.buffer| - 1])
    case _ => l.inflight == []
  }

  lemma StoreInSession(l: Ledger, now: int)
    requires |l.inflight| == 1 && Refused(l, l.buffer)
    ensures var l' := Apply(l, Store, now);
            l'.inflight == [] && l'.buffer != [] && Refused(l', l'.buffer[..|l'.buffer| - 1])
  {
    var n := Stale(l.buffer, now - MAX_AGE);
    assert Apply(l, Store, now).buffer == l.buffer[n..] + [Entry(l.inflight[0], now)];
  }

  lemma RefuseInSession(l: Ledger, now: int)
    requires l.buffer != [] && Refused(l, l.buffer[..|l.buffer| - 1])
    ensures var l' := Apply(l, Refuse, now);
            l'.inflight == l.inflight && Refused(l', l'.buffer)
  {
    forall i | 0 <= i < |l.buffer|
      ensures l.buffer[i].data in Apply(l, Refuse, now).refused
    {
      assert i < |l.buffer| - 1 ==> l.buffer[..|l.buffer| - 1][i] == l.buffer[i];
    }
  }

  lemma TakeInSession(l: Ledger, payload: Bytes, now: int)
    requires l.inflight == [] && Refused(l, l.buffer)
    ensures var l' := Apply(l, Take(payload), now);
            |l'.inflight| == 1 && Refused(l', l'.buffer)
  {
  }

  lemma HandInSession(l: Ledger, via: Via, now: int)
    requires l.inflight != []
    ensures var l' := Apply(l, Hand(via), now);
            l'.inflight == l.inflight[1..] && l'.buffer == l.buffer && l'.refused == l.refused
  {
  }

  /** A session is under way. */
  predicate Connected(pc: Pc) {
    pc.Replay? || pc.Select? || pc.Check? || pc.Send? || pc.Recheck?
  }

  lemma StepConnected(s: State, e: Env)
    requires Session(s) && Connected(s.pc)
    ensures Session(Step(s, e))
  {
    var l := s.ledger;
    match EffectOf(s, e) {
      case Take(payload) => TakeInSession(l, payload, e.now);
      case Store => StoreInSession(l, e.now);
      case Refuse => RefuseInSession(l, e.now);
      case Hand(via) => HandInSession(l, via, e.now);
      case _ =>
    }
  }

  lemma StepSession(s: State, e: Env)
    requires Session(s)
    ensures Session(Step(s, e))
  {
    if Connected(s.pc) {
      StepConnected(s, e);
    }
  }

  lemma {:induction false} SelectedFrom(buf: seq<Entry<nat>>, cutoff: int)
    ensures forall k :: 0 <= k < |Fresh(buf, cutoff)| ==> Fresh(buf, cutoff)[k] in buf
    ensures forall k :: 0 <= k < |Aged(buf, cutoff)| ==> Aged(buf, cutoff)[k] in buf
  {
    if buf != [] {
      SelectedFrom(buf[1..], cutoff);
    }
  }

  /** An entry earlier than all of a buffer is earlier than all that is fresh in it. */
  lemma BeforeFresh(id: nat, buf: seq<Entry<nat>>, cutoff: int)
    requires forall i :: 0 <= i < |buf| ==> id < buf[i].data
    ensures forall k :: 0 <= k < |Fresh(buf, cutoff)| ==> id < Fresh(buf, cutoff)[k].data
  {
    SelectedFrom(buf, cutoff);
  }

  lemma {:induction false} FreshIncreasing(buf: seq<Entry<nat>>, cutoff: int)
    requires Increasing(Data(buf))
    ensures Increasing(Data(Fresh(buf, cutoff)))
  {
    if buf != [] {
      var head, tail := buf[0], buf[1..];
      assert Data(tail) == Data(buf)[1..];
      FreshIncreasing(tail, cutoff);
      forall i | 0 <= i < |tail|
        ensures head.data < tail[i].data
      {
        assert Data(buf)[0] < Data(buf)[i + 1];
      }
      BeforeFresh(head.data, tail, cutoff);
    }
  }

  /** A suffix, a prefix, or a selection of the pending events stays in order. */
  lemma PendingSelected(l: Ledger, l': Ledger)
    requires PendingInOrder(l) && l'.handed == l.handed && l.refused <= l'.refused
    requires Increasing(Pending(l'))
    requires forall k :: 0 <= k < |Pending(l')| ==> Pending(l')[k] in Pending(l)
    ensures PendingInOrder(l')
  {
    forall k | 0 <= k < |Pending(l')|
      ensures Pending(l')[k] in l'.refused || NotOvertaken(l', Pending(l')[k], |l'.handed|)
    {
      var i :| 0 <= i < |Pending(l)| && Pending(l)[i] == Pending(l')[k];
    }
  }

  ghost predicate Orderly(l: Ledger) {
    InOrder(l) && PendingInOrder(l) && InRange(l)
  }

  /** A received event is later than everything before it. */
  lemma TakeOrderly(l: Ledger, payload: Bytes, now: int)
    requires Orderly(l)
    ensures Orderly(Apply(l, Take(payload), now))
  {
    var l' := Apply(l, Take(payload), now);
    assert Pending(l') == Pending(l) + [|l.received|];
  }

  /** Losing the first pending events keeps the rest in order. */
  lemma SuffixOrderly(l: Ledger, l': Ledger, n: nat)
    requires Orderly(l) && n <= |Pending(l)| && Pending(l') == Pending(l)[n..]
    requires l'.handed == l.handed && l'.refused == l.refused && l'.received == l.received
    ensures Orderly(l')
  {
    forall k | 0 <= k < |Pending(l')|
      ensures Pending(l')[k] in l'.refused || NotOvertaken(l', Pending(l')[k], |l'.handed|)
      ensures Pending(l')[k] < |l'.received|
    {
      assert Pending(l')[k] == Pending(l)[n + k];
    }
    assert forall j :: 0 <= j < |l.handed| ==>
      (NotOvertaken(l, l.handed[j].id, j) ==> NotOvertaken(l', l.handed[j].id, j));
  }

  /** A push keeps a suffix of the buffer. */
  lemma BufferedPending(l: Ledger, id: nat, now: int)
    requires l.inflight == []
    ensures Pending(Buffered(l, id, now)) == (Pending(l) + [id])[Stale(l.buffer, now - MAX_AGE)..]
  {
  }

  lemma KeepOrderly(l: Ledger, payload: Bytes, now: int)
    requires Orderly(l) && l.inflight == []
    ensures Orderly(Apply(l, Keep(payload), now))
  {
    var l1, l' := Apply(l, Take(payload), now), Apply(l, Keep(payload), now);
    TakeOrderly(l, payload, now);
    assert Pending(l1) == Pending(Received(l, payload, now)) + [|l.received|];
    BufferedPending(Received(l, payload, now), |l.received|, now);
    SuffixOrderly(l1, l', Stale(l.buffer, now - MAX_AGE));
  }

  lemma StoreOrderly(l: Ledger, now: int)
    requires Orderly(l) && |l.inflight| == 1
    ensures Orderly(Apply(l, Store, now))
  {
    var l0, l' := l.(inflight := []), Apply(l, Store, now);
    assert l.inflight[1..] == [] && Pending(l) == Pending(l0) + [l.inflight[0]];
    BufferedPending(l0, l.inflight[0], now);
    SuffixOrderly(l, l', Stale(l.buffer, now - MAX_AGE));
  }

  lemma FreshIds(buf: seq<Entry<nat>>, cutoff: int)
    ensures forall k :: 0 <= k < |Fresh(buf, cutoff)| ==> Data(Fresh(buf, cutoff))[k] in Data(buf)
  {
    SelectedFrom(buf, cutoff);
    forall k | 0 <= k < |Fresh(buf, cutoff)|
      ensures Data(Fresh(buf, cutoff))[k] in Data(buf)
    {
      var i :| 0 <= i < |buf| && buf[i] == Fresh(buf, cutoff)[k];
      assert Data(buf)[i] == Data(Fresh(buf, cutoff))[k];
    }
  }

  lemma DrainOrderly(l: Ledger, now: int)
    requires Orderly(l) && l.inflight == []
    ensures Orderly(Apply(l, DrainAll, now))
  {
    var l' := Apply(l, DrainAll, now);
    assert Pending(l) == Data(l.buffer);
    assert Pending(l') == Data(Fresh(l.buffer, now - MAX_AGE));
    FreshIncreasing(l.buffer, now - MAX_AGE);
    FreshIds(l.buffer, now - MAX_AGE);
    PendingSelected(l, l');
  }

  /** A hand-off takes the first event under way out of the pending ones. */
  lemma HandPending(l: Ledger, via: Via, now: int)
    requires l.inflight != []
    ensures var p, p', b := Pending(l), Pending(Apply(l, Hand(via), now)), |l.buffer|;
            p[b] == l.inflight[0] && |p'| == |p| - 1 &&
            (forall k :: 0 <= k < b ==> p'[k] == p[k] == l.buffer[k].data) &&
            forall k :: b <= k < |p'| ==> p'[k] == p[k + 1]
  {
  }

  lemma HandedInOrder(l: Ledger, via: Via, now: int)
    requires Orderly(l)
    ensures InOrder(Apply(l, Hand(via), now)) && InRange(Apply(l, Hand(via), now))
  {
    if l.inflight != [] {
      HandPending(l, via, now);
    }
  }

  /** The one step where an event can overtake: it may overtake buffered events only,
      and those are refused ones. */
  lemma HandOrderly(l: Ledger, via: Via, now: int)
    requires Orderly(l) && Refused(l, l.buffer)
    ensures Orderly(Apply(l, Hand(via), now))
  {
    HandedInOrder(l, via, now);
    if l.inflight != [] {
      HandPending(l, via, now);
      var l', b := Apply(l, Hand(via), now), |l.buffer|;
      var p, p' := Pending(l), Pending(l');
      assert Increasing(p');
      forall k | 0 <= k < |p'|
        ensures p'[k] in l'.refused || NotOvertaken(l', p'[k], |l'.handed|)
      {
        if k >= b {
          assert p[b] < p[k + 1];
        }
      }
    }
  }

  lemma RefuseOrderly(l: Ledger, now: int)
    requires Orderly(l)
    ensures Orderly(Apply(l, Refuse, now))
  {
    assert Pending(Apply(l, Refuse, now)) == Pending(l);
  }

  lemma StepOrderly(s: State, e: Env)
    requires Session(s) && Orderly(s.ledger)
    ensures Orderly(Step(s, e).ledger)
  {
    match EffectOf(s, e) {
      case Nothing =>
      case Take(payload) => TakeOrderly(s.ledger, payload, e.now);
      case Keep(payload) => KeepOrderly(s.ledger, payload, e.now);
      case Store => StoreOrderly(s.ledger, e.now);
      case DrainAll => DrainOrderly(s.ledger, e.now);
      case Hand(via) => HandOrderly(s.ledger, via, e.now);
      case Refuse => RefuseOrderly(s.ledger, e.now);
    }
  }

  /** Ordering: in every run, an event handed off after a later one is an event whose
      JetStream publish failed while the connection stayed up. */
  lemma {:induction false} Ordering(fallback: bool, interval: int, script: seq<Env>)
    ensures var s := Run(Init(fallback, interval), script);
            Session(s) && Orderly(s.ledger) &&
            forall i, j :: 0 <= i < j < |s.ledger.handed| && s.ledger.handed[j].id < s.ledger.handed[i].id
                       ==> s.ledger.handed[j].id in s.ledger.refused
  {
    if script != [] {
      var before, e := script[..|script| - 1], script[|script| - 1];
      Ordering(fallback, interval, before);
      var s := Run(Init(fallback, interval), before);
      StepSession(s, e);
      StepOrderly(s, e);
    }
  }

  /** So a run without such failures hands events off in the order received. */
  lemma HandedInReceiptOrder(fallback: bool, interval: int, script: seq<Env>)
    requires Run(Init(fallback, interval), script).ledger.refused == {}
    ensures Increasing(HandedIds(Run(Init(fallback, interval), script).ledger.handed))
  {
    Ordering(fallback, interval, script);
  }

  /** The JetStream publish of the event failed at step n, and the connection was found
      still up right after. */
  ghost predicate FailedWhileUp(s0: State, script: seq<Env>, n: nat, id: nat) {
    n + 1 < |script| &&
    (var s := Run(s0, script[..n]);
     s.pc.Send? && s.js && s.ledger.inflight == [id] && !script[n].acked && script[n + 1].connected)
  }

  lemma RunSnoc(s0: State, script: seq<Env>, n: nat)
    requires n < |script|
    ensures Run(s0, script[..n + 1]) == Step(Run(s0, script[..n]), script[n])
  {
    assert script[..n + 1][..n] == script[..n];
  }

  /** The event whose publish step n tried and failed, if that is what step n did. */
  ghost predicate FailedAt(s0: State, script: seq<Env>, n: nat, id: nat)
    requires n < |script|
  {
    var s := Run(s0, script[..n]);
    s.pc.Send? && s.js && s.ledger.inflight == [id] && !script[n].acked
  }

  /** The connection is about to be tested again on account of this event. */
  ghost predicate InQuestion(s: State, id: nat) {
    s.pc.Recheck? && s.ledger.buffer != [] && s.ledger.buffer[|s.ledger.buffer| - 1].data == id
  }

  lemma {:induction false} AlwaysInSession(fallback: bool, interval: int, script: seq<Env>)
    ensures Session(Run(Init(fallback, interval), script))
  {
    if script != [] {
      AlwaysInSession(fallback, interval, script[..|script| - 1]);
      StepSession(Run(Init(fallback, interval), script[..|script| - 1]), script[|script| - 1]);
    }
  }

  lemma StepInQuestion(s: State, e: Env, id: nat)
    requires Session(s)
    ensures (s.pc.Send? && s.js && s.ledger.inflight == [id] && !e.acked) <==> InQuestion(Step(s, e), id)
  {
    if s.pc.Send? {
      assert s.ledger.inflight == [s.ledger.inflight[0]];
    }
  }

  /** The loop tests the connection again exactly after a failed publish, and the event
      concerned is then the last of the buffer. */
  lemma RecheckAfterFailure(fallback: bool, interval: int, script: seq<Env>, id: nat)
    requires script != []
    ensures var s0, m := Init(fallback, interval), |script| - 1;
            FailedAt(s0, script, m, id) <==> InQuestion(Run(s0, script), id)
  {
    var before := script[..|script| - 1];
    AlwaysInSession(fallback, interval, before);
    StepInQuestion(Run(Init(fallback, interval), before), script[|script| - 1], id);
  }

  /** A failure in a script is one in the script without its last step, or one that the
      last step confirms. */
  lemma FailedInPrefix(s0: State, script: seq<Env>, before: seq<Env>, id: nat)
    requires script != [] && before == script[..|script| - 1]
    ensures (exists n: nat :: FailedWhileUp(s0, script, n, id)) <==>
            (exists n: nat :: FailedWhileUp(s0, before, n, id)) ||
            (|script| > 1 && FailedWhileUp(s0, script, |script| - 2, id))
  {
    forall n: nat | n + 2 < |script|
      ensures FailedWhileUp(s0, before, n, id) <==> FailedWhileUp(s0, script, n, id)
    {
      assert before[..n] == script[..n];
    }
    if n: nat :| FailedWhileUp(s0, before, n, id) {
      assert FailedWhileUp(s0, script, n, id);
    }
    if n: nat :| FailedWhileUp(s0, script, n, id) && n + 2 < |script| {
      assert FailedWhileUp(s0, before, n, id);
    }
  }

  lemma FailedThenUp(s0: State, script: seq<Env>, before: seq<Env>, id: nat)
    requires |script| > 1 && before == script[..|script| - 1]
    ensures FailedWhileUp(s0, script, |script| - 2, id) <==>
            FailedAt(s0, before, |before| - 1, id) && script[|script| - 1].connected
  {
    assert before[..|before| - 1] == script[..|script| - 2];
  }

  /** A step refuses exactly the event whose failed publish the step before it was. */
  lemma RefusedStep(fallback: bool, interval: int, script: seq<Env>, before: seq<Env>, id: nat)
    requires script != [] && before == script[..|script| - 1]
    ensures var s0 := Init(fallback, interval);
            id in Run(s0, script).ledger.refused <==>
            id in Run(s0, before).ledger.refused || (|script| > 1 && FailedWhileUp(s0, script, |script| - 2, id))
  {
    var s0, m := Init(fallback, interval), |script| - 1;
    LastRefusal(Run(s0, before), script[m], id);
    assert Run(s0, script) == Step(Run(s0, before), script[m]);
    if before != [] {
      RecheckAfterFailure(fallback, interval, before, id);
      FailedThenUp(s0, script, before, id);
    } else {
      assert Run(s0, before) == s0 && !InQuestion(s0, id);
    }
  }

  /** What the refused set stands for: exactly the events that failed that way. */
  lemma {:induction false} RefusedMeaning(fallback: bool, interval: int, script: seq<Env>, id: nat)
    ensures id in Run(Init(fallback, interval), script).ledger.refused
       <==> exists n: nat :: FailedWhileUp(Init(fallback, interval), script, n, id)
  {
    if script != [] {
      var before := script[..|script| - 1];
      RefusedMeaning(fallback, interval, before, id);
      FailedInPrefix(Init(fallback, interval), script, before, id);
      RefusedStep(fallback, interval, script, before, id);
    }
  }

  lemma LastRefusal(s: State, e: Env, id: nat)
    ensures id in Step(s, e).ledger.refused <==> id in s.ledger.refused || (InQuestion(s, id) && e.connected)
  {
  }

  // ------------------------------------------- what the ledger stands for

  predicate Receiving(pc: Pc) {
    pc.Select? || pc.BufferDrain? || pc.FallbackDrain?
  }

  /** The payloads the channel gave to a loop that was ready to receive, in order. */
  function Offered(s0: State, script: seq<Env>): seq<Bytes> {
    if script == [] then []
    else
      var before, e := script[..|script| - 1], script[|script| - 1];
      Offered(s0, before) +
      if Receiving(Run(s0, before).pc) && e.choice.Payload? then [e.choice.payload] else []
  }

  function ReceivedPayloads(l: Ledger): (r: seq<Bytes>)
    ensures |r| == |l.received| && forall i :: 0 <= i < |r| ==> r[i] == l.received[i].payload
  {
    seq(|l.received|, i requires 0 <= i < |l.received| => l.received[i].payload)
  }

  lemma ApplyReceives(l: Ledger, effect: Effect, now: int)
    ensures Apply(l, effect, now).received
         == l.received + (match effect
                          case Take(payload) => [Receipt(payload, now)]
                          case Keep(payload) => [Receipt(payload, now)]
                          case _ => [])
  {
  }

  lemma StepReceives(s: State, e: Env)
    ensures ReceivedPayloads(Step(s, e).ledger)
         == ReceivedPayloads(s.ledger) + if Receiving(s.pc) && e.choice.Payload? then [e.choice.payload] else []
  {
    ApplyReceives(s.ledger, EffectOf(s, e), e.now);
    assert EffectOf(s, e).Take? || EffectOf(s, e).Keep? <==> Receiving(s.pc) && e.choice.Payload?;
  }

  /** Nothing the channel gives is dropped on receipt, and nothing is made up. */
  lemma {:induction false} ReceivedMeaning(fallback: bool, interval: int, script: seq<Env>)
    ensures var s0 := Init(fallback, interval);
            ReceivedPayloads(Run(s0, script).ledger) == Offered(s0, script)
  {
    if script != [] {
      ReceivedMeaning(fallback, interval, script[..|script| - 1]);
      StepReceives(Run(Init(fallback, interval), script[..|script| - 1]), script[|script| - 1]);
    }
  }

  /** Step n published the event this way: through JetStream exactly if that acknowledged
      it; on core NATS without JetStream, or after a failed replay. */
  ghost predicate PublishedAt(s0: State, script: seq<Env>, n: nat, h: HandOff) {
    n < |script| &&
    (var s := Run(s0, script[..n]);
     (s.pc.Send? || s.pc.Replay?) && s.ledger.inflight != [] && s.ledger.inflight[0] == h.id &&
     (h.via.JetStream? <==> s.js && script[n].acked) &&
     (s.pc.Send? && s.js ==> script[n].acked))
  }

  ghost predicate ReallyPublished(s0: State, script: seq<Env>, h: HandOff) {
    exists n: nat :: PublishedAt(s0, script, n, h)
  }

  lemma StepHands(s: State, e: Env)
    ensures var s' := Step(s, e);
            s'.ledger.handed == s.ledger.handed ||
            (s.ledger.inflight != [] && (s.pc.Send? || s.pc.Replay?) && (s.pc.Send? && s.js ==> e.acked) &&
             s'.ledger.handed ==
             s.ledger.handed + [HandOff(s.ledger.inflight[0], if s.js && e.acked then JetStream else Core)])
  {
  }

  ghost predicate AllPublished(s0: State, script: seq<Env>, handed: seq<HandOff>) {
    forall i :: 0 <= i < |handed| ==> ReallyPublished(s0, script, handed[i])
  }

  lemma PublishedStays(s0: State, script: seq<Env>, before: seq<Env>, handed: seq<HandOff>)
    requires script != [] && before == script[..|script| - 1] && AllPublished(s0, before, handed)
    ensures AllPublished(s0, script, handed)
  {
    forall i | 0 <= i < |handed|
      ensures ReallyPublished(s0, script, handed[i])
    {
      var n: nat :| PublishedAt(s0, before, n, handed[i]);
      assert before[..n] == script[..n];
      assert PublishedAt(s0, script, n, handed[i]);
    }
  }

  lemma {:induction false} HandedGrows(s0: State, script: seq<Env>, n: nat)
    requires n <= |script|
    ensures Run(s0, script[..n]).ledger.handed <= Run(s0, script).ledger.handed
  {
    if n == |script| {
      assert script[..n] == script;
    } else {
      var before := script[..|script| - 1];
      HandedGrows(s0, before, n);
      assert before[..n] == script[..n];
      StepHands(Run(s0, before), script[|script| - 1]);
    }
  }

  /** The hand-off of step n is on the ledger, after those of the steps before, and no
      other hand-off is of the same event. */
  ghost predicate OnRecord(s0: State, script: seq<Env>, n: nat, h: HandOff)
    requires n <= |script|
  {
    var handed, i := Run(s0, script).ledger.handed, |Run(s0, script[..n]).ledger.handed|;
    i < |handed| && handed[i] == h && forall j :: 0 <= j < |handed| && j != i ==> handed[j].id != h.id
  }

  lemma HandOfStep(s: State, e: Env, h: HandOff)
    requires (s.pc.Send? || s.pc.Replay?) && s.ledger.inflight != [] && s.ledger.inflight[0] == h.id
    requires (h.via.JetStream? <==> s.js && e.acked) && (s.pc.Send? && s.js ==> e.acked)
    ensures Step(s, e).ledger.handed == s.ledger.handed + [h]
  {
  }

  lemma NextInPrefix<T>(a: seq<T>, x: T, b: seq<T>)
    requires a + [x] <= b
    ensures |a| < |b| && b[|a|] == x
  {
    assert (a + [x])[|a|] == b[|a|];
  }

  lemma PublishedOnRecord(fallback: bool, interval: int, script: seq<Env>, n: nat, h: HandOff)
    requires PublishedAt(Init(fallback, interval), script, n, h)
    ensures OnRecord(Init(fallback, interval), script, n, h)
  {
    var s0 := Init(fallback, interval);
    var before, after := Run(s0, script[..n]), Run(s0, script).ledger.handed;
    assert before.ledger.handed + [h] <= after by {
      RunSnoc(s0, script, n);
      HandOfStep(before, script[n], h);
      HandedGrows(s0, script, n + 1);
    }
    NextInPrefix(before.ledger.handed, h, after);
    NeverTwice(fallback, interval, script);
  }

  lemma {:induction false} HandedArePublished(fallback: bool, interval: int, script: seq<Env>)
    ensures AllPublished(Init(fallback, interval), script, Run(Init(fallback, interval), script).ledger.handed)
  {
    if script != [] {
      var s0, m := Init(fallback, interval), |script| - 1;
      var s := Run(s0, script[..m]);
      HandedArePublished(fallback, interval, script[..m]);
      PublishedStays(s0, script, script[..m], s.ledger.handed);
      StepHands(s, script[m]);
      if s.ledger.inflight != [] {
        var h := HandOff(s.ledger.inflight[0], if s.js && script[m].acked then JetStream else Core);
        assert (s.pc.Send? || s.pc.Replay?) && (s.pc.Send? && s.js ==> script[m].acked) ==>
               PublishedAt(s0, script, m, h);
      }
    }
  }

  /** Every hand-off is a publish that took place, and every publish that was acknowledged
      or on core NATS is recorded as a hand-off, once. */
  lemma HandedMeaning(fallback: bool, interval: int, script: seq<Env>)
    ensures var s0 := Init(fallback, interval);
            AllPublished(s0, script, Run(s0, script).ledger.handed) &&
            forall n: nat, h :: PublishedAt(s0, script, n, h) ==> OnRecord(s0, script, n, h)
  {
    HandedArePublished(fallback, interval, script);
    forall n: nat, h | PublishedAt(Init(fallback, interval), script, n, h)
      ensures OnRecord(Init(fallback, interval), script, n, h)
    {
      PublishedOnRecord(fallback, interval, script, n, h);
    }
  }

  // ------------------------------------------------------------- replay

  /** s' is s with the first n events under way replayed, in order. */
  ghost predicate Replayed(s: State, s': State, n: nat) {
    n <= |s.ledger.inflight| && s'.pc == Replay && s'.ledger.inflight == s.ledger.inflight[n..] &&
    HandedIds(s'.ledger.handed) == HandedIds(s.ledger.handed) + s.ledger.inflight[..n]
  }

  lemma ReplayedNext(s: State, s': State, n: nat, e: Env)
    requires Replayed(s, s', n) && n < |s.ledger.inflight|
    ensures Replayed(s, Step(s', e), n + 1)
  {
    var s'' := Step(s', e);
    assert s''.ledger.inflight == s'.ledger.inflight[1..];
    assert HandedIds(s''.ledger.handed) == HandedIds(s'.ledger.handed) + [s'.ledger.inflight[0]];
  }

  /** However the connection behaves, replaying hands off every drained event, in
      order, in as many steps as there are events. */
  lemma {:induction false} ReplayHandsAll(s: State, script: seq<Env>)
    requires s.pc == Replay && |script| <= |s.ledger.inflight|
    ensures Replayed(s, Run(s, script), |script|)
  {
    if script != [] {
      var before := script[..|script| - 1];
      ReplayHandsAll(s, before);
      ReplayedNext(s, Run(s, before), |before|, script[|script| - 1]);
    }
  }

  // ------------------------------------------------------------ backoff

  function Pow2(n: nat): (p: nat)
    ensures p >= 1
  {
    if n == 0 then 1 else 2 * Pow2(n - 1)
  }

  function Min(a: int, b: int): int {
    if a < b then a else b
  }

  /** The n-th sleep of an outage, counted from 0. */
  function WaitOf(n: nat): int {
    Min(5 * Pow2(n), 320) * SECOND
  }

  lemma {:induction false} PowersFromSixOn(n: nat)
    requires n >= 6
    ensures Pow2(n) >= 64
  {
    if n > 6 {
      PowersFromSixOn(n - 1);
    } else {
      assert Pow2(4) == 16;
    }
  }

  lemma SmallPowers()
    ensures Pow2(0) == 1 && Pow2(1) == 2 && Pow2(2) == 4 && Pow2(3) == 8 && Pow2(4) == 16 && Pow2(5) == 32 &&
        Pow2(6) == 64
  {
    assert Pow2(2) == 4;
    assert Pow2(4) == 16;
  }

  /** Doubling below the limit walks through the waits. */
  lemma NextWait(n: nat)
    ensures Doubled(WaitOf(n)) == WaitOf(n + 1)
    ensures WaitOf(n) < MAX_AGE <==> n <= 5
  {
    SmallPowers();
    if n >= 6 {
      PowersFromSixOn(n);
    }
  }

  /** The sleeps since the last connection are WaitOf(0), WaitOf(1), ..., and the next one
      is the next in that list. */
  ghost predicate OnSchedule(s: State) {
    s.backoff == WaitOf(|s.waits|) && forall i :: 0 <= i < |s.waits| ==> s.waits[i] == WaitOf(i)
  }

  lemma StepOnSchedule(s: State, e: Env)
    requires OnSchedule(s)
    ensures OnSchedule(Step(s, e))
  {
    SmallPowers();
    NextWait(|s.waits|);
  }

  /** Backoff: that is so in every run. */
  lemma {:induction false} Backoff(fallback: bool, interval: int, script: seq<Env>)
    ensures OnSchedule(Run(Init(fallback, interval), script))
  {
    if script != [] {
      Backoff(fallback, interval, script[..|script| - 1]);
      StepOnSchedule(Run(Init(fallback, interval), script[..|script| - 1]), script[|script| - 1]);
    } else {
      SmallPowers();
    }
  }

  lemma {:induction false} FreshHas(buf: seq<Entry<nat>>, k: nat, cutoff: int)
    requires k < |buf| && Increasing(Data(buf))
    ensures buf[k].data in Data(Fresh(buf, cutoff)) <==> buf[k].createdAt > cutoff
    ensures buf[k].createdAt <= cutoff ==> buf[k] in Aged(buf, cutoff)
  {
    var tail, young := buf[1..], Fresh(buf, cutoff);
    assert Data(tail) == Data(buf)[1..];
    if k > 0 {
      FreshHas(tail, k - 1, cutoff);
      assert Data(buf)[0] < Data(buf)[k];
      if buf[0].createdAt > cutoff {
        assert young == [buf[0]] + Fresh(tail, cutoff);
        assert Data(young) == [buf[0].data] + Data(Fresh(tail, cutoff));
        assert buf[k].data in Data(young) <==> buf[k].data in Data(Fresh(tail, cutoff));
      } else {
        assert young == Fresh(tail, cutoff);
      }
    } else if buf[0].createdAt > cutoff {
      assert Data(young)[0] == buf[0].data;
    } else {
      forall i | 0 <= i < |tail|
        ensures buf[0].data < tail[i].data
      {
        assert Data(buf)[0] < Data(buf)[i + 1];
      }
      BeforeFresh(buf[0].data, tail, cutoff);
    }
  }

  lemma WaitsUpToFive(n: nat)
    ensures n <= 5 ==> WaitOf(n) <= 160 * SECOND
  {
    SmallPowers();
  }

  lemma AgedOnRecord(expired: seq<Expiry>, aged: seq<Entry<nat>>, entry: Entry<nat>, now: int)
    requires entry in aged
    ensures Expiry(entry.data, entry.createdAt, now) in expired + Expiries(aged, now)
  {
    var j :| 0 <= j < |aged| && aged[j] == entry;
    assert (expired + Expiries(aged, now))[|expired| + j] == Expiry(entry.data, entry.createdAt, now);
  }

  /** Draining a buffer of distinct events replays the young ones and records the rest. */
  lemma DrainDecides(l: Ledger, k: nat, now: int)
    requires Increasing(Data(l.buffer)) && l.inflight == [] && k < |l.buffer|
    ensures var entry, l' := l.buffer[k], Apply(l, DrainAll, now);
            (entry.data in l'.inflight <==> now - entry.createdAt < MAX_AGE) &&
            (now - entry.createdAt >= MAX_AGE ==> Expiry(entry.data, entry.createdAt, now) in l'.expired)
  {
    var buf, cutoff, l' := l.buffer, now - MAX_AGE, Apply(l, DrainAll, now);
    FreshHas(buf, k, cutoff);
    assert l'.inflight == Data(Fresh(buf, cutoff));
    assert l'.expired == l.expired + Expiries(Aged(buf, cutoff), now);
    if buf[k].createdAt <= cutoff {
      AgedOnRecord(l.expired, Aged(buf, cutoff), buf[k], now);
    }
  }

  /** The end of a sleep, and a reconnection at the first attempt. */
  function Reconnected(s: State, tick: Env, top: Env, dial: Env, drain: Env): State {
    Step(Step(Step(Step(s, tick), top), dial), drain)
  }

  lemma ReconnectedLedger(s: State, tick: Env, top: Env, dial: Env, drain: Env)
    requires s.pc.BackoffWait? && tick.choice.Tick? && !top.choice.Done? && dial.connects
    ensures var s' := Reconnected(s, tick, top, dial, drain);
            s'.pc == Replay && s'.backoff == FIRST_BACKOFF && s'.waits == [] &&
            s'.ledger == Apply(s.ledger, DrainAll, drain.now)
  {
    var s1 := Step(s, tick);
    var s2 := Step(s1, top);
    var s3 := Step(s2, dial);
    assert s1.pc == Top && s1.ledger == s.ledger;
    assert s2.pc == Connect && s2.ledger == s.ledger;
    assert s3.pc == Drain && s3.ledger == s.ledger;
  }

  /** An event still buffered when a backoff sleep begins, across the steps that end the
      sleep, connect and drain: it is replayed exactly if it is then younger than the
      maximal age, and on record as expired otherwise. So it can be replayed after
      sleeps 0 to 5 of an outage, with 140 seconds to spare, and is lost after any
      later one. */
  lemma AcrossASleep(fallback: bool, interval: int, script: seq<Env>, k: nat, tick: Env, top: Env, dial: Env,
      drain: Env)
    requires var s := Run(Init(fallback, interval), script);
             s.pc.BackoffWait? && k < |s.ledger.buffer|
    requires tick.choice.Tick? && !top.choice.Done? && dial.connects
    ensures var s := Run(Init(fallback, interval), script);
            var entry := s.ledger.buffer[k];
            var l' := Reconnected(s, tick, top, dial, drain).ledger;
            var age := drain.now - entry.createdAt;
            (entry.data in l'.inflight <==> age < MAX_AGE) &&
            (age >= MAX_AGE ==> Expiry(entry.data, entry.createdAt, drain.now) in l'.expired) &&
            (|s.waits| > 5 && age >= s.backoff ==> entry.data !in l'.inflight) &&
            (|s.waits| <= 5 && age < s.backoff + 140 * SECOND ==> entry.data in l'.inflight)
  {
    var s := Run(Init(fallback, interval), script);
    Ordering(fallback, interval, script);
    Backoff(fallback, interval, script);
    NextWait(|s.waits|);
    WaitsUpToFive(|s.waits|);
    ReconnectedLedger(s, tick, top, dial, drain);
    assert Pending(s.ledger) == Data(s.ledger.buffer);
    DrainDecides(s.ledger, k, drain.now);
  }

  // ------------------------------------------ from the buffer to the drain

  ghost predicate ClockMonotone(script: seq<Env>) {
    forall i, j :: 0 <= i < j < |script| ==> script[i].now <= script[j].now
  }

  /** A push evicted the entry when it was over the maximal age. */
  ghost predicate GivenUp(l: Ledger, entry: Entry<nat>, clock: int) {
    exists at :: Expiry(entry.data, entry.createdAt, at) in l.expired &&
                 at - entry.createdAt > MAX_AGE && at <= clock
  }

  ghost predicate Waiting(l: Ledger, entry: Entry<nat>, clock: int) {
    entry in l.buffer || GivenUp(l, entry, clock)
  }

  lemma ExpiredGrows(l: Ledger, l': Ledger, entry: Entry<nat>, clock: int)
    requires GivenUp(l, entry, clock) && l.expired <= l'.expired
    ensures GivenUp(l', entry, clock)
  {
    var at :| Expiry(entry.data, entry.createdAt, at) in l.expired && at - entry.createdAt > MAX_AGE && at <= clock;
    var i :| 0 <= i < |l.expired| && l.expired[i] == Expiry(entry.data, entry.createdAt, at);
    assert l'.expired[i] == l.expired[i];
  }

  lemma BufferedWaiting(l: Ledger, id: nat, now: int, entry: Entry<nat>)
    requires entry in l.buffer
    ensures Waiting(Buffered(l, id, now), entry, now)
  {
    var n := Stale(l.buffer, now - MAX_AGE);
    var i :| 0 <= i < |l.buffer| && l.buffer[i] == entry;
    if i < n {
      assert l.buffer[..n][i] == entry;
      AgedOnRecord(l.expired, l.buffer[..n], entry, now);
    } else {
      assert Push(l.buffer, id, now, MAX_AGE)[i - n] == entry;
    }
  }

  /** Nothing but a drain takes an entry out of the buffer before it is too old. */
  lemma StepWaiting(s: State, e: Env, entry: Entry<nat>, clock: int)
    requires !s.pc.Drain? && Waiting(s.ledger, entry, clock) && clock <= e.now
    ensures Waiting(Step(s, e).ledger, entry, e.now)
  {
    var l, l' := s.ledger, Step(s, e).ledger;
    if entry in l.buffer {
      match EffectOf(s, e) {
        case Keep(payload) =>
          BufferedWaiting(Received(l, payload, e.now), |l.received|, e.now, entry);
        case Store =>
          if l.inflight != [] {
            BufferedWaiting(l.(inflight := l.inflight[1..]), l.inflight[0], e.now, entry);
          }
        case _ =>
      }
    } else {
      ExpiredGrows(l, l', entry, clock);
      assert GivenUp(l', entry, e.now);
    }
  }

  lemma WaitingLater(l: Ledger, entry: Entry<nat>, clock: int, clock': int)
    requires Waiting(l, entry, clock) && clock <= clock'
    ensures Waiting(l, entry, clock')
  {
  }

  /** No drain from step from up to step to. */
  ghost predicate NoDrain(s0: State, script: seq<Env>, from: nat, to: nat)
    requires to <= |script|
  {
    forall i :: from <= i < to ==> !PcAt(s0, script, i).Drain?
  }

  function PcAt(s0: State, script: seq<Env>, n: nat): Pc
    requires n <= |script|
  {
    Run(s0, script[..n]).pc
  }

  ghost predicate WaitingAt(s0: State, script: seq<Env>, n: nat, entry: Entry<nat>)
    requires n < |script|
  {
    Waiting(Run(s0, script[..n]).ledger, entry, script[n].now)
  }

  lemma WaitsOneMore(s0: State, script: seq<Env>, n: nat, entry: Entry<nat>)
    requires ClockMonotone(script) && n + 1 < |script| && !PcAt(s0, script, n).Drain?
    requires WaitingAt(s0, script, n, entry)
    ensures WaitingAt(s0, script, n + 1, entry)
  {
    var s, s', e := Run(s0, script[..n]), Run(s0, script[..n + 1]), script[n];
    StepWaiting(s, e, entry, e.now);
    assert s' == Step(s, e) by {
      RunSnoc(s0, script, n);
    }
    WaitingLater(s'.ledger, entry, e.now, script[n + 1].now);
  }

  lemma {:induction false} WaitsForDrain(s0: State, script: seq<Env>, from: nat, to: nat, entry: Entry<nat>)
    requires ClockMonotone(script) && from <= to < |script| && NoDrain(s0, script, from, to)
    requires WaitingAt(s0, script, from, entry)
    ensures WaitingAt(s0, script, to, entry)
  {
    if from < to {
      WaitsForDrain(s0, script, from, to - 1, entry);
      WaitsOneMore(s0, script, to - 1, entry);
    }
  }

  lemma ExpiredNotUnderWay(fallback: bool, interval: int, script: seq<Env>, id: nat)
    ensures var l := Run(Init(fallback, interval), script).ledger;
            id in ExpiredIds(l.expired) ==> id !in l.inflight
  {
    Conservation(fallback, interval, script);
    var l := Run(Init(fallback, interval), script).ledger;
    assert multiset(ExpiredIds(l.expired))[id] + multiset(l.inflight)[id] <= Places(l)[id] <= 1;
    assert id in ExpiredIds(l.expired) <==> multiset(ExpiredIds(l.expired))[id] > 0;
    assert id in l.inflight <==> multiset(l.inflight)[id] > 0;
  }

  lemma OnRecordById(expired: seq<Expiry>, x: Expiry)
    requires x in expired
    ensures x.id in ExpiredIds(expired)
  {
    var i :| 0 <= i < |expired| && expired[i] == x;
    assert ExpiredIds(expired)[i] == x.id;
  }

  /** However many dials fail and sleeps pass in between, and whatever is buffered
      meanwhile: an event in the buffer is replayed by the next drain exactly if it is then
      younger than the maximal age, and is on record as expired otherwise. */
  lemma ReplayedIfYoung(fallback: bool, interval: int, script: seq<Env>, from: nat, to: nat, entry: Entry<nat>)
    requires ClockMonotone(script) && from <= to < |script| && NoDrain(Init(fallback, interval), script, from, to)
    requires entry in Run(Init(fallback, interval), script[..from]).ledger.buffer
    requires PcAt(Init(fallback, interval), script, to).Drain?
    ensures var l' := Run(Init(fallback, interval), script[..to + 1]).ledger;
            (entry.data in l'.inflight <==> script[to].now - entry.createdAt < MAX_AGE) &&
            (entry.data in ExpiredIds(l'.expired) <==> script[to].now - entry.createdAt >= MAX_AGE)
  {
    var s0, now := Init(fallback, interval), script[to].now;
    var s, s' := Run(s0, script[..to]), Run(s0, script[..to + 1]);
    WaitsForDrain(s0, script, from, to, entry);
    RunSnoc(s0, script, to);
    Ordering(fallback, interval, script[..to]);
    ExpiredNotUnderWay(fallback, interval, script[..to + 1], entry.data);
    assert s'.ledger == Apply(s.ledger, DrainAll, now);
    if entry in s.ledger.buffer {
      var k :| 0 <= k < |s.ledger.buffer| && s.ledger.buffer[k] == entry;
      assert Pending(s.ledger) == Data(s.ledger.buffer);
      DrainDecides(s.ledger, k, now);
      if now - entry.createdAt >= MAX_AGE {
        OnRecordById(s'.ledger.expired, Expiry(entry.data, entry.createdAt, now));
      }
    } else {
      ExpiredGrows(s.ledger, s'.ledger, entry, now);
      var at :| Expiry(entry.data, entry.createdAt, at) in s'.ledger.expired &&
                at - entry.createdAt > MAX_AGE && at <= now;
      OnRecordById(s'.ledger.expired, Expiry(entry.data, entry.createdAt, at));
    }
  }

  // ---------------------------------------------------- age since receipt

  /** Stamps are never earlier than the receipt of their event. */
  ghost predicate StampedAfterReceipt(l: Ledger, clock: int) {
    (forall id :: 0 <= id < |l.received| ==> l.received[id].at <= clock) &&
    (forall i :: 0 <= i < |l.inflight| ==> l.inflight[i] < |l.received|) &&
    (forall i :: 0 <= i < |l.buffer| ==>
      l.buffer[i].data < |l.received| && l.received[l.buffer[i].data].at <= l.buffer[i].createdAt) &&
    (forall i :: 0 <= i < |l.expired| ==>
      l.expired[i].id < |l.received| && l.received[l.expired[i].id].at <= l.expired[i].stamp)
  }

  lemma BufferedStamps(l: Ledger, id: nat, now: int)
    requires StampedAfterReceipt(l, now) && id < |l.received|
    ensures StampedAfterReceipt(Buffered(l, id, now), now)
  {
  }

  lemma TakenStamps(l: Ledger, payload: Bytes, now: int)
    requires StampedAfterReceipt(l, now)
    ensures StampedAfterReceipt(Apply(l, Take(payload), now), now)
  {
  }

  lemma HandedStamps(l: Ledger, via: Via, now: int)
    requires StampedAfterReceipt(l, now)
    ensures StampedAfterReceipt(Apply(l, Hand(via), now), now)
  {
  }

  lemma KeptStamps(l: Ledger, payload: Bytes, now: int)
    requires StampedAfterReceipt(l, now)
    ensures StampedAfterReceipt(Apply(l, Keep(payload), now), now)
  {
    BufferedStamps(Received(l, payload, now), |l.received|, now);
  }

  lemma StoredStamps(l: Ledger, now: int)
    requires StampedAfterReceipt(l, now)
    ensures StampedAfterReceipt(Apply(l, Store, now), now)
  {
    if l.inflight != [] {
      BufferedStamps(l.(inflight := l.inflight[1..]), l.inflight[0], now);
    }
  }

  lemma DrainedStamps(l: Ledger, now: int)
    requires StampedAfterReceipt(l, now)
    ensures StampedAfterReceipt(Apply(l, DrainAll, now), now)
  {
    SelectedFrom(l.buffer, now - MAX_AGE);
  }

  lemma ApplyStamps(l: Ledger, effect: Effect, clock: int, now: int)
    requires StampedAfterReceipt(l, clock) && clock <= now
    ensures StampedAfterReceipt(Apply(l, effect, now), now)
  {
    assert StampedAfterReceipt(l, now);
    match effect {
      case Take(payload) =>
        TakenStamps(l, payload, now);
      case Hand(via) =>
        HandedStamps(l, via, now);
      case Keep(payload) =>
        KeptStamps(l, payload, now);
      case Store =>
        StoredStamps(l, now);
      case DrainAll =>
        DrainedStamps(l, now);
      case _ =>
    }
  }

  /** With a clock that does not run backwards, what expired was received at least the
      maximal age before it was given up. */
  lemma {:induction false} ExpiredSinceReceipt(fallback: bool, interval: int, script: seq<Env>)
    requires ClockMonotone(script) && script != []
    ensures var l := Run(Init(fallback, interval), script).ledger;
            StampedAfterReceipt(l, script[|script| - 1].now) &&
            forall i :: 0 <= i < |l.expired| ==> l.expired[i].at - l.received[l.expired[i].id].at >= MAX_AGE
  {
    var before, e := script[..|script| - 1], script[|script| - 1];
    var s := Run(Init(fallback, interval), before);
    if before != [] {
      ExpiredSinceReceipt(fallback, interval, before);
      assert script[|script| - 2].now <= e.now;
      ApplyStamps(s.ledger, EffectOf(s, e), script[|script| - 2].now, e.now);
    } else {
      ApplyStamps(s.ledger, EffectOf(s, e), e.now, e.now);
    }
    Conservation(fallback, interval, script);
  }
}
