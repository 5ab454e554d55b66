/** runTelemetryLoop of internal/agent/agent.go and the functions it calls, as the nested
    loops the source has. Each interaction with the world consumes one entry of a script,
    and every method is proved to take the steps of the machine in Telemetry: what the
    machine says about events holds of the byte arrays really buffered, and what
    PublishCalls says about calls holds of the calls of js.Publish and nc.Publish made. */
module TelemetryLoop {
  import opened Common
  import opened EdgeBuffer
  import opened EventBuffers
  import opened PublishCalls
  import opened PulseFraming
  import opened Telemetry

  /** One call of js.Publish, acknowledged or not, or of nc.Publish. */
  datatype Message = Message(via: Via, subject: Bytes, data: Bytes, acked: bool)

  /** The call a payload is published with. */
  function Outgoing(base: Bytes, via: Via, acked: bool, payload: Bytes): Message {
    Message(via, base + Published(payload).slug, Published(payload).data, acked)
  }

  function Payloads(l: Ledger): map<nat, Bytes> {
    map id: nat | id < |l.received| :: l.received[id].payload
  }

  function PayloadOf(l: Ledger, id: nat): Bytes {
    if id < |l.received| then l.received[id].payload else []
  }

  /** The messages for these calls, with the payloads of their events. */
  ghost function Wire(base: Bytes, l: Ledger, calls: seq<Call>): (r: seq<Message>)
    ensures |r| == |calls|
    ensures forall i :: 0 <= i < |r| ==>
              r[i] == Outgoing(base, calls[i].via, calls[i].acked, PayloadOf(l, calls[i].id))
  {
    seq(|calls|, i requires 0 <= i < |calls| =>
      Outgoing(base, calls[i].via, calls[i].acked, PayloadOf(l, calls[i].id)))
  }

  /** The messages for these hand-offs. */
  ghost function Messages(base: Bytes, l: Ledger, handed: seq<HandOff>): (r: seq<Message>)
    ensures |r| == |handed|
    ensures forall i :: 0 <= i < |r| ==>
              r[i] == Outgoing(base, handed[i].via, handed[i].via.JetStream?, PayloadOf(l, handed[i].id))
  {
    seq(|handed|, i requires 0 <= i < |handed| =>
      Outgoing(base, handed[i].via, handed[i].via.JetStream?, PayloadOf(l, handed[i].id)))
  }

  /** The messages that JetStream acknowledged or that went out on core NATS. */
  function Effective(sent: seq<Message>): seq<Message> {
    if sent == [] then []
    else
      var m := sent[|sent| - 1];
      Effective(sent[..|sent| - 1]) + if Counts(m.via, m.acked) then [m] else []
  }

  /** No call on core NATS is acknowledged. */
  ghost predicate CoreUnacked(calls: seq<Call>) {
    forall i :: 0 <= i < |calls| && calls[i].via.Core? ==> !calls[i].acked
  }

  lemma {:induction false} CallsCoreUnacked(s0: State, script: seq<Env>)
    ensures CoreUnacked(Calls(s0, script))
  {
    if script != [] {
      CallsCoreUnacked(s0, script[..|script| - 1]);
    }
  }

  lemma WireNext(base: Bytes, l: Ledger, calls: seq<Call>, made: seq<Call>)
    ensures Wire(base, l, calls + made) == Wire(base, l, calls) + Wire(base, l, made)
  {
  }

  lemma MessagesNext(base: Bytes, l: Ledger, a: seq<HandOff>, b: seq<HandOff>)
    ensures Messages(base, l, a + b) == Messages(base, l, a) + Messages(base, l, b)
  {
  }

  /** Of the messages for some calls, the effective ones are those of the hand-offs the
      calls amount to. */
  lemma {:induction false} EffectiveWire(base: Bytes, l: Ledger, calls: seq<Call>)
    requires CoreUnacked(calls)
    ensures Effective(Wire(base, l, calls)) == Messages(base, l, Counted(calls))
  {
    if calls != [] {
      var before, c := calls[..|calls| - 1], calls[|calls| - 1];
      EffectiveWire(base, l, before);
      assert Wire(base, l, calls)[..|calls| - 1] == Wire(base, l, before);
      MessagesNext(base, l, Counted(before), AsHandOff(c));
    }
  }

  /** Receiving more leaves the payloads of earlier calls alone. */
  lemma WireKept(base: Bytes, l: Ledger, l': Ledger, calls: seq<Call>)
    requires AllReceived(calls, l) && l.received <= l'.received
    ensures Wire(base, l', calls) == Wire(base, l, calls)
  {
  }

  /** The messages of a step that publishes this payload. */
  function Copies(base: Bytes, live: bool, js: bool, acked: bool, payload: Bytes): seq<Message> {
    if !js then [Outgoing(base, Core, false, payload)]
    else if acked then [Outgoing(base, JetStream, true, payload)]
    else if live then [Outgoing(base, JetStream, false, payload)]
    else [Outgoing(base, JetStream, false, payload), Outgoing(base, Core, false, payload)]
  }

  /** The messages a step of the machine amounts to. */
  ghost function MadeBy(base: Bytes, s: State, e: Env): seq<Message> {
    if s.ledger.inflight == [] || !(s.pc.Replay? || s.pc.Send?) then []
    else Copies(base, s.pc.Send?, s.js, e.acked, PayloadOf(s.ledger, s.ledger.inflight[0]))
  }

  lemma MadeWire(base: Bytes, s: State, e: Env)
    requires InRange(s.ledger)
    ensures Wire(base, s.ledger, CallsOf(s, e)) == MadeBy(base, s, e)
  {
  }

  lemma WireStep(base: Bytes, s: State, e: Env, calls: seq<Call>)
    requires InRange(s.ledger) && AllReceived(calls, s.ledger)
    ensures Wire(base, Step(s, e).ledger, calls + CallsOf(s, e)) == Wire(base, s.ledger, calls) + MadeBy(base, s, e)
  {
    var made := CallsOf(s, e);
    StepCallsKnown(s, e, calls);
    WireNext(base, s.ledger, calls, made);
    assert AllReceived(calls + made, s.ledger);
    WireKept(base, s.ledger, Step(s, e).ledger, calls + made);
    MadeWire(base, s, e);
  }

  /** The message goes to the subject of the slug the payload is framed with, or of
      "unknown", and carries the data framed, or the payload itself. */
  ghost predicate Addressed(base: Bytes, m: Message, payload: Bytes) {
    (forall slug: Bytes, data: Bytes :: IsFrame(payload, slug, data) && (slug != [] || data != []) ==>
      m.subject == base + slug && m.data == data) &&
    (NoFrame(payload) ==> m.subject == base + [117, 110, 107, 110, 111, 119, 110] && m.data == payload)
  }

  lemma OutgoingAddressed(base: Bytes, via: Via, acked: bool, payload: Bytes)
    ensures Addressed(base, Outgoing(base, via, acked, payload), payload)
  {
    var m, p := Outgoing(base, via, acked, payload), Published(payload);
    PublishedRightly(payload);
    forall slug: Bytes, data: Bytes | IsFrame(payload, slug, data) && (slug != [] || data != [])
      ensures m.subject == base + slug && m.data == data
    {
      FrameUnique(payload, slug, data, p.slug, p.data);
    }
  }

  /** Every message is for an event that was received, by the way and with the outcome of
      its call, and goes where that event's own frame says. */
  ghost predicate AllAddressed(base: Bytes, l: Ledger, calls: seq<Call>, sent: seq<Message>) {
    |sent| == |calls| &&
    forall i :: 0 <= i < |calls| ==>
      calls[i].id < |l.received| && sent[i].via == calls[i].via && sent[i].acked == calls[i].acked &&
      Addressed(base, sent[i], l.received[calls[i].id].payload)
  }

  /** What the messages for some calls look like. */
  lemma WireAddressed(base: Bytes, l: Ledger, calls: seq<Call>)
    requires AllReceived(calls, l)
    ensures AllAddressed(base, l, calls, Wire(base, l, calls))
  {
    forall i | 0 <= i < |calls|
      ensures Addressed(base, Wire(base, l, calls)[i], l.received[calls[i].id].payload)
    {
      OutgoingAddressed(base, calls[i].via, calls[i].acked, l.received[calls[i].id].payload);
    }
  }

  /** How the messages of a run go on by one answer. */
  lemma WireSoFar(base: Bytes, fallback: bool, interval: int, script: seq<Env>, n: nat)
    requires n < |script|
    ensures var s0, s := Init(fallback, interval), Run(Init(fallback, interval), script[..n]);
            Wire(base, Run(s0, script[..n + 1]).ledger, Calls(s0, script[..n + 1])) ==
            Wire(base, s.ledger, Calls(s0, script[..n])) + MadeBy(base, s, script[n])
  {
    var s0 := Init(fallback, interval);
    RunSnoc(s0, script, n);
    CallsSnoc(s0, script, n);
    CallsKnown(fallback, interval, script[..n]);
    Ordering(fallback, interval, script[..n]);
    WireStep(base, Run(s0, script[..n]), script[n], Calls(s0, script[..n]));
  }

  /** The buffer of the ledger with payloads for identities. */
  ghost function Bodies(l: Ledger): (r: seq<Entry<Bytes>>)
    ensures |r| == |l.buffer|
    ensures forall i :: 0 <= i < |r| ==> r[i] == Entry(PayloadOf(l, l.buffer[i].data), l.buffer[i].createdAt)
  {
    seq(|l.buffer|, i requires 0 <= i < |l.buffer| =>
      Entry(PayloadOf(l, l.buffer[i].data), l.buffer[i].createdAt))
  }

  lemma BodiesAreRead(l: Ledger)
    requires InRange(l)
    ensures Known(Payloads(l), l.buffer) && Bodies(l) == Read(Payloads(l), l.buffer)
  {
    forall i | 0 <= i < |l.buffer|
      ensures l.buffer[i].data in Payloads(l)
    {
      assert Pending(l)[i] == l.buffer[i].data;
    }
  }

  /** Storing by identity and storing by payload agree. */
  lemma BufferedBodies(l: Ledger, id: nat, now: int)
    requires InRange(l) && id < |l.received|
    ensures Bodies(Buffered(l, id, now)) == Push(Bodies(l), l.received[id].payload, now, MAX_AGE)
  {
    BodiesAreRead(l);
    PushOfRead(Payloads(l), l.buffer, id, now, MAX_AGE);
  }

  /** Receiving leaves what is known of earlier events alone. */
  lemma ReceivedBodies(l: Ledger, payload: Bytes, now: int)
    requires InRange(l)
    ensures var l' := Received(l, payload, now);
            InRange(l') && Bodies(l') == Bodies(l)
  {
    var l' := Received(l, payload, now);
    BodiesAreRead(l);
    assert Pending(l') == Pending(l);
  }

  /** Draining by identity and draining by payload agree. */
  lemma DrainedBodies(l: Ledger, now: int)
    requires InRange(l) && l.inflight == []
    ensures InHand(Apply(l, DrainAll, now), EdgeBuffer.Drain(Bodies(l), now, MAX_AGE))
  {
    var young := Fresh(l.buffer, now - MAX_AGE);
    BodiesAreRead(l);
    FreshOfRead(Payloads(l), l.buffer, now - MAX_AGE);
    assert Fresh(Bodies(l), now - MAX_AGE) == Read(Payloads(l), young);
    assert Apply(l, DrainAll, now).inflight == Data(young);
  }

  /** Taking an event in hand. */
  lemma TakenBodies(l: Ledger, payload: Bytes, now: int)
    requires InRange(l) && l.inflight == []
    ensures var l' := Apply(l, Take(payload), now);
            Bodies(l') == Bodies(l) && InHand(l', [payload])
  {
    ReceivedBodies(l, payload, now);
    assert Bodies(Apply(l, Take(payload), now)) == Bodies(Received(l, payload, now));
  }

  lemma TakenIfAny(l: Ledger, choice: Choice, now: int)
    requires InRange(l) && l.inflight == []
    ensures choice.Payload? ==>
              Bodies(Apply(l, Take(choice.payload), now)) == Bodies(l) &&
              InHand(Apply(l, Take(choice.payload), now), [choice.payload])
  {
    if choice.Payload? {
      TakenBodies(l, choice.payload, now);
    }
  }

  /** Storing the event in hand. */
  lemma StoredBodies(l: Ledger, payload: Bytes, now: int)
    requires InRange(l) && InHand(l, [payload])
    ensures Bodies(Apply(l, Effect.Store, now)) == Push(Bodies(l), payload, now, MAX_AGE)
  {
    var l1 := l.(inflight := []);
    assert InRange(l1) by {
      assert Pending(l1) == Pending(l)[..|l.buffer|];
    }
    assert l.inflight[1..] == [];
    BufferedBodies(l1, l.inflight[0], now);
    assert Bodies(l1) == Bodies(l);
  }

  /** Receiving an event straight into the buffer. */
  lemma KeptBodies(l: Ledger, payload: Bytes, now: int)
    requires InRange(l)
    ensures Bodies(Apply(l, Effect.Keep(payload), now)) == Push(Bodies(l), payload, now, MAX_AGE)
  {
    ReceivedBodies(l, payload, now);
    BufferedBodies(Received(l, payload, now), |l.received|, now);
  }

  /** A hand-off leaves the buffer alone. */
  lemma HandedBodies(l: Ledger, via: Via, now: int)
    ensures Bodies(Apply(l, Hand(via), now)) == Bodies(l)
  {
  }

  /** What is left in hand after one hand-off. */
  lemma HandedInHand(l: Ledger, payload: Bytes, rest: seq<Bytes>, via: Via, now: int)
    requires InHand(l, [payload] + rest)
    ensures l.inflight != [] && l.inflight[0] < |l.received| && l.received[l.inflight[0]].payload == payload
    ensures InHand(Apply(l, Hand(via), now), rest)
    ensures Bodies(Apply(l, Hand(via), now)) == Bodies(l)
  {
    assert ([payload] + rest)[0] == payload;
    assert forall k :: 0 <= k < |rest| ==> ([payload] + rest)[k + 1] == rest[k];
  }

  /** The events under way have these payloads, in this order. */
  ghost predicate InHand(l: Ledger, payloads: seq<Bytes>) {
    |l.inflight| == |payloads| &&
    forall k :: 0 <= k < |payloads| ==>
      l.inflight[k] < |l.received| && l.received[l.inflight[k]].payload == payloads[k]
  }

  class Agent {
    const base: Bytes           // the subject, up to the slug
    const fallback: bool
    const firstInterval: int
    const script: seq<Env>
    const edgeBuf: EventBuffer

    var pos: nat                // how much of the script has been consumed
    var backoff: int
    var interval: int
    var sent: seq<Message>      // every call of js.Publish and nc.Publish, in order

    ghost var s: State          // the machine, after the same script
    ghost const states: seq<State>         // the machine, after every prefix of the script
    ghost const told: seq<seq<Message>>    // the messages it should have sent by then

    /** The real buffer is that of the ledger. */
    ghost predicate Holds(l: Ledger)
      reads this, edgeBuf, edgeBuf.store, edgeBuf.payloads
    {
      edgeBuf.Valid() && edgeBuf.maxAge == MAX_AGE &&
      edgeBuf.Contents() == Bodies(l)
    }

    /** What the machine goes through on the script, and the messages that amounts to. */
    ghost predicate Recorded() {
      |states| == |script| + 1 && |told| == |script| + 1 &&
      forall n {:trigger script[..n]} :: 0 <= n <= |script| ==>
        states[n] == Run(Init(fallback, firstInterval), script[..n]) &&
        told[n] == Wire(base, states[n].ledger, Calls(Init(fallback, firstInterval), script[..n]))
    }

    /** The machine has taken one step for every answer consumed. */
    ghost predicate InStep()
      reads this
    {
      Recorded() && pos <= |script| && s == states[pos] && s.fallback == fallback
    }

    ghost predicate Valid()
      reads this, edgeBuf, edgeBuf.store, edgeBuf.payloads
    {
      InStep() && Holds(s.ledger) && sent == told[pos] && backoff == s.backoff && interval == s.interval
    }

    constructor (base: Bytes, fallback: bool, interval: int, script: seq<Env>)
      ensures Valid() && pos == 0 && fresh(edgeBuf) && fresh(edgeBuf.store)
      ensures this.base == base && this.fallback == fallback && this.firstInterval == interval
      ensures this.script == script && s == Init(fallback, interval)
    {
      this.base, this.fallback, this.firstInterval, this.script := base, fallback, interval, script;
      pos := 0;
      backoff := 5 * SECOND;
      this.interval := interval;
      sent := [];
      s := Init(fallback, interval);
      states := seq(|script| + 1, n requires 0 <= n <= |script| => Run(Init(fallback, interval), script[..n]));
      told := seq(|script| + 1, n requires 0 <= n <= |script| =>
        Wire(base, Run(Init(fallback, interval), script[..n]).ledger, Calls(Init(fallback, interval), script[..n])));
      edgeBuf := new EventBuffer(300 * SECOND);
      new;
      assert script[..0] == [];
    }

    /** The record, from one answer to the next. */
    lemma Recording(n: nat)
      requires Recorded() && n < |script|
      ensures states[n + 1] == Step(states[n], script[n])
      ensures told[n + 1] == told[n] + MadeBy(base, states[n], script[n])
    {
      RunSnoc(Init(fallback, firstInterval), script, n);
      WireSoFar(base, fallback, firstInterval, script, n);
    }

    /** What the machine's theorems say about every state, as far as it is needed here. */
    lemma Facts(n: nat)
      requires Recorded() && n <= |script|
      ensures Session(states[n]) && InRange(states[n].ledger)
    {
      Ordering(fallback, firstInterval, script[..n]);
    }

    // ------------------------------------------------- single interactions

    /** Consumes one answer; the machine takes its step. */
    method Ask() returns (e: Env)
      requires InStep() && pos < |script|
      modifies this`pos, this`s
      ensures e == script[old(pos)] && pos == old(pos) + 1 && InStep() && s == Step(old(s), e)
      ensures told[pos] == told[old(pos)] + MadeBy(base, old(s), e)
    {
      Recording(pos);
      e := script[pos];
      pos := pos + 1;
      s := Step(s, e);
    }

    /** edgeBuf.push. */
    method PushBytes(payload: Bytes, now: int)
      requires edgeBuf.Valid()
      modifies edgeBuf, edgeBuf.store
      ensures edgeBuf.store == old(edgeBuf.store) || fresh(edgeBuf.store)
      ensures edgeBuf.Valid() && edgeBuf.Contents() == Push(old(edgeBuf.Contents()), payload, now, edgeBuf.maxAge)
    {
      var data := new Byte[|payload|](i requires 0 <= i < |payload| => payload[i]);
      assert data[..] == payload;
      edgeBuf.Push(data, now);
    }

    /** Pushes an event just received. */
    method Keep(ghost l: Ledger, payload: Bytes, now: int)
      requires Holds(l) && InRange(l)
      modifies edgeBuf, edgeBuf.store
      ensures edgeBuf.store == old(edgeBuf.store) || fresh(edgeBuf.store)
      ensures Holds(Apply(l, Effect.Keep(payload), now))
    {
      KeptBodies(l, payload, now);
      PushBytes(payload, now);
    }

    /** Pushes the event in hand. */
    method Store(ghost l: Ledger, payload: Bytes, now: int)
      requires Holds(l) && InRange(l) && InHand(l, [payload])
      modifies edgeBuf, edgeBuf.store
      ensures edgeBuf.store == old(edgeBuf.store) || fresh(edgeBuf.store)
      ensures Holds(Apply(l, Effect.Store, now))
    {
      StoredBodies(l, payload, now);
      PushBytes(payload, now);
    }

    /** edgeBuf.drain. */
    method TakeOut(ghost l: Ledger, now: int) returns (events: seq<array<Byte>>)
      requires Holds(l) && InRange(l) && l.inflight == []
      modifies edgeBuf`len, edgeBuf`payloads
      ensures Holds(Apply(l, DrainAll, now)) && InHand(Apply(l, DrainAll, now), Texts(events))
    {
      DrainedBodies(l, now);
      events := edgeBuf.Drain(now);
    }

    /** js.Publish or nc.Publish. */
    method Publish(via: Via, subject: Bytes, data: Bytes, acked: bool)
      modifies this`sent
      ensures sent == old(sent) + [Message(via, subject, data, acked)]
    {
      sent := sent + [Message(via, subject, data, acked)];
    }

    /** The subject and the data of a payload. */
    method Address(payload: Bytes) returns (subject: Bytes, data: Bytes)
      ensures subject == base + Published(payload).slug && data == Published(payload).data
    {
      match Decode(payload) {
        case Some(p) =>
          return base + p.slug, p.data;
        case None =>
          return base + UNKNOWN, payload;
      }
    }

    /** The publishing of one event in a replay. */
    method PublishReplayed(payload: Bytes, js: bool, acked: bool)
      modifies this`sent
      ensures sent == old(sent) + Copies(base, false, js, acked, payload)
    {
      var subject, data := Address(payload);
      if js {
        Publish(JetStream, subject, data, acked);
        if !acked {
          Publish(Core, subject, data, false);
        }
      } else {
        Publish(Core, subject, data, false);
      }
    }

    /** The publishing of one event in a session. */
    method PublishLive(payload: Bytes, js: bool, acked: bool)
      modifies this`sent
      ensures sent == old(sent) + Copies(base, true, js, acked, payload)
    {
      var subject, data := Address(payload);
      if js {
        Publish(JetStream, subject, data, acked);
      } else {
        Publish(Core, subject, data, false);
      }
    }

    /** Pushes what such a select came up with, if anything. */
    method KeepIfAny(ghost l: Ledger, choice: Choice, now: int)
      requires Holds(l) && InRange(l)
      modifies edgeBuf, edgeBuf.store
      ensures edgeBuf.store == old(edgeBuf.store) || fresh(edgeBuf.store)
      ensures Holds(if choice.Payload? then Apply(l, Effect.Keep(choice.payload), now) else l)
    {
      match choice {
        case Payload(payload) =>
          Keep(l, payload, now);
        case _ =>
      }
    }

    /** A select on the event channel while offline. */
    method SelectOffline() returns (e: Env)
      requires Valid() && pos < |script| && (s.pc.BufferDrain? || s.pc.FallbackDrain?)
      modifies this`pos, this`s, edgeBuf, edgeBuf.store
      ensures Valid() && (edgeBuf.store == old(edgeBuf.store) || fresh(edgeBuf.store))
      ensures pos == old(pos) + 1 && s.js == old(s.js)
      ensures s.pc == if e.choice.Payload? then old(s.pc)
                      else if old(s.pc).BufferDrain? then BackoffWait else FallbackWait
    {
      Facts(pos);
      ghost var l := s.ledger;
      e := Ask();
      KeepIfAny(l, e.choice, e.now);
    }

    /** A step that concerns no event. */
    method Look() returns (e: Env)
      requires Valid() && pos < |script| && EffectOf(s, script[pos]) == Nothing && !s.pc.Replay?
      modifies this`pos, this`s
      ensures InStep() && Holds(s.ledger) && sent == told[pos] && e == script[old(pos)]
      ensures pos == old(pos) + 1 && s == Step(old(s), e)
    {
      e := Ask();
    }

    /** edgeBuf.drain after a reconnection. */
    method DrainBuffer() returns (events: seq<array<Byte>>)
      requires Valid() && pos < |script| && s.pc.Drain?
      modifies this`pos, this`s, edgeBuf`len, edgeBuf`payloads
      ensures Valid() && s.pc == Replay && s.js == old(s.js) && pos == old(pos) + 1
      ensures InHand(s.ledger, Texts(events))
    {
      Facts(pos);
      ghost var l := s.ledger;
      var e := Ask();
      events := TakeOut(l, e.now);
    }

    /** Replays one drained event; a failed JetStream publish is repeated on core NATS. */
    method ReplayOne(payload: Bytes, js: bool, ghost rest: seq<Bytes>)
      requires Valid() && pos < |script| && s.pc.Replay? && js == s.js
      requires InHand(s.ledger, [payload] + rest)
      modifies this`pos, this`s, this`sent
      ensures Valid() && s.pc == Replay && s.js == old(s.js) && pos == old(pos) + 1
      ensures InHand(s.ledger, rest)
    {
      ghost var l := s.ledger;
      var e := Ask();
      PublishReplayed(payload, js, e.acked);
      HandedInHand(l, payload, rest, if js && e.acked then JetStream else Core, e.now);
    }

    /** The end of the replay loop. */
    method FinishReplay()
      requires Valid() && pos < |script| && s.pc.Replay? && s.ledger.inflight == []
      modifies this`pos, this`s
      ensures Valid() && s.pc.Select? && s.js == old(s.js) && pos == old(pos) + 1
    {
      var _ := Ask();
    }

    /** The select of a publish session. */
    method SelectEvent() returns (e: Env)
      requires Valid() && pos < |script| && s.pc.Select?
      modifies this`pos, this`s, this`interval
      ensures Valid() && s.js == old(s.js) && pos == old(pos) + 1
      ensures s.pc == match e.choice
                      case Done => PostSession
                      case Closed => PostSession
                      case Payload(_) => Check
                      case _ => Select
      ensures e.choice.Payload? ==> InHand(s.ledger, [e.choice.payload])
    {
      Facts(pos);
      ghost var l := s.ledger;
      e := Ask();
      TakenIfAny(l, e.choice, e.now);
      match e.choice {
        case NewInterval(d) =>
          interval := d;
        case _ =>
      }
    }

    /** The connection test before a publish; an event found without one is buffered. */
    method CheckConnection(payload: Bytes) returns (up: bool)
      requires Valid() && pos < |script| && s.pc.Check? && InHand(s.ledger, [payload])
      modifies this`pos, this`s, edgeBuf, edgeBuf.store
      ensures Valid() && (edgeBuf.store == old(edgeBuf.store) || fresh(edgeBuf.store))
      ensures s.pc == NextPc(old(s), script[old(pos)]) && s.js == old(s.js) && pos == old(pos) + 1
      ensures up == script[old(pos)].connected && (up ==> InHand(s.ledger, [payload]))
    {
      Facts(pos);
      ghost var l := s.ledger;
      var e := Ask();
      up := e.connected;
      if !up {
        Store(l, payload, e.now);
      }
    }

    /** Publishes the event in hand; what JetStream does not acknowledge is buffered. */
    method PublishOrStore(ghost l: Ledger, payload: Bytes, js: bool, acked: bool, now: int) returns (sentIt: bool)
      requires Holds(l) && InRange(l) && InHand(l, [payload])
      modifies this`sent, edgeBuf, edgeBuf.store
      ensures edgeBuf.store == old(edgeBuf.store) || fresh(edgeBuf.store)
      ensures sentIt <==> !js || acked
      ensures Holds(Apply(l, if sentIt then Hand(if js then JetStream else Core) else Effect.Store, now))
      ensures sent == old(sent) + Copies(base, true, js, acked, payload)
    {
      sentIt := !js || acked;
      PublishLive(payload, js, acked);
      if sentIt {
        HandedBodies(l, if js then JetStream else Core, now);
      } else {
        Store(l, payload, now);
      }
    }

    /** The publish; an event JetStream does not acknowledge is buffered. */
    method SendEvent(payload: Bytes, js: bool) returns (sentIt: bool)
      requires Valid() && pos < |script| && s.pc.Send? && js == s.js && InHand(s.ledger, [payload])
      modifies this`pos, this`s, this`sent, edgeBuf, edgeBuf.store
      ensures Valid() && (edgeBuf.store == old(edgeBuf.store) || fresh(edgeBuf.store))
      ensures s.pc == (if sentIt then Select else Recheck) && s.js == old(s.js) && pos == old(pos) + 1
      ensures sentIt <==> !js || script[old(pos)].acked
    {
      Facts(pos);
      ghost var l := s.ledger;
      var e := Ask();
      sentIt := PublishOrStore(l, payload, js, e.acked, e.now);
    }

    /** The connection test after a failed publish. */
    method RecheckConnection() returns (up: bool)
      requires Valid() && pos < |script| && s.pc.Recheck?
      modifies this`pos, this`s
      ensures Valid() && s.pc == NextPc(old(s), script[old(pos)]) && s.js == old(s.js) && pos == old(pos) + 1
      ensures s.pc == if up then Select else PostSession
    {
      Facts(pos);
      var e := Ask();
      up := e.connected;
    }

    /** ctx.Err() at the top of the loop. */
    method TestContext() returns (done: bool)
      requires Valid() && pos < |script| && s.pc.Top?
      modifies this`pos, this`s
      ensures Valid() && pos == old(pos) + 1 && s.pc == if done then Stopped else Connect
    {
      var e := Look();
      done := e.choice.Done?;
    }

    /** connectNATS; a connection resets the backoff. */
    method Dial() returns (up: bool, js: bool)
      requires Valid() && pos < |script| && s.pc.Connect?
      modifies this`pos, this`s, this`backoff
      ensures Valid() && pos == old(pos) + 1 && (up ==> js == s.js)
      ensures s.pc == if up then Drain else if fallback then FallbackDrain else BufferDrain
    {
      var e := Look();
      up, js := e.connects, e.jetStream;
      if up {
        backoff := 5 * SECOND;
      }
    }

    /** The select of the fallback loop. */
    method SelectFallback() returns (e: Env)
      requires Valid() && pos < |script| && s.pc.FallbackWait?
      modifies this`pos, this`s, this`interval
      ensures Valid() && pos == old(pos) + 1 && s.pc == NextPc(old(s), e)
    {
      e := Look();
      match e.choice {
        case NewInterval(d) =>
          interval := d;
        case _ =>
      }
    }

    /** The select of the backoff sleep; a sleep that ends doubles a backoff under five minutes. */
    method SelectBackoff() returns (e: Env)
      requires Valid() && pos < |script| && s.pc.BackoffWait?
      modifies this`pos, this`s, this`backoff
      ensures Valid() && pos == old(pos) + 1 && s.pc == NextPc(old(s), e)
    {
      e := Look();
      if e.choice.Tick? && backoff < 5 * 60 * SECOND {
        backoff := backoff * 2;
      }
    }

    /** The select after a session. */
    method SelectPause() returns (e: Env)
      requires Valid() && pos < |script| && s.pc.PostSession?
      modifies this`pos, this`s
      ensures Valid() && pos == old(pos) + 1 && s.pc == NextPc(old(s), e)
    {
      e := Look();
    }

    // --------------------------------------------------------------- loops

    /** bufferFromChannel, and the drain loop of the fallback. */
    method BufferFromChannel()
      requires Valid() && (s.pc.BufferDrain? || s.pc.FallbackDrain?)
      modifies this`pos, this`s, edgeBuf, edgeBuf.store
      ensures old(pos) <= pos && Valid() && (edgeBuf.store == old(edgeBuf.store) || fresh(edgeBuf.store))
      ensures s.pc == old(s.pc) || s.pc == if old(s.pc).BufferDrain? then BackoffWait else FallbackWait
      ensures pos == |script| || (s.pc != old(s.pc) && old(pos) < pos)
    {
      while pos < |script|
        invariant Valid() && s.pc == old(s.pc)
        invariant edgeBuf.store == old(edgeBuf.store) || fresh(edgeBuf.store)
        decreases |script| - pos
      {
        var e := SelectOffline();
        if !e.choice.Payload? {
          return;
        }
      }
    }

    /** The loop of drainEdgeBuffer. */
    method ReplayEvents(events: seq<array<Byte>>, js: bool)
      requires Valid() && s.pc.Replay? && js == s.js && InHand(s.ledger, Texts(events))
      modifies this`pos, this`s, this`sent
      ensures old(pos) <= pos && Valid() && s.pc.Replay? && s.js == js
      ensures pos == |script| || s.ledger.inflight == []
    {
      var i := 0;
      while i < |events|
        invariant Valid() && s.pc.Replay? && s.js == js && i <= |events| && old(pos) <= pos
        invariant InHand(s.ledger, Texts(events)[i..])
      {
        if pos == |script| {
          return;
        }
        assert Texts(events)[i..] == [events[i][..]] + Texts(events)[i + 1..];
        ReplayOne(events[i][..], js, Texts(events)[i + 1..]);
        i := i + 1;
      }
    }

    /** drainEdgeBuffer. */
    method DrainEdgeBuffer(js: bool)
      requires Valid() && s.pc.Drain? && js == s.js
      modifies this`pos, this`s, this`sent, edgeBuf`len, edgeBuf`payloads
      ensures Valid() && s.js == js && old(pos) <= pos
      ensures pos == |script| || s.pc.Select?
    {
      if pos == |script| {
        return;
      }
      var events := DrainBuffer();
      ReplayEvents(events, js);
      if pos < |script| {
        FinishReplay();
      }
    }

    /** What publishEvents does with one event. */
    method PublishOne(payload: Bytes, js: bool) returns (goOn: bool)
      requires Valid() && s.pc.Check? && js == s.js && InHand(s.ledger, [payload])
      modifies this`pos, this`s, this`sent, edgeBuf, edgeBuf.store
      ensures old(pos) <= pos && Valid() && (edgeBuf.store == old(edgeBuf.store) || fresh(edgeBuf.store))
      ensures s.js == js && (pos == |script| || s.pc == if goOn then Select else PostSession)
    {
      goOn := false;
      if pos == |script| {
        return;
      }
      var up := CheckConnection(payload);
      if !up || pos == |script| {
        return;
      }
      goOn := SendEvent(payload, js);
      if goOn || pos == |script| {
        return;
      }
      goOn := RecheckConnection();
    }

    /** One turn of publishEvents. */
    method PublishTurn(js: bool) returns (goOn: bool)
      requires Valid() && s.pc.Select? && js == s.js && pos < |script|
      modifies this`pos, this`s, this`sent, this`interval, edgeBuf, edgeBuf.store
      ensures old(pos) < pos && Valid() && (edgeBuf.store == old(edgeBuf.store) || fresh(edgeBuf.store))
      ensures s.js == js && (pos == |script| || s.pc == if goOn then Select else PostSession)
    {
      var e := SelectEvent();
      goOn := true;
      match e.choice {
        case Done =>
          goOn := false;
        case Closed =>
          goOn := false;
        case Payload(payload) =>
          goOn := PublishOne(payload, js);
        case _ =>
      }
    }

    /** publishEvents. */
    method PublishEvents(js: bool)
      requires Valid() && s.pc.Select? && js == s.js
      modifies this`pos, this`s, this`sent, this`interval, edgeBuf, edgeBuf.store
      ensures old(pos) <= pos && Valid() && (edgeBuf.store == old(edgeBuf.store) || fresh(edgeBuf.store))
      ensures pos == |script| || s.pc.PostSession?
    {
      while pos < |script|
        invariant Valid() && (pos == |script| || s.pc.Select?) && js == s.js && old(pos) <= pos
        invariant edgeBuf.store == old(edgeBuf.store) || fresh(edgeBuf.store)
        decreases |script| - pos
      {
        var goOn := PublishTurn(js);
        if !goOn {
          return;
        }
      }
    }

    /** The select of the fallback loop, until it offers something it waits for. */
    method WaitFallback() returns (choice: Choice)
      requires Valid() && s.pc.FallbackWait?
      modifies this`pos, this`s, this`interval
      ensures old(pos) <= pos && Valid()
      ensures pos == |script| ||
              (choice.Done? && s.pc.Stopped?) || (choice.Tick? && s.pc.Top?) ||
              (choice.NewInterval? && s.pc.FallbackDrain?)
    {
      choice := Idle;
      while pos < |script|
        invariant Valid() && s.pc.FallbackWait? && old(pos) <= pos
        decreases |script| - pos
      {
        var e := SelectFallback();
        choice := e.choice;
        if choice.Done? || choice.Tick? || choice.NewInterval? {
          return;
        }
      }
    }

    /** The fallback loop: empty the channel, wait, until it is time to dial again. */
    method FallbackLoop() returns (stop: bool)
      requires Valid() && s.pc.FallbackDrain?
      modifies this`pos, this`s, this`interval, edgeBuf, edgeBuf.store
      ensures old(pos) <= pos && Valid() && (edgeBuf.store == old(edgeBuf.store) || fresh(edgeBuf.store))
      ensures pos == |script| || s.pc == if stop then Stopped else Top
    {
      stop := true;
      while pos < |script|
        invariant Valid() && (pos == |script| || s.pc.FallbackDrain?) && old(pos) <= pos
        invariant edgeBuf.store == old(edgeBuf.store) || fresh(edgeBuf.store)
        decreases |script| - pos
      {
        BufferFromChannel();
        if pos == |script| {
          return;
        }
        var choice := WaitFallback();
        if !choice.NewInterval? {
          stop := choice.Done?;
          return;
        }
      }
    }

    /** The backoff sleep. */
    method Sleep() returns (stop: bool)
      requires Valid() && s.pc.BackoffWait?
      modifies this`pos, this`s, this`backoff
      ensures old(pos) <= pos && Valid() && (pos == |script| || s.pc == if stop then Stopped else Top)
    {
      while pos < |script|
        invariant Valid() && s.pc.BackoffWait?
        decreases |script| - pos
      {
        var e := SelectBackoff();
        match e.choice {
          case Done =>
            return true;
          case Tick =>
            return false;
          case _ =>
        }
      }
      stop := false;
    }

    /** The sleep after a session. */
    method Pause() returns (stop: bool)
      requires Valid() && s.pc.PostSession?
      modifies this`pos, this`s
      ensures old(pos) <= pos && Valid() && (pos == |script| || s.pc == if stop then Stopped else Top)
    {
      while pos < |script|
        invariant Valid() && s.pc.PostSession?
        decreases |script| - pos
      {
        var e := SelectPause();
        match e.choice {
          case Done =>
            return true;
          case Tick =>
            return false;
          case _ =>
        }
      }
      stop := false;
    }

    /** One attempt to connect, with what follows from it. */
    method Attempt() returns (stop: bool)
      requires Valid() && s.pc.Connect?
      modifies this, edgeBuf, edgeBuf.store
      ensures old(pos) <= pos && Valid() && (edgeBuf.store == old(edgeBuf.store) || fresh(edgeBuf.store))
      ensures pos == |script| || s.pc == if stop then Stopped else Top
    {
      stop := true;
      if pos == |script| {
        return;
      }
      var up, js := Dial();
      if !up {
        if fallback {
          stop := FallbackLoop();
        } else {
          BufferFromChannel();
          if pos < |script| {
            stop := Sleep();
          }
        }
        return;
      }
      DrainEdgeBuffer(js);
      if pos < |script| {
        PublishEvents(js);
      }
      if pos < |script| {
        stop := Pause();
      }
    }

    /** runTelemetryLoop, until the context is done or the script ends. */
    method RunTelemetryLoop()
      requires Valid() && s.pc.Top?
      modifies this, edgeBuf, edgeBuf.store
      ensures Valid() && (pos == |script| || s.pc.Stopped?)
    {
      while pos < |script|
        invariant Valid() && (pos == |script| || s.pc.Top?)
        invariant edgeBuf.store == old(edgeBuf.store) || fresh(edgeBuf.store)
        decreases |script| - pos
      {
        var stop := TestContext();
        if stop {
          return;
        }
        stop := Attempt();
        if stop {
          return;
        }
      }
    }
  }

  /** A run of the loop from the start: the calls of js.Publish and nc.Publish it makes are
      those the machine makes on the same script, each with its event's own payload; and
      those that were acknowledged or on core NATS are the machine's hand-offs. */
  method RunFromStart(base: Bytes, fallback: bool, interval: int, script: seq<Env>)
    returns (sent: seq<Message>, used: nat)
    ensures used <= |script|
    ensures var s0 := Init(fallback, interval);
            var s := Run(s0, script[..used]);
            (used == |script| || s.pc.Stopped?) &&
            sent == Wire(base, s.ledger, Calls(s0, script[..used])) &&
            Effective(sent) == Messages(base, s.ledger, s.ledger.handed)
    ensures var s0 := Init(fallback, interval);
            AllAddressed(base, Run(s0, script[..used]).ledger, Calls(s0, script[..used]), sent)
  {
    var agent := new Agent(base, fallback, interval, script);
    agent.RunTelemetryLoop();
    sent, used := agent.sent, agent.pos;
    EffectiveAreHanded(base, fallback, interval, script[..used]);
    CallsKnown(fallback, interval, script[..used]);
    WireAddressed(base, Run(Init(fallback, interval), script[..used]).ledger,
        Calls(Init(fallback, interval), script[..used]));
  }

  lemma EffectiveAreHanded(base: Bytes, fallback: bool, interval: int, script: seq<Env>)
    ensures var s0 := Init(fallback, interval);
            var l := Run(s0, script).ledger;
            Effective(Wire(base, l, Calls(s0, script))) == Messages(base, l, l.handed)
  {
    var s0 := Init(fallback, interval);
    CallsCoreUnacked(s0, script);
    EffectiveWire(base, Run(s0, script).ledger, Calls(s0, script));
    CountedAreHanded(fallback, interval, script);
  }

  /** The messages for these hand-offs, each where its event's own frame says. */
  ghost predicate HandedAddressed(base: Bytes, l: Ledger, handed: seq<HandOff>, sent: seq<Message>) {
    |sent| == |handed| &&
    forall i :: 0 <= i < |handed| ==>
      handed[i].id < |l.received| && sent[i].via == handed[i].via && sent[i].acked == handed[i].via.JetStream? &&
      Addressed(base, sent[i], l.received[handed[i].id].payload)
  }

  lemma MessagesAddressed(base: Bytes, l: Ledger, handed: seq<HandOff>)
    requires forall i :: 0 <= i < |handed| ==> handed[i].id < |l.received|
    ensures HandedAddressed(base, l, handed, Messages(base, l, handed))
  {
    forall i | 0 <= i < |handed|
      ensures Addressed(base, Messages(base, l, handed)[i], l.received[handed[i].id].payload)
    {
      OutgoingAddressed(base, handed[i].via, handed[i].via.JetStream?, l.received[handed[i].id].payload);
    }
  }

  lemma HandedOnceInOrder(fallback: bool, interval: int, script: seq<Env>)
    ensures var l := Run(Init(fallback, interval), script).ledger;
            (forall i :: 0 <= i < |l.handed| ==> l.handed[i].id < |l.received|) &&
            (forall i, j :: 0 <= i < j < |l.handed| ==> l.handed[i].id != l.handed[j].id) &&
            (l.refused == {} ==> Increasing(HandedIds(l.handed)))
  {
    Ordering(fallback, interval, script);
    NeverTwice(fallback, interval, script);
    if Run(Init(fallback, interval), script).ledger.refused == {} {
      HandedInReceiptOrder(fallback, interval, script);
    }
  }

  /** So no event is acknowledged or published on core NATS more than once, and without
      refusals those messages are of events in the order they were received. */
  lemma SentInOrder(base: Bytes, fallback: bool, interval: int, script: seq<Env>)
    ensures var s0 := Init(fallback, interval);
            var l := Run(s0, script).ledger;
            var effective := Effective(Wire(base, l, Calls(s0, script)));
            effective == Messages(base, l, l.handed) && HandedAddressed(base, l, l.handed, effective) &&
            (forall i, j :: 0 <= i < j < |l.handed| ==> l.handed[i].id != l.handed[j].id) &&
            (l.refused == {} ==> Increasing(HandedIds(l.handed)))
  {
    var l := Run(Init(fallback, interval), script).ledger;
    HandedOnceInOrder(fallback, interval, script);
    EffectiveAreHanded(base, fallback, interval, script);
    MessagesAddressed(base, l, l.handed);
  }
}
