/** Reporting intervals in internal/agent/agent.go and internal/agent/pulse.go: from the
    controller's instructions, through a one-slot channel, into tickers. Durations are
    64-bit integers that wrap; resetting a ticker to a duration that is not positive
    is a panic. */
module Intervals {
  import opened Common

  const TWO63: int := 0x8000_0000_0000_0000
  const TWO64: int := 0x1_0000_0000_0000_0000

  /** The value of x in a signed 64-bit integer. */
  function Wrap(x: int): (r: int)
    ensures -TWO63 <= r < TWO63
    ensures -TWO63 <= x < TWO63 ==> r == x
  {
    (x + TWO63) % TWO64 - TWO63
  }

  /** time.Duration(n) * time.Second. */
  function Seconds(n: int): int {
    Wrap(n * SECOND)
  }

  /** The largest number of seconds a duration can hold. */
  const MAX_SECONDS: int := 9_223_372_036

  /** A number of seconds becomes that duration exactly when it is at most MAX_SECONDS. */
  lemma SecondsExact(n: int)
    requires 0 < n < TWO63
    ensures Seconds(n) == n * SECOND <==> n <= MAX_SECONDS
  {
    if n > MAX_SECONDS {
      assert n * SECOND >= TWO63;
    } else {
      assert n * SECOND < TWO63;
    }
  }

  datatype Hello = Hello(interval: int, nickname: string, state: string, profile: string)

  /** What a controller message decodes to; None where its payload does not parse. */
  datatype Message =
    | HelloInstruction(hello: Option<Hello>)
    | ConfigInstruction(hello: Option<Hello>)
    | SetInterval(seconds: Option<int>)
    | HeartbeatHello(hello: Option<Hello>)
    | Other

  /** Who reads the interval channel. */
  datatype Receiver = Collector | Fallback | OfflineLoop | Publisher | Leaf

  datatype Event =
    | Arrives(m: Message)
    | Reads(r: Receiver)
    | StartsOffline   // the telemetry loop makes a ticker of its interval
    | StartsFallback  // so does the HTTP fallback, of the default interval

  class Control {
    const defaultInterval: int
    var hello: Option<Hello>
    var channel: Option<int>
    var loopInterval: int      // the interval variable of the telemetry loop
    var tickers: seq<int>      // every duration a ticker was given

    ghost function View(): State
      reads this
    {
      State(defaultInterval, hello, channel, loopInterval, tickers)
    }

    /** A configured default that is not positive is replaced by a minute. */
    constructor (configured: int)
      ensures View() == Start(configured)
    {
      var d := if configured > 0 then configured else 60 * SECOND;
      defaultInterval := d;
      hello, channel := None, None;
      loopInterval := d;
      tickers := [d];
    }

    /** A send that gives up when the slot is taken. */
    method Offer(d: int)
      modifies this`channel
      ensures channel == if old(channel).None? then Some(d) else old(channel)
    {
      if channel.None? {
        channel := Some(d);
      }
    }

    /** The hello, config and heartbeat branches. */
    method Greet(cfg: Option<Hello>)
      modifies this`hello, this`channel
      ensures View() == Step(old(View()), Arrives(HelloInstruction(cfg)))
    {
      if cfg.Some? {
        hello := cfg;
        if cfg.value.interval > 0 {
          Offer(Wrap(cfg.value.interval * SECOND));
        }
      }
    }

    /** handleInstruction and handleCmd, as far as intervals go. */
    method Handle(m: Message)
      modifies this`hello, this`channel
      ensures View() == Step(old(View()), Arrives(m))
    {
      match m {
        case HelloInstruction(cfg) => Greet(cfg);
        case ConfigInstruction(cfg) => Greet(cfg);
        case HeartbeatHello(cfg) => Greet(cfg);
        case SetInterval(p) =>
          if p.Some? && p.value > 0 {
            Offer(Wrap(p.value * SECOND));
          }
        case Other =>
      }
    }

    /** A receiver takes what the channel offers. */
    method Receive(r: Receiver)
      modifies this`channel, this`loopInterval, this`tickers
      ensures View() == Step(old(View()), Reads(r))
    {
      if channel.Some? {
        var d := channel.value;
        channel := None;
        match r {
          case Collector | Fallback =>
            tickers := tickers + [d];
          case OfflineLoop =>
            loopInterval := d;
            tickers := tickers + [d];
          case Publisher =>
            loopInterval := d;
          case Leaf =>
        }
      }
    }

    /** The telemetry loop makes a ticker of its interval. */
    method StartOffline()
      modifies this`tickers
      ensures View() == Step(old(View()), StartsOffline)
    {
      tickers := tickers + [loopInterval];
    }

    /** The HTTP fallback makes one of the default interval. */
    method StartFallback()
      modifies this`tickers
      ensures View() == Step(old(View()), StartsFallback)
    {
      tickers := tickers + [defaultInterval];
    }

    method Happens(e: Event)
      modifies this
      ensures View() == Step(old(View()), e)
    {
      match e {
        case Arrives(m) => Handle(m);
        case Reads(r) => Receive(r);
        case StartsOffline => StartOffline();
        case StartsFallback => StartFallback();
      }
    }
  }

  /** Any run of events: the class goes through the states of the machine, so no ticker is
      given a duration that is not positive while the controller stays within MAX_SECONDS. */
  method RunControl(configured: int, events: seq<Event>) returns (tickers: seq<int>)
    ensures tickers == Run(Start(configured), events).tickers
    ensures Sane(events, MAX_SECONDS) ==> forall i :: 0 <= i < |tickers| ==> tickers[i] > 0
  {
    var control := new Control(configured);
    for n := 0 to |events|
      invariant control.View() == Run(Start(configured), events[..n])
    {
      assert events[..n + 1][..n] == events[..n];
      control.Happens(events[n]);
    }
    assert events[..|events|] == events;
    tickers := control.tickers;
    if Sane(events, MAX_SECONDS) {
      TickersPositive(configured, events);
    }
  }

  // -------------------------------------------------------------- machine

  datatype State = State(
    defaultInterval: int, hello: Option<Hello>, channel: Option<int>, loopInterval: int, tickers: seq<int>)

  function Start(configured: int): State {
    var d := if configured > 0 then configured else 60 * SECOND;
    State(d, None, None, d, [d])
  }

  /** The seconds a message asks for. */
  function Asked(m: Message): Option<int> {
    match m
    case HelloInstruction(Some(h)) => Some(h.interval)
    case ConfigInstruction(Some(h)) => Some(h.interval)
    case HeartbeatHello(Some(h)) => Some(h.interval)
    case SetInterval(p) => p
    case _ => None
  }

  function Step(s: State, e: Event): State {
    match e
    case Arrives(m) =>
      var s1 :=
        (match m
         case HelloInstruction(Some(h)) => s.(hello := Some(h))
         case ConfigInstruction(Some(h)) => s.(hello := Some(h))
         case HeartbeatHello(Some(h)) => s.(hello := Some(h))
         case _ => s);
      if Asked(m).Some? && Asked(m).value > 0 && s.channel.None?
      then s1.(channel := Some(Seconds(Asked(m).value)))
      else s1
    case Reads(r) =>
      if s.channel.None? then s
      else
        var d, s1 := s.channel.value, s.(channel := None);
        (match r
         case Collector => s1.(tickers := s.tickers + [d])
         case Fallback => s1.(tickers := s.tickers + [d])
         case OfflineLoop => s1.(tickers := s.tickers + [d], loopInterval := d)
         case Publisher => s1.(loopInterval := d)
         case Leaf => s1)
    case StartsOffline => s.(tickers := s.tickers + [s.loopInterval])
    case StartsFallback => s.(tickers := s.tickers + [s.defaultInterval])
  }

  function Run(s: State, events: seq<Event>): State {
    if events == [] then s else Step(Run(s, events[..|events| - 1]), events[|events| - 1])
  }

  /** The controller asks for durations that fit, as far as it asks for any. */
  ghost predicate Sane(events: seq<Event>, bound: int) {
    forall i :: 0 <= i < |events| && events[i].Arrives? && Asked(events[i].m).Some? ==>
      Asked(events[i].m).value <= bound
  }

  /** Durations on their way to a ticker, and those that got there, are positive. */
  ghost predicate AllPositive(s: State) {
    s.defaultInterval > 0 && s.loopInterval > 0 && (s.channel.Some? ==> s.channel.value > 0) &&
    forall i :: 0 <= i < |s.tickers| ==> s.tickers[i] > 0
  }

  lemma SecondsPositive(n: int)
    requires 0 < n <= MAX_SECONDS
    ensures Seconds(n) > 0
  {
    SecondsExact(n);
  }

  /** No ticker is ever given a duration that is not positive, whatever the messages
      and whoever reads the channel, if the controller stays within MAX_SECONDS. */
  lemma {:induction false} TickersPositive(configured: int, events: seq<Event>)
    requires Sane(events, MAX_SECONDS)
    ensures AllPositive(Run(Start(configured), events))
  {
    if events != [] {
      var before, e := events[..|events| - 1], events[|events| - 1];
      TickersPositive(configured, before);
      if e.Arrives? && Asked(e.m).Some? && Asked(e.m).value > 0 {
        SecondsPositive(Asked(e.m).value);
      }
    }
  }

  /** A bound above MAX_SECONDS lets a ticker be given a negative duration. */
  lemma TickerNegative(configured: int)
    ensures var s := Run(Start(configured), [Arrives(SetInterval(Some(MAX_SECONDS + 1))), Reads(Collector)]);
            |s.tickers| == 2 && s.tickers[1] < 0
  {
    var e1, e2 := Arrives(SetInterval(Some(MAX_SECONDS + 1))), Reads(Collector);
    var s0 := Start(configured);
    RunSnoc(s0, [], e1);
    RunSnoc(s0, [e1], e2);
    assert [] + [e1] == [e1] && [e1] + [e2] == [e1, e2];
    assert Seconds(MAX_SECONDS + 1) < 0;
    assert Run(s0, [e1, e2]).tickers == s0.tickers + [Seconds(MAX_SECONDS + 1)];
  }

  // ------------------------------------------------ what each event does

  /** The messages that ask for n seconds, with the greeting they set. */
  predicate AsksFor(m: Message, n: int, greeting: Option<Hello>) {
    (greeting.Some? && greeting.value.interval == n &&
     (m == HelloInstruction(greeting) || m == ConfigInstruction(greeting) || m == HeartbeatHello(greeting))) ||
    (greeting.None? && m == SetInterval(Some(n)))
  }

  /** Every kind of instruction that asks for a positive number of seconds puts that
      duration into the channel if it is empty, and nothing otherwise; all but a bare
      interval also set the greeting. A number that is not positive only sets that. */
  lemma EachMessage(s: State, m: Message, n: int, greeting: Option<Hello>)
    requires AsksFor(m, n, greeting)
    ensures var s' := Step(s, Arrives(m));
            s'.channel == (if n > 0 && s.channel.None? then Some(Wrap(n * SECOND)) else s.channel) &&
            s'.hello == (if greeting.Some? then greeting else s.hello) &&
            s'.loopInterval == s.loopInterval && s'.tickers == s.tickers && s'.defaultInterval == s.defaultInterval
  {
  }

  /** A message of another kind, or one that does not parse, does nothing. */
  lemma OtherMessages(s: State, m: Message)
    requires m in [Other, HelloInstruction(None), ConfigInstruction(None), HeartbeatHello(None), SetInterval(None)]
    ensures Step(s, Arrives(m)) == s
  {
  }

  /** A duration taken from the channel reaches the ticker of the collector, of the HTTP
      fallback, or of the telemetry loop while offline, and the interval of that loop
      offline and in a session; the embedded node ignores it. */
  lemma EachReceiver(s: State, r: Receiver, d: int)
    requires s.channel == Some(d)
    ensures var s' := Step(s, Reads(r));
            s'.channel == None && s'.hello == s.hello && s'.defaultInterval == s.defaultInterval &&
            (r in {Collector, Fallback, OfflineLoop} ==> s'.tickers == s.tickers + [d]) &&
            (r in {Publisher, Leaf} ==> s'.tickers == s.tickers) &&
            (r in {OfflineLoop, Publisher} ==> s'.loopInterval == d) &&
            (r in {Collector, Fallback, Leaf} ==> s'.loopInterval == s.loopInterval)
  {
  }

  /** Without one, nothing happens. Tickers start with the configured interval, or a
      minute if that is not positive; later ones with the interval then in force. */
  lemma OtherEvents(s: State, r: Receiver, configured: int)
    ensures s.channel == None ==> Step(s, Reads(r)) == s
    ensures Step(s, StartsOffline) == s.(tickers := s.tickers + [s.loopInterval])
    ensures Step(s, StartsFallback) == s.(tickers := s.tickers + [s.defaultInterval])
    ensures var d := if configured > 0 then configured else 60_000_000_000;
            Start(configured) == State(d, None, None, d, [d])
  {
  }

  lemma {:induction false} StaysOffered(s: State, events: seq<Event>, d: int)
    requires s.channel == Some(d) && forall k :: 0 <= k < |events| ==> !events[k].Reads?
    ensures Run(s, events).channel == Some(d)
  {
    if events != [] {
      StaysOffered(s, events[..|events| - 1], d);
    }
  }

  lemma {:induction false} RunConcat(s: State, a: seq<Event>, b: seq<Event>)
    ensures Run(s, a + b) == Run(Run(s, a), b)
  {
    if b == [] {
      assert a + b == a;
    } else {
      var init, e := b[..|b| - 1], b[|b| - 1];
      RunConcat(s, a, init);
      assert a + b == (a + init) + [e];
      RunSnoc(s, a + init, e);
    }
  }

  /** In every run a duration asked for while the channel is empty reaches the first receiver
      that reads the channel after that, whatever else is asked for and started meanwhile,
      and through it the tickers and the loop interval that receiver is there for. */
  lemma FirstReaderGets(configured: int, before: seq<Event>, m: Message, n: int, greeting: Option<Hello>,
      between: seq<Event>, r: Receiver)
    requires AsksFor(m, n, greeting) && n > 0 && Run(Start(configured), before).channel == None
    requires forall k :: 0 <= k < |between| ==> !between[k].Reads?
    ensures var s := Run(Start(configured), before + [Arrives(m)] + between);
            var s' := Run(Start(configured), before + [Arrives(m)] + between + [Reads(r)]);
            var d := Wrap(n * SECOND);
            s'.channel == None &&
            s'.tickers == (if r in {Collector, Fallback, OfflineLoop} then s.tickers + [d] else s.tickers) &&
            s'.loopInterval == if r in {OfflineLoop, Publisher} then d else s.loopInterval
  {
    var s0, asked := Start(configured), before + [Arrives(m)];
    RunSnoc(s0, before, Arrives(m));
    EachMessage(Run(s0, before), m, n, greeting);
    RunConcat(s0, asked, between);
    StaysOffered(Run(s0, asked), between, Wrap(n * SECOND));
    RunSnoc(s0, asked + between, Reads(r));
    EachReceiver(Run(s0, asked + between), r, Wrap(n * SECOND));
  }

  ghost predicate SafeBound(bound: int) {
    forall configured, events :: Sane(events, bound) ==> AllPositive(Run(Start(configured), events))
  }

  /** So the controller bounds under which no run can hurt a ticker are exactly those up
      to MAX_SECONDS. */
  lemma BoundExactly(bound: int)
    ensures SafeBound(bound) <==> bound <= MAX_SECONDS
  {
    if bound <= MAX_SECONDS {
      forall configured, events | Sane(events, bound)
        ensures AllPositive(Run(Start(configured), events))
      {
        TickersPositive(configured, events);
      }
    } else {
      var events := [Arrives(SetInterval(Some(MAX_SECONDS + 1))), Reads(Collector)];
      TickerNegative(0);
      assert Sane(events, bound) && !AllPositive(Run(Start(0), events));
    }
  }

  lemma RunSnoc(s: State, events: seq<Event>, e: Event)
    ensures Run(s, events + [e]) == Step(Run(s, events), e)
  {
    assert (events + [e])[..|events + [e]| - 1] == events;
  }
}
