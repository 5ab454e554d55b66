/** The time-bounded event buffer of internal/agent/buffer.go, on values, and its relation
    to an unbounded log. EventBuffer.dfy has the buffer as the source keeps it in memory. */
module EdgeBuffer {
  import opened Common

  datatype Entry<+T> = Entry(data: T, createdAt: int)

  // ---------------------------------------------------------------- values

  /** The number of leading entries stamped before the cutoff. */
  function Stale<T>(buf: seq<Entry<T>>, cutoff: int): (n: nat)
    ensures n <= |buf|
    ensures forall k :: 0 <= k < n ==> buf[k].createdAt < cutoff
    ensures n < |buf| ==> cutoff <= buf[n].createdAt
  {
    if buf == [] || cutoff <= buf[0].createdAt then 0 else 1 + Stale(buf[1..], cutoff)
  }

  /** Evicts from the front, then appends. */
  function Push<T>(buf: seq<Entry<T>>, data: T, now: int, maxAge: int): seq<Entry<T>> {
    buf[Stale(buf, now - maxAge)..] + [Entry(data, now)]
  }

  /** The entries stamped after the cutoff, in order. */
  function Fresh<T>(buf: seq<Entry<T>>, cutoff: int): seq<Entry<T>> {
    if buf == [] then []
    else (if buf[0].createdAt > cutoff then [buf[0]] else []) + Fresh(buf[1..], cutoff)
  }

  /** The entries that are not, in order. */
  function Aged<T>(buf: seq<Entry<T>>, cutoff: int): seq<Entry<T>> {
    if buf == [] then []
    else (if buf[0].createdAt > cutoff then [] else [buf[0]]) + Aged(buf[1..], cutoff)
  }

  /** The entries stamped at the cutoff or later, in order. */
  function Since<T>(buf: seq<Entry<T>>, cutoff: int): seq<Entry<T>> {
    Fresh(buf, cutoff - 1)
  }

  function Data<T>(buf: seq<Entry<T>>): (r: seq<T>)
    ensures |r| == |buf|
    ensures forall i :: 0 <= i < |buf| ==> r[i] == buf[i].data
  {
    seq(|buf|, i requires 0 <= i < |buf| => buf[i].data)
  }

  function Drain<T>(buf: seq<Entry<T>>, now: int, maxAge: int): seq<T> {
    Data(Fresh(buf, now - maxAge))
  }

  lemma {:induction false} FreshConcat<T>(a: seq<Entry<T>>, b: seq<Entry<T>>, cutoff: int)
    ensures Fresh(a + b, cutoff) == Fresh(a, cutoff) + Fresh(b, cutoff)
  {
    if a == [] {
      assert a + b == b;
    } else {
      assert (a + b)[1..] == a[1..] + b;
      FreshConcat(a[1..], b, cutoff);
    }
  }

  lemma {:induction false} FreshAll<T>(a: seq<Entry<T>>, cutoff: int)
    requires forall i :: 0 <= i < |a| ==> cutoff < a[i].createdAt
    ensures Fresh(a, cutoff) == a
  {
    if a != [] {
      FreshAll(a[1..], cutoff);
      assert a == [a[0]] + a[1..];
    }
  }

  lemma {:induction false} FreshNone<T>(a: seq<Entry<T>>, cutoff: int)
    requires forall i :: 0 <= i < |a| ==> a[i].createdAt <= cutoff
    ensures Fresh(a, cutoff) == []
  {
    if a != [] {
      FreshNone(a[1..], cutoff);
    }
  }

  // ------------------------------------------------ payloads by reference

  ghost predicate Known<A, B>(m: map<A, B>, buf: seq<Entry<A>>) {
    forall i :: 0 <= i < |buf| ==> buf[i].data in m
  }

  /** Replaces every payload reference by what it refers to. */
  ghost function Read<A, B>(m: map<A, B>, buf: seq<Entry<A>>): (r: seq<Entry<B>>)
    requires Known(m, buf)
    ensures |r| == |buf|
    ensures forall i :: 0 <= i < |buf| ==> r[i] == Entry(m[buf[i].data], buf[i].createdAt)
  {
    seq(|buf|, i requires 0 <= i < |buf| => Entry(m[buf[i].data], buf[i].createdAt))
  }

  /** Eviction looks at stamps only. */
  lemma {:induction false} StaleOfRead<A, B>(m: map<A, B>, buf: seq<Entry<A>>, cutoff: int)
    requires Known(m, buf)
    ensures Stale(Read(m, buf), cutoff) == Stale(buf, cutoff)
  {
    if buf != [] {
      StaleOfRead(m, buf[1..], cutoff);
      assert Read(m, buf)[1..] == Read(m, buf[1..]);
    }
  }

  lemma ReadConcat<A, B>(m: map<A, B>, a: seq<Entry<A>>, b: seq<Entry<A>>)
    requires Known(m, a) && Known(m, b)
    ensures Known(m, a + b) && Read(m, a + b) == Read(m, a) + Read(m, b)
  {
  }

  /** So does draining. */
  lemma {:induction false} FreshOfRead<A, B>(m: map<A, B>, buf: seq<Entry<A>>, cutoff: int)
    requires Known(m, buf)
    ensures Known(m, Fresh(buf, cutoff))
    ensures Fresh(Read(m, buf), cutoff) == Read(m, Fresh(buf, cutoff))
  {
    if buf != [] {
      var tail := buf[1..];
      FreshOfRead(m, tail, cutoff);
      assert Read(m, buf)[1..] == Read(m, tail);
      if buf[0].createdAt > cutoff {
        ReadConcat(m, [buf[0]], Fresh(tail, cutoff));
      } else {
        assert Fresh(buf, cutoff) == Fresh(tail, cutoff);
      }
    }
  }

  lemma ReadDrop<A, B>(m: map<A, B>, buf: seq<Entry<A>>, n: nat)
    requires Known(m, buf) && n <= |buf|
    ensures Known(m, buf[n..]) && Read(m, buf[n..]) == Read(m, buf)[n..]
  {
  }

  lemma PushOfRead<A, B>(m: map<A, B>, buf: seq<Entry<A>>, data: A, now: int, maxAge: int)
    requires Known(m, buf) && data in m
    ensures Known(m, Push(buf, data, now, maxAge))
    ensures Read(m, Push(buf, data, now, maxAge)) == Push(Read(m, buf), m[data], now, maxAge)
  {
    var n, last := Stale(buf, now - maxAge), [Entry(data, now)];
    StaleOfRead(m, buf, now - maxAge);
    ReadDrop(m, buf, n);
    ReadConcat(m, buf[n..], last);
    assert Read(m, last) == [Entry(m[data], now)];
  }

  // ------------------------------------------------- refinement of a log

  datatype Op<+T> = PushOp(data: T, now: int) | DrainOp(now: int)

  /** What is held, and what every drain so far returned. */
  datatype History<+T> = History(held: seq<Entry<T>>, outs: seq<seq<T>>)

  /** The buffer under a run of calls. */
  function Evicting<T>(ops: seq<Op<T>>, maxAge: int): History<T> {
    if ops == [] then History([], []) else
      var h, op := Evicting(ops[..|ops| - 1], maxAge), ops[|ops| - 1];
      match op
      case PushOp(data, now) => History(Push(h.held, data, now, maxAge), h.outs)
      case DrainOp(now) => History([], h.outs + [Drain(h.held, now, maxAge)])
  }

  /** The reference: a log that never forgets and filters by age when it is drained. */
  function Logging<T>(ops: seq<Op<T>>, maxAge: int): History<T> {
    if ops == [] then History([], []) else
      var h, op := Logging(ops[..|ops| - 1], maxAge), ops[|ops| - 1];
      match op
      case PushOp(data, now) => History(h.held + [Entry(data, now)], h.outs)
      case DrainOp(now) => History([], h.outs + [Drain(h.held, now, maxAge)])
  }

  /** No drain reads an earlier clock than a push it collects. The stamps of the
      pushes themselves may be in any order. */
  ghost predicate DrainsLate<T>(ops: seq<Op<T>>, maxAge: int) {
    ops == [] ||
    (var before, op := ops[..|ops| - 1], ops[|ops| - 1];
     DrainsLate(before, maxAge) &&
     (op.DrainOp? ==> StampedBy(Logging(before, maxAge).held, op.now)))
  }

  /** The clock never runs backwards over the whole run. */
  predicate Monotone<T>(ops: seq<Op<T>>) {
    forall i, j :: 0 <= i < j < |ops| ==> ops[i].now <= ops[j].now
  }

  ghost predicate StampedBy<T>(buf: seq<Entry<T>>, t: int) {
    forall i :: 0 <= i < |buf| ==> buf[i].createdAt <= t
  }

  ghost predicate Sorted<T>(buf: seq<Entry<T>>) {
    forall i, j :: 0 <= i < j < |buf| ==> buf[i].createdAt <= buf[j].createdAt
  }

  // ------------------------------------- when eviction can be observed

  /** What is left of a log, pushed entry by entry since the last drain. */
  function Window<T>(log: seq<Entry<T>>, maxAge: int): seq<Entry<T>> {
    if log == [] then []
    else Push(Window(log[..|log| - 1], maxAge), log[|log| - 1].data, log[|log| - 1].createdAt, maxAge)
  }

  /** How many entries the pushes have evicted. */
  function Gone<T>(log: seq<Entry<T>>, maxAge: int): nat {
    if log == [] then 0
    else
      var before, last := log[..|log| - 1], log[|log| - 1];
      Gone(before, maxAge) + Stale(Window(before, maxAge), last.createdAt - maxAge)
  }

  lemma WindowNext<T>(before: seq<Entry<T>>, last: Entry<T>, maxAge: int)
    ensures Window(before + [last], maxAge) == Push(Window(before, maxAge), last.data, last.createdAt, maxAge)
    ensures Gone(before + [last], maxAge)
         == Gone(before, maxAge) + Stale(Window(before, maxAge), last.createdAt - maxAge)
  {
    assert (before + [last])[..|before|] == before;
  }

  lemma RestNext<T>(before: seq<Entry<T>>, n: nat, m: nat, last: Entry<T>)
    requires n + m <= |before|
    ensures before[n..][m..] + [last] == (before + [last])[n + m..]
  {
  }

  lemma {:induction false} WindowIsRest<T>(log: seq<Entry<T>>, maxAge: int)
    ensures Gone(log, maxAge) <= |log| && Window(log, maxAge) == log[Gone(log, maxAge)..]
  {
    if log != [] {
      var before, last := log[..|log| - 1], log[|log| - 1];
      var window := Window(before, maxAge);
      assert before + [last] == log;
      WindowIsRest(before, maxAge);
      WindowNext(before, last, maxAge);
      RestNext(before, Gone(before, maxAge), Stale(window, last.createdAt - maxAge), last);
    }
  }

  /** The position of the first entry stamped after the cutoff, or the length. */
  function FirstYoung<T>(log: seq<Entry<T>>, cutoff: int): (i: nat)
    ensures i <= |log| && (i < |log| ==> log[i].createdAt > cutoff)
    ensures forall k :: 0 <= k < i ==> log[k].createdAt <= cutoff
  {
    if log == [] || log[0].createdAt > cutoff then 0 else 1 + FirstYoung(log[1..], cutoff)
  }

  /** A push stamped more than maxAge after entry i came after it. */
  ghost predicate Overtaken<T>(log: seq<Entry<T>>, i: nat, maxAge: int) {
    exists j :: i < j < |log| && log[i].createdAt < log[j].createdAt - maxAge
  }

  lemma OvertakenNext<T>(log: seq<Entry<T>>, i: nat, maxAge: int)
    requires log != [] && i < |log| - 1
    ensures Overtaken(log, i, maxAge) <==>
            Overtaken(log[..|log| - 1], i, maxAge) || log[i].createdAt < log[|log| - 1].createdAt - maxAge
  {
    var before := log[..|log| - 1];
    if j :| i < j < |before| && before[i].createdAt < before[j].createdAt - maxAge {
      assert log[i].createdAt < log[j].createdAt - maxAge;
    }
    if j :| i < j < |log| && log[i].createdAt < log[j].createdAt - maxAge {
      assert j < |before| ==> before[i].createdAt < before[j].createdAt - maxAge;
    }
  }

  /** A push evicts an entry younger than those before it exactly if it is stamped more
      than maxAge later: what stands before that entry is older still. */
  lemma StaleReaches<T>(buf: seq<Entry<T>>, i: nat, limit: int)
    requires i < |buf| && forall k :: 0 <= k < i ==> buf[k].createdAt <= buf[i].createdAt
    ensures i < Stale(buf, limit) <==> buf[i].createdAt < limit
  {
    var n := Stale(buf, limit);
    assert n <= i ==> buf[n].createdAt <= buf[i].createdAt;
  }

  lemma StaleOfRest<T>(before: seq<Entry<T>>, n: nat, i: nat, limit: int)
    requires n <= i < |before| && forall k :: 0 <= k < i ==> before[k].createdAt <= before[i].createdAt
    ensures i < n + Stale(before[n..], limit) <==> before[i].createdAt < limit
  {
    var window := before[n..];
    assert window[i - n] == before[i];
    assert forall k :: 0 <= k < i - n ==> window[k] == before[n + k];
    StaleReaches(window, i - n, limit);
  }

  lemma GoneNext<T>(before: seq<Entry<T>>, last: Entry<T>, i: nat, maxAge: int)
    requires i < |before| && forall k :: 0 <= k < i ==> before[k].createdAt <= before[i].createdAt
    ensures i < Gone(before + [last], maxAge) <==>
            i < Gone(before, maxAge) || before[i].createdAt < last.createdAt - maxAge
  {
    var n := Gone(before, maxAge);
    var m := Stale(Window(before, maxAge), last.createdAt - maxAge);
    assert Gone(before + [last], maxAge) == n + m by {
      WindowNext(before, last, maxAge);
    }
    if n <= i {
      WindowIsRest(before, maxAge);
      StaleOfRest(before, n, i, last.createdAt - maxAge);
    }
  }

  lemma {:induction false} GoneMeans<T>(log: seq<Entry<T>>, i: nat, maxAge: int)
    requires i < |log| && forall k :: 0 <= k < i ==> log[k].createdAt <= log[i].createdAt
    ensures i < Gone(log, maxAge) <==> Overtaken(log, i, maxAge)
  {
    var before, last := log[..|log| - 1], log[|log| - 1];
    assert before + [last] == log;
    if i < |before| {
      GoneMeans(before, i, maxAge);
      OvertakenNext(log, i, maxAge);
      GoneNext(before, last, i, maxAge);
    } else {
      WindowIsRest(before, maxAge);
      WindowNext(before, last, maxAge);
    }
  }

  /** A prefix has a young entry exactly if it reaches the first one. */
  lemma {:induction false} YoungInPrefix<T>(log: seq<Entry<T>>, gone: seq<Entry<T>>, cutoff: int)
    requires gone <= log
    ensures Fresh(gone, cutoff) == [] <==> |gone| <= FirstYoung(log, cutoff)
  {
    if gone != [] {
      assert gone[0] == log[0];
      if log[0].createdAt <= cutoff {
        YoungInPrefix(log[1..], gone[1..], cutoff);
      }
    }
  }

  /** The first entry that is young when the log is drained was overtaken. */
  ghost predicate LosesYoung<T>(log: seq<Entry<T>>, now: int, maxAge: int) {
    FirstYoung(log, now - maxAge) < |log| && Overtaken(log, FirstYoung(log, now - maxAge), maxAge)
  }

  lemma DataOfRest<T>(a: seq<Entry<T>>, b: seq<Entry<T>>)
    ensures Data(b) == Data(a + b) <==> a == []
  {
    assert |Data(a + b)| == |a| + |Data(b)|;
    assert [] + b == b;
  }

  lemma DrainOfRest<T>(gone: seq<Entry<T>>, kept: seq<Entry<T>>, now: int, maxAge: int)
    ensures Drain(kept, now, maxAge) == Drain(gone + kept, now, maxAge) <==> Fresh(gone, now - maxAge) == []
  {
    FreshConcat(gone, kept, now - maxAge);
    DataOfRest(Fresh(gone, now - maxAge), Fresh(kept, now - maxAge));
  }

  lemma DrainAgrees<T>(log: seq<Entry<T>>, gone: seq<Entry<T>>, kept: seq<Entry<T>>, now: int, maxAge: int)
    requires log == gone + kept
    ensures Drain(kept, now, maxAge) == Drain(log, now, maxAge) <==> |gone| <= FirstYoung(log, now - maxAge)
  {
    assert Fresh(gone, now - maxAge) == [] <==> |gone| <= FirstYoung(log, now - maxAge) by {
      YoungInPrefix(log, gone, now - maxAge);
    }
    DrainOfRest(gone, kept, now, maxAge);
  }

  lemma LosesMeans<T>(log: seq<Entry<T>>, now: int, maxAge: int)
    ensures Gone(log, maxAge) <= |log|
    ensures LosesYoung(log, now, maxAge) <==> FirstYoung(log, now - maxAge) < Gone(log, maxAge)
  {
    WindowIsRest(log, maxAge);
    if FirstYoung(log, now - maxAge) < |log| {
      GoneMeans(log, FirstYoung(log, now - maxAge), maxAge);
    }
  }

  lemma WindowSplits<T>(log: seq<Entry<T>>, maxAge: int) returns (gone: seq<Entry<T>>, kept: seq<Entry<T>>)
    ensures |gone| == Gone(log, maxAge) && kept == Window(log, maxAge) && log == gone + kept
  {
    WindowIsRest(log, maxAge);
    gone, kept := log[..Gone(log, maxAge)], log[Gone(log, maxAge)..];
  }

  /** Draining the window gives what draining the whole log would exactly if no push was
      stamped more than maxAge after the first entry that is young at the drain. */
  lemma DrainExactly<T>(log: seq<Entry<T>>, now: int, maxAge: int)
    ensures Drain(Window(log, maxAge), now, maxAge) == Drain(log, now, maxAge) <==> !LosesYoung(log, now, maxAge)
  {
    var gone, kept := WindowSplits(log, maxAge);
    DrainAgrees(log, gone, kept, now, maxAge);
    LosesMeans(log, now, maxAge);
  }

  lemma {:induction false} EvictingHoldsWindow<T>(ops: seq<Op<T>>, maxAge: int)
    ensures Evicting(ops, maxAge).held == Window(Logging(ops, maxAge).held, maxAge)
    ensures |Evicting(ops, maxAge).outs| == |Logging(ops, maxAge).outs|
  {
    if ops != [] {
      var before, op := ops[..|ops| - 1], ops[|ops| - 1];
      EvictingHoldsWindow(before, maxAge);
      if op.PushOp? {
        var log := Logging(before, maxAge).held;
        assert (log + [Entry(op.data, op.now)])[..|log|] == log;
      }
    }
  }

  /** At no drain of the run has the first young entry been overtaken. */
  ghost predicate NothingYoungLost<T>(ops: seq<Op<T>>, maxAge: int) {
    ops == [] ||
    (var before, op := ops[..|ops| - 1], ops[|ops| - 1];
     NothingYoungLost(before, maxAge) &&
     (op.DrainOp? ==> !LosesYoung(Logging(before, maxAge).held, op.now, maxAge)))
  }

  lemma SameLast<X>(a: seq<X>, b: seq<X>, x: X, y: X)
    requires |a| == |b|
    ensures a + [x] == b + [y] <==> a == b && x == y
  {
    assert (a + [x])[..|a|] == a && (b + [y])[..|b|] == b;
    assert (a + [x])[|a|] == x && (b + [y])[|b|] == y;
  }

  /** Eviction is not observable over a run exactly if at none of its drains the first
      young entry has been overtaken. */
  lemma {:induction false} EvictingExactly<T>(ops: seq<Op<T>>, maxAge: int)
    ensures Evicting(ops, maxAge).outs == Logging(ops, maxAge).outs <==> NothingYoungLost(ops, maxAge)
  {
    if ops != [] {
      var before, op := ops[..|ops| - 1], ops[|ops| - 1];
      EvictingExactly(before, maxAge);
      if op.DrainOp? {
        var e, l := Evicting(before, maxAge), Logging(before, maxAge);
        EvictingHoldsWindow(before, maxAge);
        DrainExactly(l.held, op.now, maxAge);
        SameLast(e.outs, l.outs, Drain(e.held, op.now, maxAge), Drain(l.held, op.now, maxAge));
      }
    }
  }

  /** A drain that reads the clock after all pushes it collects loses nothing. */
  lemma {:induction false} LateDrainsLoseNothing<T>(ops: seq<Op<T>>, maxAge: int)
    requires DrainsLate(ops, maxAge)
    ensures NothingYoungLost(ops, maxAge)
  {
    if ops != [] {
      LateDrainsLoseNothing(ops[..|ops| - 1], maxAge);
    }
  }

  /** So then every drain returns exactly the pushes since the previous drain that are
      younger than maxAge, in push order. */
  lemma EvictingRefinesLog<T>(ops: seq<Op<T>>, maxAge: int)
    requires DrainsLate(ops, maxAge)
    ensures Evicting(ops, maxAge).outs == Logging(ops, maxAge).outs
  {
    LateDrainsLoseNothing(ops, maxAge);
    EvictingExactly(ops, maxAge);
  }

  lemma Snoc<T>(ops: seq<Op<T>>, op: Op<T>, maxAge: int)
    ensures (ops + [op])[..|ops + [op]| - 1] == ops
    ensures Evicting(ops + [op], maxAge) ==
            var h := Evicting(ops, maxAge);
            match op
            case PushOp(data, now) => History(Push(h.held, data, now, maxAge), h.outs)
            case DrainOp(now) => History([], h.outs + [Drain(h.held, now, maxAge)])
    ensures Logging(ops + [op], maxAge) ==
            var h := Logging(ops, maxAge);
            match op
            case PushOp(data, now) => History(h.held + [Entry(data, now)], h.outs)
            case DrainOp(now) => History([], h.outs + [Drain(h.held, now, maxAge)])
  {
    assert (ops + [op])[..|ops + [op]| - 1] == ops;
  }

  lemma AfterTwoPushes<T>(x: T, y: T, s: int, t: int, maxAge: int)
    ensures var ops := [PushOp(x, s)] + [PushOp(y, t)];
            Evicting(ops, maxAge) == History(Push([Entry(x, s)], y, t, maxAge), []) &&
            Logging(ops, maxAge) == History([Entry(x, s)] + [Entry(y, t)], [])
  {
    Snoc([], PushOp(x, s), maxAge);
    Snoc([PushOp(x, s)], PushOp(y, t), maxAge);
    assert [] + [PushOp(x, s)] == [PushOp(x, s)];
    assert Push([], x, s, maxAge) == [Entry(x, s)] && [] + [Entry(x, s)] == [Entry(x, s)];
  }

  lemma DrainOfYoung<T>(buf: seq<Entry<T>>, now: int, maxAge: int)
    requires forall i :: 0 <= i < |buf| ==> now - buf[i].createdAt < maxAge
    ensures Drain(buf, now, maxAge) == Data(buf)
  {
    FreshAll(buf, now - maxAge);
  }

  lemma EvictingDrain<T>(before: seq<Op<T>>, b: Entry<T>, now: int, maxAge: int)
    requires Evicting(before, maxAge) == History([b], []) && now - b.createdAt < maxAge
    ensures Evicting(before + [DrainOp(now)], maxAge).outs == [[b.data]]
  {
    Snoc(before, DrainOp(now), maxAge);
    DrainOfYoung([b], now, maxAge);
    assert Data([b]) == [b.data] && [] + [[b.data]] == [[b.data]];
  }

  lemma LoggingDrain<T>(before: seq<Op<T>>, a: Entry<T>, b: Entry<T>, now: int, maxAge: int)
    requires Logging(before, maxAge) == History([a] + [b], [])
    requires now - a.createdAt < maxAge && now - b.createdAt < maxAge
    ensures Logging(before + [DrainOp(now)], maxAge).outs == [[a.data, b.data]]
  {
    Snoc(before, DrainOp(now), maxAge);
    DrainOfYoung([a] + [b], now, maxAge);
    assert Data([a] + [b]) == [a.data, b.data] && [] + [[a.data, b.data]] == [[a.data, b.data]];
  }

  /** For one: a drain that read its clock at t, with a concurrent push stamped more than
      maxAge later, misses an event that is young by the drain's own clock. */
  lemma EarlyDrainLosesAnEvent<T>(x: T, y: T, t: int, maxAge: int)
    requires maxAge > 0
    ensures var ops := [PushOp(x, t)] + [PushOp(y, t + maxAge + 1)] + [DrainOp(t)];
            Evicting(ops, maxAge).outs == [[y]] && Logging(ops, maxAge).outs == [[x, y]]
  {
    var a, b, before := Entry(x, t), Entry(y, t + maxAge + 1), [PushOp(x, t)] + [PushOp(y, t + maxAge + 1)];
    AfterTwoPushes(x, y, t, t + maxAge + 1, maxAge);
    assert Push([a], y, t + maxAge + 1, maxAge) == [b];
    EvictingDrain(before, b, t, maxAge);
    LoggingDrain(before, a, b, t, maxAge);
  }

  /** The log holds stamps in call order, none after the last call. */
  lemma {:induction false} LogSorted<T>(ops: seq<Op<T>>, maxAge: int)
    requires Monotone(ops) && ops != []
    ensures Sorted(Logging(ops, maxAge).held)
    ensures StampedBy(Logging(ops, maxAge).held, ops[|ops| - 1].now)
  {
    if |ops| > 1 {
      LogSorted(ops[..|ops| - 1], maxAge);
      assert ops[|ops| - 2].now <= ops[|ops| - 1].now;
    }
  }

  lemma SortedGone<T>(log: seq<Entry<T>>, i: nat, maxAge: int)
    requires 0 <= maxAge && Sorted(log) && i < |log|
    ensures i < Gone(log, maxAge) <==> log[i].createdAt < log[|log| - 1].createdAt - maxAge
  {
    GoneMeans(log, i, maxAge);
    assert forall j :: i < j < |log| ==> log[j].createdAt <= log[|log| - 1].createdAt;
  }

  lemma SinceSplit<T>(gone: seq<Entry<T>>, kept: seq<Entry<T>>, cutoff: int)
    requires forall i :: 0 <= i < |gone| ==> gone[i].createdAt < cutoff
    requires forall i :: 0 <= i < |kept| ==> cutoff <= kept[i].createdAt
    ensures Since(gone + kept, cutoff) == kept
  {
    FreshConcat(gone, kept, cutoff - 1);
    FreshNone(gone, cutoff - 1);
    FreshAll(kept, cutoff - 1);
    assert [] + kept == kept;
  }

  lemma SuffixSorted<T>(gone: seq<Entry<T>>, kept: seq<Entry<T>>)
    requires Sorted(gone + kept)
    ensures Sorted(kept)
  {
    forall i, j | 0 <= i < j < |kept|
      ensures kept[i].createdAt <= kept[j].createdAt
    {
      assert (gone + kept)[|gone| + i] == kept[i] && (gone + kept)[|gone| + j] == kept[j];
    }
  }

  /** The first entries, up to this position, are those stamped before the limit. */
  ghost predicate CutsAt<T>(log: seq<Entry<T>>, n: nat, limit: int) {
    forall i :: 0 <= i < |log| ==> (i < n <==> log[i].createdAt < limit)
  }

  /** What stands before position |gone| is what is stamped before the limit. */
  lemma SinceIsRest<T>(gone: seq<Entry<T>>, kept: seq<Entry<T>>, limit: int)
    requires CutsAt(gone + kept, |gone|, limit)
    ensures Since(gone + kept, limit) == kept
  {
    forall i | 0 <= i < |gone|
      ensures gone[i].createdAt < limit
    {
      assert (gone + kept)[i] == gone[i];
    }
    forall i | 0 <= i < |kept|
      ensures limit <= kept[i].createdAt
    {
      assert (gone + kept)[|gone| + i] == kept[i];
    }
    SinceSplit(gone, kept, limit);
  }

  lemma SortedCut<T>(log: seq<Entry<T>>, n: nat, maxAge: int)
    requires 0 <= maxAge && Sorted(log) && log != [] && n == Gone(log, maxAge)
    ensures CutsAt(log, n, log[|log| - 1].createdAt - maxAge)
  {
    forall i | 0 <= i < |log|
      ensures i < n <==> log[i].createdAt < log[|log| - 1].createdAt - maxAge
    {
      SortedGone(log, i, maxAge);
    }
  }

  lemma SortedRest<T>(log: seq<Entry<T>>, gone: seq<Entry<T>>, kept: seq<Entry<T>>, limit: int)
    requires log == gone + kept && Sorted(log) && CutsAt(log, |gone|, limit)
    ensures kept == Since(log, limit) && Sorted(kept)
  {
    SinceIsRest(gone, kept, limit);
    SuffixSorted(gone, kept);
  }

  /** The window of a sorted log is what is aged at most maxAge by its last stamp. */
  lemma WindowOfSorted<T>(log: seq<Entry<T>>, maxAge: int, limit: int) returns (buf: seq<Entry<T>>)
    requires 0 <= maxAge && Sorted(log) && log != [] && limit == log[|log| - 1].createdAt - maxAge
    ensures buf == Window(log, maxAge) && buf == Since(log, limit) && Sorted(buf)
  {
    var gone;
    gone, buf := WindowSplits(log, maxAge);
    SortedCut(log, |gone|, maxAge);
    SortedRest(log, gone, buf, limit);
  }

  /** With a clock that does not run backwards, the buffer after a push is exactly
      the part of the log aged at most maxAge, and it is sorted by stamp. */
  lemma MonotoneExact<T>(ops: seq<Op<T>>, maxAge: int)
    requires 0 <= maxAge && Monotone(ops) && ops != [] && ops[|ops| - 1].PushOp?
    ensures var log, buf := Logging(ops, maxAge).held, Evicting(ops, maxAge).held;
            buf == Since(log, ops[|ops| - 1].now - maxAge) && Sorted(buf)
  {
    LogSorted(ops, maxAge);
    EvictingHoldsWindow(ops, maxAge);
    var _ := WindowOfSorted(Logging(ops, maxAge).held, maxAge, ops[|ops| - 1].now - maxAge);
  }

  // ---------------------------------------------------- what a push leaves

  /** No entry is older than maxAge. */
  ghost predicate Bounded<T>(buf: seq<Entry<T>>, now: int, maxAge: int) {
    forall i :: 0 <= i < |buf| ==> now - buf[i].createdAt <= maxAge
  }

  /** Some entry stamped before the cutoff stands behind one that is not. */
  ghost predicate Shielded<T>(buf: seq<Entry<T>>, cutoff: int) {
    exists i, j :: 0 <= i < j < |buf| && buf[j].createdAt < cutoff <= buf[i].createdAt
  }

  /** A push drops every entry older than maxAge exactly if none of them stands behind a
      younger one, since it stops at the first young entry. */
  lemma PushBounds<T>(buf: seq<Entry<T>>, data: T, now: int, maxAge: int)
    requires 0 <= maxAge
    ensures Bounded(Push(buf, data, now, maxAge), now, maxAge) <==> !Shielded(buf, now - maxAge)
  {
    var cutoff, n := now - maxAge, Stale(buf, now - maxAge);
    var kept, buf' := buf[n..], Push(buf, data, now, maxAge);
    if i, j :| 0 <= i < j < |buf| && buf[j].createdAt < cutoff <= buf[i].createdAt {
      assert n <= i && buf'[j - n] == buf[j];
    }
    if k :| 0 <= k < |buf'| && now - buf'[k].createdAt > maxAge {
      assert buf'[k] == kept[k] && kept[k] == buf[n + k];
      assert 0 <= n < n + k < |buf| && buf[n + k].createdAt < cutoff <= buf[n].createdAt;
    }
  }

  lemma PushBackwards<T>(a: Entry<T>, y: T, maxAge: int)
    requires 0 <= maxAge
    ensures Push([a], y, a.createdAt - 1, maxAge) == [a, Entry(y, a.createdAt - 1)]
  {
    assert Stale([a], a.createdAt - 1 - maxAge) == 0;
  }

  lemma LaterIsOlder<T>(a: Entry<T>, b: Entry<T>, z: T, maxAge: int)
    requires 0 <= maxAge && b.createdAt < a.createdAt
    ensures !Bounded(Push([a, b], z, a.createdAt + maxAge, maxAge), a.createdAt + maxAge, maxAge)
  {
    assert [a, b][1].createdAt < a.createdAt <= [a, b][0].createdAt;
    PushBounds([a, b], z, a.createdAt + maxAge, maxAge);
  }

  lemma HeldBackwards<T>(x: T, y: T, t: int, maxAge: int)
    requires 0 <= maxAge
    ensures Evicting([PushOp(x, t)] + [PushOp(y, t - 1)], maxAge).held == [Entry(x, t), Entry(y, t - 1)]
  {
    AfterTwoPushes(x, y, t, t - 1, maxAge);
    PushBackwards(Entry(x, t), y, maxAge);
  }

  /** It takes stamps that run backwards: after two pushes, the second stamped before the
      first, a third at the first one's last moment leaves the second there, too old. */
  lemma OldEntryStays<T>(x: T, y: T, z: T, t: int, maxAge: int)
    requires 0 <= maxAge
    ensures var held := Evicting([PushOp(x, t)] + [PushOp(y, t - 1)], maxAge).held;
            held == [Entry(x, t), Entry(y, t - 1)] &&
            !Bounded(Push(held, z, t + maxAge, maxAge), t + maxAge, maxAge)
  {
    HeldBackwards(x, y, t, maxAge);
    LaterIsOlder(Entry(x, t), Entry(y, t - 1), z, maxAge);
  }

  /** With a clock that does not run backwards it does not come to that. */
  lemma MonotoneBounded<T>(ops: seq<Op<T>>, maxAge: int)
    requires 0 <= maxAge && Monotone(ops) && ops != [] && ops[|ops| - 1].PushOp?
    ensures Bounded(Evicting(ops, maxAge).held, ops[|ops| - 1].now, maxAge)
  {
    MonotoneExact(ops, maxAge);
    YoungOnly(Logging(ops, maxAge).held, ops[|ops| - 1].now - maxAge - 1);
  }

  lemma {:induction false} YoungOnly<T>(buf: seq<Entry<T>>, cutoff: int)
    ensures forall i :: 0 <= i < |Fresh(buf, cutoff)| ==> Fresh(buf, cutoff)[i].createdAt > cutoff
  {
    if buf != [] {
      YoungOnly(buf[1..], cutoff);
    }
  }
}
