/** The enrollment event stream of internal/enroll/sse.go: a line-driven interpreter that
    stops at the first rejection or error. */
module EnrollStream {
  import opened Common
  import opened Strings

  datatype Verify = Verify(check: string, passed: bool, confidence: string, reason: string)
  datatype Decision = Decision(status: string, reason: string)
  datatype Identity = Identity(
    id: string, nickname: string, status: string, identity: string,
    hosts: seq<string>, tunnel: map<string, string>)

  /** How each kind of event reads its JSON; whatever does not parse reads as some default. */
  datatype Decoder = Decoder(
    verify: string -> Verify,
    step: string -> string,
    decision: string -> Decision,
    identity: string -> Identity,
    reason: string -> string)

  datatype Callback =
    | OnVerify(v: Verify)
    | OnProgress(step: string)
    | OnDecision(d: Decision)
    | OnIdentity(id: Identity)
    | OnError(reason: string)

  datatype Outcome =
    | Enrolled(result: Identity)
    | Rejected(reason: string)
    | ServerError(reason: string)
    | NoIdentity

  /** An event by name, with its data. */
  datatype Dispatch = Dispatch(name: string, data: string)

  // -------------------------------------------------------- what it means

  /** The events of a stream as the client pairs them up: each data line goes with the
      event line before it, unless another data line has used that up. */
  function Pairs(lines: seq<string>, current: string): seq<Dispatch> {
    if lines == [] then []
    else if "event: " <= lines[0] then Pairs(lines[1..], TrimPrefix(lines[0], "event: "))
    else if "data: " <= lines[0] then
      [Dispatch(current, TrimPrefix(lines[0], "data: "))] + Pairs(lines[1..], "")
    else Pairs(lines[1..], current)
  }

  /** The callback for an event, if it is of a known kind. */
  function CallFor(dec: Decoder, d: Dispatch): Option<Callback> {
    if d.name == "verify" then Some(OnVerify(dec.verify(d.data)))
    else if d.name == "progress" then Some(OnProgress(dec.step(d.data)))
    else if d.name == "decision" then Some(OnDecision(dec.decision(d.data)))
    else if d.name == "identity" then Some(OnIdentity(dec.identity(d.data)))
    else if d.name == "error" then Some(OnError(dec.reason(d.data)))
    else None
  }

  /** The failure an event ends the stream with, if it does. */
  function FailureOf(dec: Decoder, d: Dispatch): Option<Outcome> {
    if d.name == "decision" && dec.decision(d.data).status == "rejected"
    then Some(Rejected(dec.decision(d.data).reason))
    else if d.name == "error" then Some(ServerError(dec.reason(d.data)))
    else None
  }

  /** The events up to and including the first that ends the stream. */
  function Heard(dec: Decoder, ds: seq<Dispatch>): seq<Dispatch> {
    if ds == [] then []
    else if FailureOf(dec, ds[0]).Some? then [ds[0]]
    else [ds[0]] + Heard(dec, ds[1..])
  }

  function CallList(dec: Decoder, d: Dispatch): seq<Callback> {
    match CallFor(dec, d) case Some(c) => [c] case None => []
  }

  function Calls(dec: Decoder, ds: seq<Dispatch>): seq<Callback> {
    if ds == [] then []
    else CallList(dec, ds[0]) + Calls(dec, ds[1..])
  }

  /** The identity in force after an event. */
  function After(dec: Decoder, d: Dispatch, last: Option<Identity>): Option<Identity> {
    if d.name == "identity" then Some(dec.identity(d.data)) else last
  }

  function Conclusion(dec: Decoder, ds: seq<Dispatch>, last: Option<Identity>): Outcome {
    if ds == [] then (match last case Some(id) => Enrolled(id) case None => NoIdentity)
    else if FailureOf(dec, ds[0]).Some? then FailureOf(dec, ds[0]).value
    else Conclusion(dec, ds[1..], After(dec, ds[0], last))
  }

  /** What is called and how it ends, from a point where this identity is in force. */
  function Course(dec: Decoder, ds: seq<Dispatch>, last: Option<Identity>): (seq<Callback>, Outcome) {
    (Calls(dec, Heard(dec, ds)), Conclusion(dec, ds, last))
  }

  /** Everything observable about handling a list of events. */
  function Handling(dec: Decoder, ds: seq<Dispatch>): (seq<Callback>, Outcome) {
    Course(dec, ds, None)
  }

  // ------------------------------------------------------------- the loop

  lemma LineMeans(lines: seq<string>, i: nat, current: string)
    requires i < |lines|
    ensures Pairs(lines[i..], current)
         == (var line, rest := lines[i], lines[i + 1..];
             if "event: " <= line then Pairs(rest, TrimPrefix(line, "event: "))
             else if "data: " <= line then [Dispatch(current, TrimPrefix(line, "data: "))] + Pairs(rest, "")
             else Pairs(rest, current))
  {
    assert lines[i..][1..] == lines[i + 1..];
  }

  /** What is left to hear after one event. */
  lemma EventMeans(dec: Decoder, d: Dispatch, rest: seq<Dispatch>, last: Option<Identity>)
    ensures Calls(dec, Heard(dec, [d] + rest))
         == CallList(dec, d) + (if FailureOf(dec, d).Some? then [] else Calls(dec, Heard(dec, rest)))
    ensures Conclusion(dec, [d] + rest, last)
         == if FailureOf(dec, d).Some? then FailureOf(dec, d).value
            else Conclusion(dec, rest, After(dec, d, last))
  {
    assert ([d] + rest)[1..] == rest;
    assert ([d] + Heard(dec, rest))[1..] == Heard(dec, rest);
  }

  /** What is to be called for the event: the callback of its kind, with what its data reads as. */
  predicate Says(dec: Decoder, d: Dispatch, c: Callback) {
    match c
    case OnVerify(v) => d.name == "verify" && v == dec.verify(d.data)
    case OnProgress(step) => d.name == "progress" && step == dec.step(d.data)
    case OnDecision(decision) => d.name == "decision" && decision == dec.decision(d.data)
    case OnIdentity(id) => d.name == "identity" && id == dec.identity(d.data)
    case OnError(reason) => d.name == "error" && reason == dec.reason(d.data)
  }

  /** How the event ends the stream: a decision to reject and an error, with their own reason. */
  predicate EndsWith(dec: Decoder, d: Dispatch, failure: Outcome) {
    match failure
    case Rejected(reason) => d.name == "decision" && dec.decision(d.data) == Decision("rejected", reason)
    case ServerError(reason) => d.name == "error" && dec.reason(d.data) == reason
    case _ => false
  }

  /** The switch on the current event: the callback, then the early return if any. */
  method HandleEvent(dec: Decoder, d: Dispatch, calls: seq<Callback>, result: Option<Identity>)
    returns (calls': seq<Callback>, result': Option<Identity>, failure: Option<Outcome>)
    ensures calls' == calls + CallList(dec, d) && failure == FailureOf(dec, d)
    ensures result' == After(dec, d, result)
    ensures forall c :: Says(dec, d, c) ==> calls' == calls + [c]
    ensures calls' == calls || (|calls'| == |calls| + 1 && Says(dec, d, calls'[|calls|]))
    ensures forall o :: failure == Some(o) <==> EndsWith(dec, d, o)
    ensures result' == result || (d.name == "identity" && result' == Some(dec.identity(d.data)))
  {
    calls', result', failure := calls, result, None;
    match d.name {
      case "verify" =>
        calls' := calls + [OnVerify(dec.verify(d.data))];
      case "progress" =>
        calls' := calls + [OnProgress(dec.step(d.data))];
      case "decision" =>
        var decision := dec.decision(d.data);
        calls' := calls + [OnDecision(decision)];
        if decision.status == "rejected" {
          failure := Some(Rejected(decision.reason));
        }
      case "identity" =>
        result' := Some(dec.identity(d.data));
        calls' := calls + [OnIdentity(dec.identity(d.data))];
      case "error" =>
        calls' := calls + [OnError(dec.reason(d.data))];
        failure := Some(ServerError(dec.reason(d.data)));
      case _ =>
    }
  }

  /** Midway: what has been called, with what is left, makes up the handling of all. */
  ghost predicate OnTrack(dec: Decoder, all: seq<Dispatch>, calls: seq<Callback>, last: Option<Identity>,
      rest: seq<Dispatch>) {
    calls + Calls(dec, Heard(dec, rest)) == Calls(dec, Heard(dec, all)) &&
    Conclusion(dec, rest, last) == Conclusion(dec, all, None)
  }

  lemma OnTrackStep(dec: Decoder, all: seq<Dispatch>, calls: seq<Callback>, last: Option<Identity>, d: Dispatch,
      rest: seq<Dispatch>)
    requires OnTrack(dec, all, calls, last, [d] + rest)
    ensures var calls' := calls + CallList(dec, d);
            match FailureOf(dec, d)
            case Some(failure) => (calls', failure) == Handling(dec, all)
            case None =>
              OnTrack(dec, all, calls', After(dec, d, last), rest)
  {
    EventMeans(dec, d, rest, last);
    var c := CallList(dec, d);
    if FailureOf(dec, d).Some? {
      assert calls + (c + []) == calls + c;
    } else {
      var left := Calls(dec, Heard(dec, rest));
      assert calls + (c + left) == calls + c + left;
    }
  }

  lemma OnTrackEnd(dec: Decoder, all: seq<Dispatch>, calls: seq<Callback>, last: Option<Identity>)
    requires OnTrack(dec, all, calls, last, [])
    ensures (calls, match last case Some(id) => Enrolled(id) case None => NoIdentity) == Handling(dec, all)
  {
    assert calls + [] == calls;
  }

  /** SSEEnrollStream, from the response body on. */
  method SSEEnrollStream(dec: Decoder, lines: seq<string>) returns (calls: seq<Callback>, outcome: Outcome)
    ensures (calls, outcome) == Handling(dec, Pairs(lines, ""))
  {
    var result: Option<Identity> := None;
    var currentEvent := "";
    calls := [];
    ghost var all := Pairs(lines, "");
    assert lines[0..] == lines;
    for i := 0 to |lines|
      invariant OnTrack(dec, all, calls, result, Pairs(lines[i..], currentEvent))
    {
      LineMeans(lines, i, currentEvent);
      var line := lines[i];
      if "event: " <= line {
        currentEvent := TrimPrefix(line, "event: ");
        continue;
      }
      if !("data: " <= line) {
        continue;
      }
      var d := Dispatch(currentEvent, TrimPrefix(line, "data: "));
      OnTrackStep(dec, all, calls, result, d, Pairs(lines[i + 1..], ""));
      var failure;
      calls, result, failure := HandleEvent(dec, d, calls, result);
      if failure.Some? {
        return calls, failure.value;
      }
      currentEvent := "";
    }
    assert lines[|lines|..] == [];
    OnTrackEnd(dec, all, calls, result);
    outcome := match result case Some(id) => Enrolled(id) case None => NoIdentity;
  }

  // ------------------------------------------------------- what it promises

  ghost predicate NoFailure(dec: Decoder, ds: seq<Dispatch>) {
    forall i :: 0 <= i < |ds| ==> FailureOf(dec, ds[i]).None?
  }

  ghost predicate LastIdentity(ds: seq<Dispatch>, i: int) {
    0 <= i < |ds| && ds[i].name == "identity" && forall j :: i < j < |ds| ==> ds[j].name != "identity"
  }

  ghost predicate NoIdentities(ds: seq<Dispatch>) {
    forall i :: 0 <= i < |ds| ==> ds[i].name != "identity"
  }

  /** The identity in force after all events, by looking back from the end. */
  function Latest(dec: Decoder, ds: seq<Dispatch>, last: Option<Identity>): Option<Identity> {
    if ds == [] then last
    else if ds[|ds| - 1].name == "identity" then Some(dec.identity(ds[|ds| - 1].data))
    else Latest(dec, ds[..|ds| - 1], last)
  }

  lemma {:induction false} LatestFromFront(dec: Decoder, ds: seq<Dispatch>, last: Option<Identity>)
    requires ds != []
    ensures Latest(dec, ds, last) == Latest(dec, ds[1..], After(dec, ds[0], last))
  {
    if |ds| > 1 && ds[|ds| - 1].name != "identity" {
      LatestFromFront(dec, ds[..|ds| - 1], last);
      assert ds[1..][..|ds| - 2] == ds[..|ds| - 1][1..];
    }
  }

  /** It is that of the last identity event. */
  lemma {:induction false} LatestFound(dec: Decoder, ds: seq<Dispatch>, last: Option<Identity>, i: int)
    requires LastIdentity(ds, i)
    ensures Latest(dec, ds, last) == Some(dec.identity(ds[i].data))
  {
    var n := |ds| - 1;
    if i < n {
      assert ds[n].name != "identity";
      LatestFound(dec, ds[..n], last, i);
    }
  }

  lemma {:induction false} LatestUnchanged(dec: Decoder, ds: seq<Dispatch>, last: Option<Identity>)
    requires NoIdentities(ds)
    ensures Latest(dec, ds, last) == last
  {
    if ds != [] {
      LatestUnchanged(dec, ds[..|ds| - 1], last);
    }
  }

  lemma {:induction false} FindLastIdentity(ds: seq<Dispatch>) returns (i: int)
    requires !NoIdentities(ds)
    ensures LastIdentity(ds, i)
  {
    i := |ds| - 1;
    while ds[i].name != "identity"
      invariant 0 <= i < |ds| && forall j :: i < j < |ds| ==> ds[j].name != "identity"
      decreases i
    {
      assert i > 0;
      i := i - 1;
    }
  }

  lemma LatestMeans(dec: Decoder, ds: seq<Dispatch>, last: Option<Identity>)
    ensures forall i :: LastIdentity(ds, i) ==> Latest(dec, ds, last) == Some(dec.identity(ds[i].data))
    ensures if NoIdentities(ds) then Latest(dec, ds, last) == last
            else Latest(dec, ds, last).Some? && exists i :: LastIdentity(ds, i)
  {
    forall i | LastIdentity(ds, i)
      ensures Latest(dec, ds, last) == Some(dec.identity(ds[i].data))
    {
      LatestFound(dec, ds, last, i);
    }
    if NoIdentities(ds) {
      LatestUnchanged(dec, ds, last);
    } else {
      var i := FindLastIdentity(ds);
      LatestFound(dec, ds, last, i);
    }
  }

  lemma {:induction false} ConclusionWithoutFailure(dec: Decoder, ds: seq<Dispatch>, last: Option<Identity>)
    requires NoFailure(dec, ds)
    ensures Conclusion(dec, ds, last)
         == (match Latest(dec, ds, last) case Some(id) => Enrolled(id) case None => NoIdentity)
  {
    if ds != [] {
      LatestFromFront(dec, ds, last);
      ConclusionWithoutFailure(dec, ds[1..], After(dec, ds[0], last));
    }
  }

  /** A failure anywhere decides the outcome, and the first one gives it. */
  lemma {:induction false} ConclusionWithFailure(dec: Decoder, ds: seq<Dispatch>, last: Option<Identity>, k: nat)
    requires k < |ds| && FailureOf(dec, ds[k]).Some?
    ensures var r := Conclusion(dec, ds, last);
            (r.Rejected? || r.ServerError?) &&
            (NoFailure(dec, ds[..k]) ==> r == FailureOf(dec, ds[k]).value)
  {
    if FailureOf(dec, ds[0]).Some? {
      assert NoFailure(dec, ds[..k]) ==> k == 0 by {
        assert k > 0 ==> ds[..k][0] == ds[0];
      }
    } else {
      ConclusionWithFailure(dec, ds[1..], After(dec, ds[0], last), k - 1);
      assert ds[1..][..k - 1] == ds[..k][1..];
    }
  }

  /** Enrollment succeeds exactly when no event is a rejection or an error and some event
      is an identity; the result is then the last identity. With no identity and no
      failure, the outcome says so; otherwise it is that of the first failure. */
  lemma OutcomeMeans(dec: Decoder, ds: seq<Dispatch>)
    ensures var r := Handling(dec, ds).1;
            (r.Enrolled? <==> NoFailure(dec, ds) && !NoIdentities(ds)) &&
            (r.NoIdentity? <==> NoFailure(dec, ds) && NoIdentities(ds)) &&
            (forall i :: r.Enrolled? && LastIdentity(ds, i) ==> r.result == dec.identity(ds[i].data)) &&
            (r.Enrolled? ==> exists i :: LastIdentity(ds, i)) &&
            (forall k: nat :: k < |ds| && FailureOf(dec, ds[k]).Some? && NoFailure(dec, ds[..k]) ==>
              r == FailureOf(dec, ds[k]).value)
  {
    LatestMeans(dec, ds, None);
    if NoFailure(dec, ds) {
      ConclusionWithoutFailure(dec, ds, None);
    } else {
      forall k: nat | k < |ds| && FailureOf(dec, ds[k]).Some?
        ensures var r := Conclusion(dec, ds, None);
                (r.Rejected? || r.ServerError?) &&
                (NoFailure(dec, ds[..k]) ==> r == FailureOf(dec, ds[k]).value)
      {
        ConclusionWithFailure(dec, ds, None, k);
      }
    }
  }

  /** Lines that are neither event nor data lines. */
  predicate Noise(lines: seq<string>) {
    forall i :: 0 <= i < |lines| ==> !("event: " <= lines[i]) && !("data: " <= lines[i])
  }

  /** Inserting or deleting them anywhere changes nothing. */
  lemma {:induction false} NoiseIrrelevant(before: seq<string>, noise: seq<string>, after: seq<string>, current: string)
    requires Noise(noise)
    ensures Pairs(before + noise + after, current) == Pairs(before + after, current)
    decreases |before| + |noise|
  {
    var all := before + noise + after;
    if before != [] {
      assert all[1..] == before[1..] + noise + after;
      assert (before + after)[1..] == before[1..] + after;
      NoiseIrrelevant(before[1..], noise, after, TrimPrefix(before[0], "event: "));
      NoiseIrrelevant(before[1..], noise, after, "");
      NoiseIrrelevant(before[1..], noise, after, current);
    } else if noise != [] {
      assert all[1..] == [] + noise[1..] + after;
      NoiseIrrelevant([], noise[1..], after, current);
    } else {
      assert all == before + after;
    }
  }
}
