/** The enrollment stream as the server's reports and the client's callbacks: what
    internal/enroll/sse.go tells its caller of a stream of typed reports, value by value. */
module EnrollReports {
  import opened Common
  import opened EnrollStream
  import opened EventStreamStandard

  /** What a server has to say, with the values it says. */
  datatype Report =
    | Checked(v: Verify)
    | Progressed(step: string)
    | Decided(d: Decision)
    | Issued(id: Identity)
    | Failed(reason: string)

  /** How each kind of value is spelled as JSON. */
  datatype Encoder = Encoder(
    verify: Verify -> string,
    step: string -> string,
    decision: Decision -> string,
    identity: Identity -> string,
    reason: string -> string)

  /** The decoder reads back every value the encoder spells. */
  ghost predicate Undoes(dec: Decoder, enc: Encoder) {
    (forall v :: dec.verify(enc.verify(v)) == v) &&
    (forall s :: dec.step(enc.step(s)) == s) &&
    (forall d :: dec.decision(enc.decision(d)) == d) &&
    (forall id :: dec.identity(enc.identity(id)) == id) &&
    (forall s :: dec.reason(enc.reason(s)) == s)
  }

  /** A report as an event of its kind. */
  function Spelled(enc: Encoder, r: Report): Dispatch {
    match r
    case Checked(v) => Dispatch("verify", enc.verify(v))
    case Progressed(step) => Dispatch("progress", enc.step(step))
    case Decided(d) => Dispatch("decision", enc.decision(d))
    case Issued(id) => Dispatch("identity", enc.identity(id))
    case Failed(reason) => Dispatch("error", enc.reason(reason))
  }

  function AllSpelled(enc: Encoder, rs: seq<Report>): seq<Dispatch> {
    if rs == [] then [] else [Spelled(enc, rs[0])] + AllSpelled(enc, rs[1..])
  }

  // ---------------------------------------------- what should be told

  /** The callback tells this report: it is of the same kind and has the same value. */
  predicate Tells(c: Callback, r: Report) {
    match r
    case Checked(v) => c == OnVerify(v)
    case Progressed(step) => c == OnProgress(step)
    case Decided(d) => c == OnDecision(d)
    case Issued(id) => c == OnIdentity(id)
    case Failed(reason) => c == OnError(reason)
  }

  /** A report that ends the stream. */
  predicate Fatal(r: Report) {
    r.Failed? || (r.Decided? && r.d.status == "rejected")
  }

  /** The outcome is the end this report brings, with its own reason. */
  predicate EndsAs(outcome: Outcome, r: Report) {
    match r
    case Decided(d) => outcome == Rejected(d.reason)
    case Failed(reason) => outcome == ServerError(reason)
    case _ => false
  }

  ghost predicate LastIssued(rs: seq<Report>, i: int) {
    0 <= i < |rs| && rs[i].Issued? && forall j :: i < j < |rs| ==> !rs[j].Issued?
  }

  /** The last identity issued, or this one if none was. */
  ghost predicate Concludes(rs: seq<Report>, last: Option<Identity>, outcome: Outcome) {
    if exists i :: 0 <= i < |rs| && rs[i].Issued? then
      exists i :: LastIssued(rs, i) && outcome == Enrolled(rs[i].id)
    else
      outcome == match last case Some(id) => Enrolled(id) case None => NoIdentity
  }

  /** The callbacks tell the reports one by one, up to and including the first fatal one,
      which gives the outcome; without one they tell all, and the last identity does. */
  ghost predicate Told(rs: seq<Report>, last: Option<Identity>, calls: seq<Callback>, outcome: Outcome) {
    |calls| <= |rs| &&
    (forall i :: 0 <= i < |calls| ==> Tells(calls[i], rs[i])) &&
    (forall i :: 0 <= i < |calls| - 1 ==> !Fatal(rs[i])) &&
    if calls != [] && Fatal(rs[|calls| - 1]) then EndsAs(outcome, rs[|calls| - 1])
    else |calls| == |rs| && Concludes(rs, last, outcome)
  }

  // -------------------------------------------------- what the client tells

  /** The event is of the report's kind, and its data reads as the report's value. */
  predicate Reads(dec: Decoder, d: Dispatch, r: Report) {
    match r
    case Checked(v) => d.name == "verify" && dec.verify(d.data) == v
    case Progressed(step) => d.name == "progress" && dec.step(d.data) == step
    case Decided(decision) => d.name == "decision" && dec.decision(d.data) == decision
    case Issued(id) => d.name == "identity" && dec.identity(d.data) == id
    case Failed(reason) => d.name == "error" && dec.reason(d.data) == reason
  }

  ghost predicate AllRead(dec: Decoder, ds: seq<Dispatch>, rs: seq<Report>) {
    |ds| == |rs| && forall i :: 0 <= i < |ds| ==> Reads(dec, ds[i], rs[i])
  }

  /** One event: its callback, and the end it brings or the identity it leaves in force. */
  lemma OneTold(dec: Decoder, d: Dispatch, r: Report, last: Option<Identity>) returns (c: Callback)
    requires Reads(dec, d, r)
    ensures CallList(dec, d) == [c] && Tells(c, r)
    ensures if Fatal(r) then FailureOf(dec, d).Some? && EndsAs(FailureOf(dec, d).value, r) else FailureOf(dec, d).None?
    ensures After(dec, d, last) == if r.Issued? then Some(r.id) else last
  {
    c := CallFor(dec, d).value;
  }

  lemma ConcludesNext(r: Report, rest: seq<Report>, last: Option<Identity>, outcome: Outcome)
    requires Concludes(rest, if r.Issued? then Some(r.id) else last, outcome)
    ensures Concludes([r] + rest, last, outcome)
  {
    var rs := [r] + rest;
    if exists i :: 0 <= i < |rest| && rest[i].Issued? {
      var i :| LastIssued(rest, i) && outcome == Enrolled(rest[i].id);
      assert LastIssued(rs, i + 1) && rs[i + 1] == rest[i];
    } else if r.Issued? {
      assert LastIssued(rs, 0) && rs[0] == r;
    }
  }

  lemma ToldNext(r: Report, rest: seq<Report>, last: Option<Identity>, c: Callback, calls: seq<Callback>,
      outcome: Outcome)
    requires Tells(c, r) && !Fatal(r) && Told(rest, if r.Issued? then Some(r.id) else last, calls, outcome)
    ensures Told([r] + rest, last, [c] + calls, outcome)
  {
    var rs, all := [r] + rest, [c] + calls;
    assert forall i :: 0 < i < |all| ==> all[i] == calls[i - 1] && rs[i] == rest[i - 1];
    if !(calls != [] && Fatal(rest[|calls| - 1])) {
      ConcludesNext(r, rest, last, outcome);
    }
  }

  /** A report that ends the stream is the last one told. */
  lemma FatalTold(dec: Decoder, d: Dispatch, rest: seq<Dispatch>, r: Report, more: seq<Report>, last: Option<Identity>)
    requires Reads(dec, d, r) && Fatal(r)
    ensures Told([r] + more, last, Course(dec, [d] + rest, last).0, Course(dec, [d] + rest, last).1)
  {
    var c := OneTold(dec, d, r, last);
    EventMeans(dec, d, rest, last);
    assert [c] + [] == [c];
  }

  lemma OtherTold(dec: Decoder, d: Dispatch, rest: seq<Dispatch>, r: Report, more: seq<Report>, last: Option<Identity>)
    requires Reads(dec, d, r) && !Fatal(r)
    requires var next := After(dec, d, last);
             Told(more, next, Course(dec, rest, next).0, Course(dec, rest, next).1)
    ensures Told([r] + more, last, Course(dec, [d] + rest, last).0, Course(dec, [d] + rest, last).1)
  {
    var c := OneTold(dec, d, r, last);
    var next := After(dec, d, last);
    EventMeans(dec, d, rest, last);
    ToldNext(r, more, last, c, Course(dec, rest, next).0, Course(dec, rest, next).1);
  }

  lemma {:induction false} CourseTold(dec: Decoder, ds: seq<Dispatch>, rs: seq<Report>, last: Option<Identity>)
    requires AllRead(dec, ds, rs)
    ensures Told(rs, last, Course(dec, ds, last).0, Course(dec, ds, last).1)
  {
    if ds != [] {
      var d, r := ds[0], rs[0];
      assert ds == [d] + ds[1..] && rs == [r] + rs[1..];
      if Fatal(r) {
        FatalTold(dec, d, ds[1..], r, rs[1..], last);
      } else {
        CourseTold(dec, ds[1..], rs[1..], After(dec, d, last));
        OtherTold(dec, d, ds[1..], r, rs[1..], last);
      }
    }
  }

  lemma {:induction false} AllReadBack(dec: Decoder, enc: Encoder, rs: seq<Report>)
    requires Undoes(dec, enc)
    ensures AllRead(dec, AllSpelled(enc, rs), rs)
  {
    if rs != [] {
      AllReadBack(dec, enc, rs[1..]);
      assert Reads(dec, Spelled(enc, rs[0]), rs[0]);
    }
  }

  /** The round trip: of every list of reports printed as events the client tells its caller
      just these values, each as what it is, in order, up to and including the first
      rejection or error. That one's reason is the outcome; without one it is the last
      identity issued, or that there is none. */
  lemma ReportsTold(dec: Decoder, enc: Encoder, rs: seq<Report>)
    requires Undoes(dec, enc)
    ensures var (calls, outcome) := Handling(dec, Pairs(PrintedLines(AllSpelled(enc, rs)), ""));
            Told(rs, None, calls, outcome)
  {
    ClientReads(AllSpelled(enc, rs));
    AllReadBack(dec, enc, rs);
    CourseTold(dec, AllSpelled(enc, rs), rs, None);
  }

  /** So it is from the characters of the stream on, if the encoder keeps to one line. */
  lemma TextTold(dec: Decoder, enc: Encoder, rs: seq<Report>)
    requires Undoes(dec, enc) && Printable(AllSpelled(enc, rs))
    ensures var (calls, outcome) := Handling(dec, Pairs(ScanLines(Print(AllSpelled(enc, rs)), ""), ""));
            Told(rs, None, calls, outcome)
  {
    PrintedOneLine(AllSpelled(enc, rs));
    BothSplitAlike(PrintedLines(AllSpelled(enc, rs)));
    ReportsTold(dec, enc, rs);
  }

  /** Nothing else would be: what should be told of a list of reports is one thing. */
  lemma ToldOneWay(rs: seq<Report>, last: Option<Identity>, calls: seq<Callback>, outcome: Outcome,
      calls': seq<Callback>, outcome': Outcome)
    requires Told(rs, last, calls, outcome) && Told(rs, last, calls', outcome')
    ensures calls == calls' && outcome == outcome'
  {
    assert |calls| == |calls'|;
    if !(calls != [] && Fatal(rs[|calls| - 1])) && exists i :: 0 <= i < |rs| && rs[i].Issued? {
      var i :| LastIssued(rs, i) && outcome == Enrolled(rs[i].id);
      var j :| LastIssued(rs, j) && outcome' == Enrolled(rs[j].id);
      assert i == j;
    }
  }
}
