/** Event stream interpretation as the WHATWG HTML Living Standard defines it (sections
    9.2.5 and 9.2.6), and its agreement with the client of EnrollStream on streams
    printed the canonical way. */
module EventStreamStandard {
  import opened Common
  import opened Strings
  import opened EnrollStream

  // ------------------------------------------------------ the standard

  /** The buffers of the interpretation, and the messages dispatched so far. */
  datatype Parser = Parser(data: string, eventType: string, id: string, lastId: string)

  datatype Message = Message(eventType: string, data: string, lastId: string)

  /** The position of the first colon, or the length. */
  function Colon(line: string): (n: nat)
    ensures n <= |line| && (n < |line| ==> line[n] == ':') && forall i :: 0 <= i < n ==> line[i] != ':'
  {
    if line == "" || line[0] == ':' then 0 else 1 + Colon(line[1..])
  }

  function Value(afterColon: string): string {
    if " " <= afterColon then afterColon[1..] else afterColon
  }

  function Field(p: Parser, field: string, value: string): Parser {
    if field == "event" then p.(eventType := value)
    else if field == "data" then p.(data := p.data + value + "\n")
    else if field == "id" && '\0' !in value then p.(id := value)
    else p
  }

  /** A line that is not blank. */
  function ProcessLine(p: Parser, line: string): Parser
    requires line != ""
  {
    var n := Colon(line);
    if n == 0 then p
    else if n == |line| then Field(p, line, "")
    else Field(p, line[..n], Value(line[n + 1..]))
  }

  /** A blank line: the message to dispatch, if there is any data. */
  function DispatchEvent(p: Parser): (Parser, Option<Message>) {
    var p' := Parser("", "", p.id, p.id);
    if p.data == "" then (p', None)
    else
      var data := if p.data[|p.data| - 1] == '\n' then p.data[..|p.data| - 1] else p.data;
      (p', Some(Message(if p.eventType == "" then "message" else p.eventType, data, p.id)))
  }

  /** The messages of a stream of lines. What is pending at its end is discarded. */
  function Interpret(p: Parser, lines: seq<string>): seq<Message>
    decreases lines
  {
    if lines == [] then []
    else if lines[0] == "" then
      var (p', m) := DispatchEvent(p);
      (match m case Some(msg) => [msg] case None => []) + Interpret(p', lines[1..])
    else Interpret(ProcessLine(p, lines[0]), lines[1..])
  }

  const FRESH: Parser := Parser("", "", "", "")

  /** The lines of a text, ended by CR LF, LF or CR, without an unfinished last one. */
  function StandardLines(text: string, line: string): seq<string> {
    if text == "" then []
    else if text[0] == '\n' then [line] + StandardLines(text[1..], "")
    else if text[0] == '\r' then
      [line] + StandardLines(if "\r\n" <= text then text[2..] else text[1..], "")
    else StandardLines(text[1..], line + [text[0]])
  }

  // --------------------------------------------------- the client's lines

  function DropCR(line: string): string {
    if line != "" && line[|line| - 1] == '\r' then line[..|line| - 1] else line
  }

  /** The lines of bufio.ScanLines: ended by LF, less one CR before it. */
  function ScanLines(text: string, line: string): seq<string> {
    if text == "" then (if line == "" then [] else [DropCR(line)])
    else if text[0] == '\n' then [DropCR(line)] + ScanLines(text[1..], "")
    else ScanLines(text[1..], line + [text[0]])
  }

  // -------------------------------------------------- canonical streams

  /** Free of line ends. */
  predicate OneLine(s: string) {
    '\r' !in s && '\n' !in s
  }

  predicate Printable(events: seq<Dispatch>) {
    forall i :: 0 <= i < |events| ==> OneLine(events[i].name) && OneLine(events[i].data)
  }

  /** The text of some lines. */
  function Text(lines: seq<string>): string {
    if lines == [] then "" else lines[0] + "\n" + Text(lines[1..])
  }

  function NameLine(name: string): string {
    "event: " + name
  }

  function DataLine(data: string): string {
    "data: " + data
  }

  function EventLines(d: Dispatch): seq<string> {
    [NameLine(d.name), DataLine(d.data), ""]
  }

  function PrintedLines(events: seq<Dispatch>): seq<string> {
    if events == [] then [] else EventLines(events[0]) + PrintedLines(events[1..])
  }

  function Print(events: seq<Dispatch>): string {
    Text(PrintedLines(events))
  }

  lemma {:induction false} OneLineSplit(line: string, l: string, rest: string)
    requires OneLine(line) && OneLine(l)
    ensures StandardLines(l + "\n" + rest, line) == [line + l] + StandardLines(rest, "")
    ensures ScanLines(l + "\n" + rest, line) == [line + l] + ScanLines(rest, "")
    decreases |l|
  {
    var text := l + "\n" + rest;
    if l == "" {
      assert text[1..] == rest && line + l == line;
      assert line != "" ==> line[|line| - 1] in line;
    } else {
      assert text[0] == l[0] && l[0] in l;
      assert text[1..] == l[1..] + "\n" + rest;
      OneLineSplit(line + [l[0]], l[1..], rest);
      assert line + [l[0]] + l[1..] == line + l;
    }
  }

  /** Both readers see the lines of a text. */
  lemma {:induction false} BothSplitAlike(lines: seq<string>)
    requires forall i :: 0 <= i < |lines| ==> OneLine(lines[i])
    ensures StandardLines(Text(lines), "") == lines
    ensures ScanLines(Text(lines), "") == lines
  {
    if lines != [] {
      BothSplitAlike(lines[1..]);
      OneLineSplit("", lines[0], Text(lines[1..]));
      assert "" + lines[0] == lines[0] && lines == [lines[0]] + lines[1..];
    }
  }

  lemma {:induction false} PrintedOneLine(events: seq<Dispatch>)
    requires Printable(events)
    ensures forall i :: 0 <= i < |PrintedLines(events)| ==> OneLine(PrintedLines(events)[i])
  {
    if events != [] {
      PrintedOneLine(events[1..]);
    }
  }

  lemma PairsLine(line: string, rest: seq<string>, current: string)
    ensures Pairs([line] + rest, current)
         == if "event: " <= line then Pairs(rest, TrimPrefix(line, "event: "))
            else if "data: " <= line then [Dispatch(current, TrimPrefix(line, "data: "))] + Pairs(rest, "")
            else Pairs(rest, current)
  {
    assert ([line] + rest)[1..] == rest;
  }

  lemma NameRead(name: string, rest: seq<string>, current: string)
    ensures Pairs([NameLine(name)] + rest, current) == Pairs(rest, name)
  {
    PairsLine(NameLine(name), rest, current);
  }

  lemma DataRead(data: string, rest: seq<string>, current: string)
    ensures Pairs([DataLine(data)] + rest, current) == [Dispatch(current, data)] + Pairs(rest, "")
  {
    assert DataLine(data)[0] == 'd';
    PairsLine(DataLine(data), rest, current);
  }

  lemma BlankRead(rest: seq<string>, current: string)
    ensures Pairs([""] + rest, current) == Pairs(rest, current)
  {
    PairsLine("", rest, current);
  }

  lemma EventRead(d: Dispatch, rest: seq<string>)
    ensures Pairs(EventLines(d) + rest, "") == [d] + Pairs(rest, "")
  {
    var r2 := [""] + rest;
    var r1 := [DataLine(d.data)] + r2;
    assert EventLines(d) + rest == [NameLine(d.name)] + r1;
    NameRead(d.name, r1, "");
    DataRead(d.data, r2, d.name);
    BlankRead(rest, "");
  }

  /** The client pairs up exactly the events printed. */
  lemma {:induction false} ClientReads(events: seq<Dispatch>)
    ensures Pairs(PrintedLines(events), "") == events
  {
    if events != [] {
      ClientReads(events[1..]);
      EventRead(events[0], PrintedLines(events[1..]));
    }
  }

  /** What the standard makes of an event: one without a name is a "message". */
  function Named(d: Dispatch): Message {
    Message(if d.name == "" then "message" else d.name, d.data, "")
  }

  lemma FieldLines(p: Parser, name: string, data: string)
    ensures ProcessLine(p, NameLine(name)) == p.(eventType := name)
    ensures ProcessLine(p, DataLine(data)) == p.(data := p.data + data + "\n")
  {
    var l0, l1 := NameLine(name), DataLine(data);
    assert l0[5] == ':' && l0[0] == 'e' && l0[1] == 'v' && l0[2] == 'e' && l0[3] == 'n' && l0[4] == 't';
    assert l1[4] == ':' && l1[0] == 'd' && l1[1] == 'a' && l1[2] == 't' && l1[3] == 'a';
    assert Colon(l0) == 5 && Colon(l1) == 4;
    assert l0[..5] == "event" && l0[6..] == " " + name && l1[..4] == "data" && l1[5..] == " " + data;
  }

  lemma InterpretName(p: Parser, name: string, rest: seq<string>)
    ensures Interpret(p, [NameLine(name)] + rest) == Interpret(p.(eventType := name), rest)
  {
    FieldLines(p, name, "");
    assert ([NameLine(name)] + rest)[1..] == rest;
  }

  lemma InterpretData(p: Parser, data: string, rest: seq<string>)
    ensures Interpret(p, [DataLine(data)] + rest) == Interpret(p.(data := p.data + data + "\n"), rest)
  {
    FieldLines(p, "", data);
    assert ([DataLine(data)] + rest)[1..] == rest;
  }

  lemma InterpretBlank(data: string, name: string, rest: seq<string>)
    ensures Interpret(Parser(data + "\n", name, "", ""), [""] + rest)
         == [Named(Dispatch(name, data))] + Interpret(FRESH, rest)
  {
    var p := Parser(data + "\n", name, "", "");
    assert ([""] + rest)[1..] == rest;
    assert p.data[..|p.data| - 1] == data;
  }

  lemma InterpretEvent(d: Dispatch, rest: seq<string>)
    ensures Interpret(FRESH, EventLines(d) + rest) == [Named(d)] + Interpret(FRESH, rest)
  {
    var r2 := [""] + rest;
    var r1 := [DataLine(d.data)] + r2;
    var p1, p2 := Parser("", d.name, "", ""), Parser(d.data + "\n", d.name, "", "");
    assert p1.data + d.data + "\n" == p2.data;
    assert EventLines(d) + rest == [NameLine(d.name)] + r1;
    InterpretName(FRESH, d.name, r1);
    InterpretData(p1, d.data, r2);
    InterpretBlank(d.data, d.name, rest);
  }

  /** The standard dispatches exactly the events printed. */
  lemma {:induction false} StandardReads(events: seq<Dispatch>)
    ensures Interpret(FRESH, PrintedLines(events)) == Map(Named, events)
  {
    if events != [] {
      StandardReads(events[1..]);
      InterpretEvent(events[0], PrintedLines(events[1..]));
      MapHead(Named, events);
    }
  }

  function AsDispatch(m: Message): Dispatch {
    Dispatch(m.eventType, m.data)
  }

  /** The kinds of event the client has a callback for. */
  predicate Handled(name: string) {
    name in ["verify", "progress", "decision", "identity", "error"]
  }

  lemma SkipOne(dec: Decoder, d: Dispatch, rest: seq<Dispatch>, last: Option<Identity>)
    requires !Handled(d.name)
    ensures Course(dec, [d] + rest, last) == Course(dec, rest, last)
  {
    EventMeans(dec, d, rest, last);
    assert CallList(dec, d) == [] && FailureOf(dec, d) == None;
    assert [] + Calls(dec, Heard(dec, rest)) == Calls(dec, Heard(dec, rest));
  }

  /** An event without a name is handled as a "message", that is, not at all. */
  lemma NameGiven(dec: Decoder, d: Dispatch, rest: seq<Dispatch>, last: Option<Identity>)
    ensures Course(dec, [AsDispatch(Named(d))] + rest, last) == Course(dec, [d] + rest, last)
  {
    if d.name == "" {
      SkipOne(dec, d, rest, last);
      SkipOne(dec, AsDispatch(Named(d)), rest, last);
    } else {
      assert AsDispatch(Named(d)) == d;
    }
  }

  /** The courses on a block and what follows, by one of its readings. */
  lemma CourseNext(dec: Decoder, d: Dispatch, a: seq<Dispatch>, b: seq<Dispatch>, last: Option<Identity>)
    requires FailureOf(dec, d).Some? || Course(dec, a, After(dec, d, last)) == Course(dec, b, After(dec, d, last))
    ensures Course(dec, [d] + a, last) == Course(dec, [d] + b, last)
  {
    EventMeans(dec, d, a, last);
    EventMeans(dec, d, b, last);
  }

  lemma RenamedHead(events: seq<Dispatch>)
    requires events != []
    ensures Map(AsDispatch, Map(Named, events))
         == [AsDispatch(Named(events[0]))] + Map(AsDispatch, Map(Named, events[1..]))
  {
    MapHead(Named, events);
    MapHead(AsDispatch, Map(Named, events));
  }

  lemma NameMattersNot(dec: Decoder, d: Dispatch, renamed: seq<Dispatch>, rest: seq<Dispatch>, last: Option<Identity>)
    requires Course(dec, renamed, After(dec, d, last)) == Course(dec, rest, After(dec, d, last))
    ensures Course(dec, [AsDispatch(Named(d))] + renamed, last) == Course(dec, [d] + rest, last)
  {
    NameGiven(dec, d, renamed, last);
    CourseNext(dec, d, renamed, rest, last);
  }

  /** Messages without a name have no handler under either reading. */
  lemma {:induction false} NamesMatterNot(dec: Decoder, events: seq<Dispatch>, last: Option<Identity>)
    ensures Course(dec, Map(AsDispatch, Map(Named, events)), last) == Course(dec, events, last)
  {
    if events != [] {
      var d, rest := events[0], events[1..];
      NamesMatterNot(dec, rest, After(dec, d, last));
      NameMattersNot(dec, d, Map(AsDispatch, Map(Named, rest)), rest, last);
      RenamedHead(events);
      assert events == [d] + rest;
    }
  }

  /** On every canonically printed stream the client does what handling the messages of
      the standard's interpretation would do: the same callbacks in the same order, up
      to and including the first failure, and the same outcome. */
  lemma ClientFollowsStandard(dec: Decoder, events: seq<Dispatch>)
    requires Printable(events)
    ensures var text := Print(events);
            var messages := Interpret(FRESH, StandardLines(text, ""));
            messages == Map(Named, events) &&
            Handling(dec, Pairs(ScanLines(text, ""), "")) == Handling(dec, Map(AsDispatch, messages))
  {
    PrintedOneLine(events);
    BothSplitAlike(PrintedLines(events));
    ClientReads(events);
    StandardReads(events);
    NamesMatterNot(dec, events, None);
  }
}
