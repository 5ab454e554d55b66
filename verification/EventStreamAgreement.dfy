/** Where the client of EnrollStream and the WHATWG HTML Living Standard (section 9.2.6)
    part ways: events printed with any number of data lines, and field lines without the
    space that the standard leaves optional. */
module EventStreamAgreement {
  import opened Common
  import opened Strings
  import opened EnrollStream
  import opened EventStreamStandard

  /** An event by name, with its data lines. */
  datatype Block = Block(name: string, data: seq<string>)

  function DataLines(data: seq<string>): seq<string> {
    if data == [] then [] else [DataLine(data[0])] + DataLines(data[1..])
  }

  function BlockLines(b: Block): seq<string> {
    [NameLine(b.name)] + (DataLines(b.data) + [""])
  }

  /** One event line, the data lines and a blank line for each block. */
  function AllLines(blocks: seq<Block>): seq<string> {
    if blocks == [] then [] else BlockLines(blocks[0]) + AllLines(blocks[1..])
  }

  // ------------------------------------------------------- what each reads

  function Unnamed(data: seq<string>): seq<Dispatch> {
    if data == [] then [] else [Dispatch("", data[0])] + Unnamed(data[1..])
  }

  /** The client takes the first data line for the event, and the others for events
      without a name. */
  function TakenApart(b: Block): seq<Dispatch> {
    if b.data == [] then [] else [Dispatch(b.name, b.data[0])] + Unnamed(b.data[1..])
  }

  function ClientView(blocks: seq<Block>): seq<Dispatch> {
    if blocks == [] then [] else TakenApart(blocks[0]) + ClientView(blocks[1..])
  }

  /** The standard joins the data lines. */
  function Joined(b: Block): seq<Message> {
    if b.data == [] then [] else [Named(Dispatch(b.name, Join(b.data, '\n')))]
  }

  function StandardView(blocks: seq<Block>): seq<Message> {
    if blocks == [] then [] else Joined(blocks[0]) + StandardView(blocks[1..])
  }

  lemma DataLinesNext(data: seq<string>, rest: seq<string>)
    requires data != []
    ensures DataLines(data) + rest == [DataLine(data[0])] + (DataLines(data[1..]) + rest)
  {
  }

  lemma {:induction false} UnnamedLines(data: seq<string>, rest: seq<string>)
    ensures Pairs(DataLines(data) + ([""] + rest), "") == Unnamed(data) + Pairs(rest, "")
  {
    if data == [] {
      assert DataLines(data) + ([""] + rest) == [""] + rest;
      BlankRead(rest, "");
    } else {
      DataLinesNext(data, [""] + rest);
      DataRead(data[0], DataLines(data[1..]) + ([""] + rest), "");
      UnnamedLines(data[1..], rest);
      ConcatAssoc([Dispatch("", data[0])], Unnamed(data[1..]), Pairs(rest, ""));
    }
  }

  /** What is left over from a block without data does not outlive the next event line. */
  lemma CurrentForgotten(blocks: seq<Block>, current: string)
    ensures Pairs(AllLines(blocks), current) == Pairs(AllLines(blocks), "")
  {
    if blocks != [] {
      var b := blocks[0];
      var more := DataLines(b.data) + [""] + AllLines(blocks[1..]);
      assert AllLines(blocks) == [NameLine(b.name)] + more;
      NameRead(b.name, more, current);
      NameRead(b.name, more, "");
    }
  }

  lemma BlockNext(b: Block, rest: seq<string>)
    ensures BlockLines(b) + rest == [NameLine(b.name)] + (DataLines(b.data) + ([""] + rest))
  {
    ConcatAssoc([NameLine(b.name)], DataLines(b.data) + [""], rest);
    ConcatAssoc(DataLines(b.data), [""], rest);
  }

  /** The data lines of a block, read after its event line. */
  lemma ClientData(b: Block, rest: seq<string>)
    ensures Pairs(DataLines(b.data) + ([""] + rest), b.name)
         == if b.data == [] then Pairs(rest, b.name) else TakenApart(b) + Pairs(rest, "")
  {
    if b.data == [] {
      assert DataLines(b.data) + ([""] + rest) == [""] + rest;
      BlankRead(rest, b.name);
    } else {
      var others := DataLines(b.data[1..]) + ([""] + rest);
      DataLinesNext(b.data, [""] + rest);
      DataRead(b.data[0], others, b.name);
      UnnamedLines(b.data[1..], rest);
      ConcatAssoc([Dispatch(b.name, b.data[0])], Unnamed(b.data[1..]), Pairs(rest, ""));
    }
  }

  lemma ClientBlock(b: Block, blocks: seq<Block>)
    ensures Pairs(BlockLines(b) + AllLines(blocks), "") == TakenApart(b) + Pairs(AllLines(blocks), "")
  {
    var rest := AllLines(blocks);
    BlockNext(b, rest);
    NameRead(b.name, DataLines(b.data) + ([""] + rest), "");
    ClientData(b, rest);
    CurrentForgotten(blocks, b.name);
  }

  /** On every list of blocks the client pairs an event with its first data line only. */
  lemma {:induction false} ClientTakesFirst(blocks: seq<Block>)
    ensures Pairs(AllLines(blocks), "") == ClientView(blocks)
  {
    if blocks != [] {
      ClientTakesFirst(blocks[1..]);
      ClientBlock(blocks[0], blocks[1..]);
    }
  }

  /** Every data line with a line feed after it. */
  function Ended(data: seq<string>): string {
    if data == [] then "" else data[0] + "\n" + Ended(data[1..])
  }

  lemma {:induction false} EndedIsJoined(data: seq<string>)
    requires data != []
    ensures Ended(data) == Join(data, '\n') + "\n"
  {
    if |data| > 1 {
      EndedIsJoined(data[1..]);
    } else {
      assert data[0] + "\n" + "" == data[0] + "\n";
    }
  }

  lemma EndedNext(before: string, data: seq<string>)
    requires data != []
    ensures before + data[0] + "\n" + Ended(data[1..]) == before + Ended(data)
  {
    ConcatAssoc(before, data[0], "\n");
    ConcatAssoc(before, data[0] + "\n", Ended(data[1..]));
  }

  lemma {:induction false} InterpretLines(p: Parser, data: seq<string>, rest: seq<string>)
    ensures Interpret(p, DataLines(data) + rest) == Interpret(p.(data := p.data + Ended(data)), rest)
    decreases |data|
  {
    if data == [] {
      assert DataLines(data) + rest == rest && p.data + "" == p.data;
    } else {
      var p1, more := p.(data := p.data + data[0] + "\n"), DataLines(data[1..]) + rest;
      DataLinesNext(data, rest);
      InterpretData(p, data[0], more);
      InterpretLines(p1, data[1..], rest);
      EndedNext(p.data, data);
    }
  }

  lemma InterpretEmpty(name: string, rest: seq<string>)
    ensures Interpret(FRESH.(eventType := name), [""] + rest) == Interpret(FRESH, rest)
  {
    assert ([""] + rest)[1..] == rest;
  }

  lemma StandardBlock(b: Block, rest: seq<string>)
    ensures Interpret(FRESH, BlockLines(b) + rest) == Joined(b) + Interpret(FRESH, rest)
  {
    var p, more := FRESH.(eventType := b.name), DataLines(b.data) + ([""] + rest);
    BlockNext(b, rest);
    InterpretName(FRESH, b.name, more);
    InterpretLines(p, b.data, [""] + rest);
    assert "" + Ended(b.data) == Ended(b.data);
    if b.data == [] {
      InterpretEmpty(b.name, rest);
    } else {
      EndedIsJoined(b.data);
      InterpretBlank(Join(b.data, '\n'), b.name, rest);
    }
  }

  /** On every list of blocks the standard dispatches one message for each that has data,
      with its data lines joined by line feeds. */
  lemma {:induction false} StandardJoins(blocks: seq<Block>)
    ensures Interpret(FRESH, AllLines(blocks)) == StandardView(blocks)
  {
    if blocks != [] {
      StandardJoins(blocks[1..]);
      StandardBlock(blocks[0], AllLines(blocks[1..]));
    }
  }

  // -------------------------------------------------- when they agree

  ghost predicate OneDataLine(blocks: seq<Block>) {
    forall i :: 0 <= i < |blocks| ==> |blocks[i].data| <= 1
  }

  lemma {:induction false} UnnamedCount(data: seq<string>)
    ensures |Unnamed(data)| == |data|
  {
    if data != [] {
      UnnamedCount(data[1..]);
    }
  }

  /** The client sees at least as many events as the standard, and more if some block has
      more than one data line. */
  lemma {:induction false} Counts(blocks: seq<Block>)
    ensures |ClientView(blocks)| >= |StandardView(blocks)|
    ensures |ClientView(blocks)| == |StandardView(blocks)| <==> OneDataLine(blocks)
  {
    if blocks != [] {
      var b, rest := blocks[0], blocks[1..];
      assert blocks == [b] + rest;
      Counts(rest);
      if b.data != [] {
        UnnamedCount(b.data[1..]);
      }
      assert OneDataLine(blocks) <==> |b.data| <= 1 && OneDataLine(rest);
    }
  }

  lemma MapConcat<A, B>(f: A -> B, a: seq<A>, b: seq<A>)
    ensures Map(f, a + b) == Map(f, a) + Map(f, b)
  {
  }

  lemma SameBlock(b: Block)
    requires |b.data| <= 1
    ensures Map(Named, TakenApart(b)) == Joined(b)
  {
    if b.data != [] {
      assert TakenApart(b) == [Dispatch(b.name, b.data[0])];
    }
  }

  lemma {:induction false} SameView(blocks: seq<Block>)
    requires OneDataLine(blocks)
    ensures Map(Named, ClientView(blocks)) == StandardView(blocks)
  {
    if blocks != [] {
      SameView(blocks[1..]);
      SameBlock(blocks[0]);
      MapConcat(Named, TakenApart(blocks[0]), ClientView(blocks[1..]));
    }
  }

  /** The client reads a list of blocks as the standard does exactly if no block has more
      than one data line. */
  lemma AgreeExactly(blocks: seq<Block>)
    ensures Map(AsDispatch, Interpret(FRESH, AllLines(blocks)))
         == Map(AsDispatch, Map(Named, Pairs(AllLines(blocks), "")))
       <==> OneDataLine(blocks)
  {
    ClientTakesFirst(blocks);
    StandardJoins(blocks);
    Counts(blocks);
    if OneDataLine(blocks) {
      SameView(blocks);
    }
  }

  // ------------------------------------------ without the optional space

  function BareLine(field: string, value: string): string {
    field + ":" + value
  }

  /** The standard reads a field line alike with the space after its colon and without. */
  lemma BareFields(p: Parser, value: string)
    requires !(" " <= value)
    ensures ProcessLine(p, BareLine("event", value)) == p.(eventType := value)
    ensures ProcessLine(p, BareLine("data", value)) == p.(data := p.data + value + "\n")
  {
    var l0, l1 := BareLine("event", value), BareLine("data", value);
    assert l0[5] == ':' && l0[0] == 'e' && l0[1] == 'v' && l0[2] == 'e' && l0[3] == 'n' && l0[4] == 't';
    assert l1[4] == ':' && l1[0] == 'd' && l1[1] == 'a' && l1[2] == 't' && l1[3] == 'a';
    assert Colon(l0) == 5 && Colon(l1) == 4;
    assert l0[..5] == "event" && l0[6..] == value && l1[..4] == "data" && l1[5..] == value;
  }

  /** The client sees nothing in it. */
  lemma BareIsNoise(value: string)
    requires !(" " <= value)
    ensures Noise([BareLine("event", value), BareLine("data", value)])
  {
    var l0, l1 := BareLine("event", value), BareLine("data", value);
    assert l0[0] == 'e' && l1[0] == 'd' && "event: "[6] == ' ' && "data: "[5] == ' ';
    if value != "" {
      assert value[0] != ' ' && l0[6] == value[0] && l1[5] == value[0];
    }
  }

  lemma BareName(p: Parser, name: string, rest: seq<string>)
    requires !(" " <= name)
    ensures Interpret(p, [BareLine("event", name)] + rest) == Interpret(p.(eventType := name), rest)
  {
    BareFields(p, name);
    assert ([BareLine("event", name)] + rest)[1..] == rest;
  }

  lemma BareData(p: Parser, data: string, rest: seq<string>)
    requires !(" " <= data)
    ensures Interpret(p, [BareLine("data", data)] + rest) == Interpret(p.(data := p.data + data + "\n"), rest)
  {
    BareFields(p, data);
    assert ([BareLine("data", data)] + rest)[1..] == rest;
  }

  lemma BareDataAfterName(name: string, data: string, rest: seq<string>)
    requires !(" " <= data)
    ensures Interpret(Parser("", name, "", ""), [BareLine("data", data)] + rest)
         == Interpret(Parser(data + "\n", name, "", ""), rest)
  {
    BareData(Parser("", name, "", ""), data, rest);
    assert "" + data + "\n" == data + "\n";
  }

  lemma InterpretBare(name: string, data: string, rest: seq<string>)
    requires !(" " <= name) && !(" " <= data)
    ensures Interpret(FRESH, [BareLine("event", name)] + ([BareLine("data", data)] + ([""] + rest)))
         == [Named(Dispatch(name, data))] + Interpret(FRESH, rest)
  {
    var r2 := [""] + rest;
    BareName(FRESH, name, [BareLine("data", data)] + r2);
    BareDataAfterName(name, data, r2);
    InterpretBlank(data, name, rest);
  }

  /** An event printed without the space is dispatched by the standard, and not there for
      the client. */
  lemma SpaceNeeded(name: string, data: string)
    requires !(" " <= name) && !(" " <= data)
    ensures var lines := [BareLine("event", name)] + ([BareLine("data", data)] + ([""] + []));
            Interpret(FRESH, lines) == [Named(Dispatch(name, data))] && Pairs(lines, "") == []
  {
    InterpretBare(name, data, []);
    BareIsNoise(name);
    BareIsNoise(data);
    var l0, l1, last := BareLine("event", name), BareLine("data", data), [""] + [];
    assert [BareLine("event", name), BareLine("data", name)][0] == l0;
    assert [BareLine("event", data), BareLine("data", data)][1] == l1;
    PairsLine(l0, [l1] + last, "");
    PairsLine(l1, last, "");
    PairsLine("", [], "");
  }

  // ------------------------------------- when it makes no difference

  /** Up to and including the first error event, no event of a known kind has more than
      one data line. */
  predicate HandledAlike(blocks: seq<Block>) {
    blocks == [] ||
    (var b := blocks[0];
     (Handled(b.name) ==> |b.data| <= 1) && ((b.name == "error" && b.data != []) || HandledAlike(blocks[1..])))
  }

  lemma {:induction false} SkipUnnamed(dec: Decoder, data: seq<string>, rest: seq<Dispatch>, last: Option<Identity>)
    ensures Course(dec, Unnamed(data) + rest, last) == Course(dec, rest, last)
  {
    if data == [] {
      assert Unnamed(data) + rest == rest;
    } else {
      SkipUnnamed(dec, data[1..], rest, last);
      SkipOne(dec, Dispatch("", data[0]), Unnamed(data[1..]) + rest, last);
      ConcatAssoc([Dispatch("", data[0])], Unnamed(data[1..]), rest);
    }
  }

  /** The client's course on a block with data is that of its first data line. */
  lemma ClientCourse(dec: Decoder, b: Block, rest: seq<Dispatch>, last: Option<Identity>)
    requires b.data != []
    ensures Course(dec, TakenApart(b) + rest, last) == Course(dec, [Dispatch(b.name, b.data[0])] + rest, last)
  {
    var d, others := Dispatch(b.name, b.data[0]), Unnamed(b.data[1..]);
    assert TakenApart(b) + rest == [d] + (others + rest);
    EventMeans(dec, d, others + rest, last);
    EventMeans(dec, d, rest, last);
    SkipUnnamed(dec, b.data[1..], rest, After(dec, d, last));
  }

  /** What the standard's messages are handled as. */
  function Standardly(blocks: seq<Block>): seq<Dispatch> {
    Map(AsDispatch, StandardView(blocks))
  }

  lemma StandardlyNext(b: Block, rest: seq<Block>)
    ensures Standardly([b] + rest)
         == (if b.data == [] then [] else [AsDispatch(Named(Dispatch(b.name, Join(b.data, '\n'))))]) + Standardly(rest)
  {
    assert ([b] + rest)[1..] == rest;
  }

  lemma {:induction false} SameCourse(dec: Decoder, blocks: seq<Block>, last: Option<Identity>)
    requires HandledAlike(blocks)
    ensures Course(dec, ClientView(blocks), last) == Course(dec, Standardly(blocks), last)
  {
    if blocks != [] {
      var b, rest := blocks[0], blocks[1..];
      assert blocks == [b] + rest;
      StandardlyNext(b, rest);
      if b.data == [] {
        assert ClientView(blocks) == ClientView(rest) && Standardly(blocks) == Standardly(rest);
        SameCourse(dec, rest, last);
      } else {
        var d, joined := Dispatch(b.name, b.data[0]), Dispatch(b.name, Join(b.data, '\n'));
        ClientCourse(dec, b, ClientView(rest), last);
        NameGiven(dec, joined, Standardly(rest), last);
        if Handled(b.name) {
          assert d == joined;
          if b.name != "error" {
            SameCourse(dec, rest, After(dec, d, last));
          }
          CourseNext(dec, d, ClientView(rest), Standardly(rest), last);
        } else {
          SameCourse(dec, rest, last);
          SkipOne(dec, d, ClientView(rest), last);
          SkipOne(dec, joined, Standardly(rest), last);
        }
      }
    }
  }

  /** A decoder that tells all data apart and finds no rejection. */
  const TELLING: Decoder := Decoder(
    d => Verify(d, false, "", ""), d => d, d => Decision("", d), d => Identity(d, "", "", "", [], map[]), d => d)

  lemma {:induction false} JoinLonger(data: seq<string>)
    requires data != []
    ensures |data| >= 2 ==> |Join(data, '\n')| > |data[0]|
  {
  }

  /** Calls that begin with different data are different. */
  lemma FirstCallDiffers(d: Dispatch, d': Dispatch, a: seq<Dispatch>, b: seq<Dispatch>)
    requires Handled(d.name) && d.name == d'.name && d.data != d'.data
    ensures Calls(TELLING, Heard(TELLING, [d] + a)) != Calls(TELLING, Heard(TELLING, [d'] + b))
  {
    EventMeans(TELLING, d, a, None);
    EventMeans(TELLING, d', b, None);
    assert Calls(TELLING, Heard(TELLING, [d] + a))[0] == CallList(TELLING, d)[0];
    assert Calls(TELLING, Heard(TELLING, [d'] + b))[0] == CallList(TELLING, d')[0];
  }

  /** After the same event, different calls remain different. */
  lemma LaterCallDiffers(d: Dispatch, a: seq<Dispatch>, b: seq<Dispatch>)
    requires d.name != "error"
    requires Calls(TELLING, Heard(TELLING, a)) != Calls(TELLING, Heard(TELLING, b))
    ensures Calls(TELLING, Heard(TELLING, [d] + a)) != Calls(TELLING, Heard(TELLING, [d] + b))
  {
    EventMeans(TELLING, d, a, None);
    EventMeans(TELLING, d, b, None);
    var c, ca, cb := CallList(TELLING, d), Calls(TELLING, Heard(TELLING, a)), Calls(TELLING, Heard(TELLING, b));
    assert (c + ca)[|c|..] == ca && (c + cb)[|c|..] == cb;
  }

  lemma {:induction false} OtherCourse(blocks: seq<Block>)
    requires !HandledAlike(blocks)
    ensures Calls(TELLING, Heard(TELLING, ClientView(blocks))) != Calls(TELLING, Heard(TELLING, Standardly(blocks)))
  {
    var b, rest := blocks[0], blocks[1..];
    assert blocks == [b] + rest;
    StandardlyNext(b, rest);
    if b.data == [] {
      assert ClientView(blocks) == ClientView(rest) && Standardly(blocks) == Standardly(rest);
      OtherCourse(rest);
    } else {
      var d, joined := Dispatch(b.name, b.data[0]), Dispatch(b.name, Join(b.data, '\n'));
      ClientCourse(TELLING, b, ClientView(rest), None);
      NameGiven(TELLING, joined, Standardly(rest), None);
      if !Handled(b.name) {
        OtherCourse(rest);
        SkipOne(TELLING, d, ClientView(rest), None);
        SkipOne(TELLING, joined, Standardly(rest), None);
      } else if |b.data| >= 2 {
        JoinLonger(b.data);
        FirstCallDiffers(d, joined, ClientView(rest), Standardly(rest));
      } else {
        OtherCourse(rest);
        assert d == joined;
        LaterCallDiffers(d, ClientView(rest), Standardly(rest));
      }
    }
  }

  /** Whatever the decoder, handling the client's reading of a list of blocks has the same
      callbacks and outcome as handling the standard's: this holds exactly if up to and
      including the first error event no event of a known kind has more than one data
      line. */
  lemma HandlingExactly(blocks: seq<Block>)
    ensures (forall dec :: Handling(dec, Pairs(AllLines(blocks), ""))
                        == Handling(dec, Map(AsDispatch, Interpret(FRESH, AllLines(blocks)))))
       <==> HandledAlike(blocks)
  {
    ClientTakesFirst(blocks);
    StandardJoins(blocks);
    if HandledAlike(blocks) {
      forall dec
        ensures Handling(dec, ClientView(blocks)) == Handling(dec, Standardly(blocks))
      {
        SameCourse(dec, blocks, None);
      }
    } else {
      OtherCourse(blocks);
      assert Handling(TELLING, ClientView(blocks)) != Handling(TELLING, Standardly(blocks));
    }
  }

  lemma CourseOfOne(dec: Decoder, d: Dispatch)
    ensures Handling(dec, [d]) == (CallList(dec, d), (match FailureOf(dec, d)
                                                      case Some(failure) => failure
                                                      case None => Conclusion(dec, [], After(dec, d, None))))
  {
    EventMeans(dec, d, [], None);
    assert [d] + [] == [d] && CallList(dec, d) + [] == CallList(dec, d);
  }

  lemma ViewsOfOne(b: Block)
    requires b.data != []
    ensures ClientView([b]) == TakenApart(b) + []
    ensures b.name != "" ==> Standardly([b]) == [Dispatch(b.name, Join(b.data, '\n'))]
  {
    var none: seq<Block> := [];
    assert [b][1..] == none && [b] == [b] + none && Standardly(none) == [];
    StandardlyNext(b, none);
  }

  /** For one: a rejection that only reads as one with both its lines is missed. */
  lemma RejectionMissed(dec: Decoder, first: string, second: string)
    requires dec.decision(first).status != "rejected"
    requires dec.decision(first + "\n" + second).status == "rejected"
    ensures var lines := AllLines([Block("decision", [first, second])]);
            Handling(dec, Pairs(lines, "")).1 == NoIdentity &&
            Handling(dec, Map(AsDispatch, Interpret(FRESH, lines))).1.Rejected?
  {
    var b := Block("decision", [first, second]);
    ClientTakesFirst([b]);
    StandardJoins([b]);
    ViewsOfOne(b);
    ClientCourse(dec, b, [], None);
    CourseOfOne(dec, Dispatch("decision", first));
    assert [Dispatch("decision", first)] + [] == [Dispatch("decision", first)];
    assert Join(b.data, '\n') == first + "\n" + second by {
      assert b.data[1..] == [second];
    }
    CourseOfOne(dec, Dispatch("decision", first + "\n" + second));
  }
}
