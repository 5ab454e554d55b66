/** Splitting an HTTP response and a bundle source by hand, as internal/agent/apply.go
    does for downloads over the overlay. */
module HttpBody {
  import opened Common

  const CR: Byte := 13
  const LF: Byte := 10

  const CRLF: Bytes := [13, 10]

  predicate BlankLineAt(data: Bytes, i: nat) {
    i + 4 <= |data| && data[i..i + 4] == CRLF + CRLF
  }

  /** What follows the first blank line, if there is one. */
  function Body(data: Bytes): Option<Bytes> {
    if |data| < 4 then None
    else if BlankLineAt(data, 0) then Some(data[4..])
    else Body(data[1..])
  }

  lemma {:induction false} BodyAt(data: Bytes, i: nat)
    requires i <= |data|
    requires forall k :: 0 <= k < i ==> !BlankLineAt(data, k)
    ensures BlankLineAt(data, i) ==> Body(data) == Some(data[i + 4..])
    ensures i + 3 >= |data| ==> Body(data) == None
    decreases i
  {
    if i > 0 && |data| >= 4 {
      forall k | 0 <= k < i - 1
        ensures !BlankLineAt(data[1..], k)
      {
        assert !BlankLineAt(data, k + 1);
        if k + 5 <= |data| {
          assert data[1..][k..k + 4] == data[k + 1..k + 5];
        }
      }
      assert !BlankLineAt(data, 0);
      BodyAt(data[1..], i - 1);
      if i + 4 <= |data| {
        assert data[1..][i - 1..i + 3] == data[i..i + 4];
        assert data[1..][i + 3..] == data[i + 4..];
      }
    }
  }

  /** stripHTTPHeaders. */
  method StripHTTPHeaders(data: array<Byte>) returns (body: Option<Bytes>)
    ensures body == Body(data[..])
  {
    var i := 0;
    while i < data.Length - 3
      invariant 0 <= i && (i == 0 || i <= data.Length - 3)
      invariant forall k :: 0 <= k < i ==> !BlankLineAt(data[..], k)
    {
      if data[i] == CR && data[i + 1] == LF && data[i + 2] == CR && data[i + 3] == LF {
        assert data[..][i..i + 4] == CRLF + CRLF;
        BodyAt(data[..], i);
        return Some(data[i + 4..]);
      }
      assert !BlankLineAt(data[..], i) by {
        var four := data[..][i..i + 4];
        assert four[0] == data[i] && four[1] == data[i + 1] && four[2] == data[i + 2] && four[3] == data[i + 3];
      }
      i := i + 1;
    }
    BodyAt(data[..], i);
    return None;
  }

  /** Stripping fails exactly when no blank line occurs anywhere. */
  lemma {:induction false} BodyMissing(data: Bytes)
    ensures Body(data).None? <==> forall i :: 0 <= i < |data| ==> !BlankLineAt(data, i)
  {
    if |data| >= 4 {
      BodyMissing(data[1..]);
      forall i | 0 <= i < |data| - 1
        ensures BlankLineAt(data[1..], i) <==> BlankLineAt(data, i + 1)
      {
        if i + 5 <= |data| {
          assert data[1..][i..i + 4] == data[i + 1..i + 5];
        }
      }
      if forall i :: 0 <= i < |data| - 1 ==> !BlankLineAt(data[1..], i) {
        forall i | 1 <= i < |data|
          ensures !BlankLineAt(data, i)
        {
          assert !BlankLineAt(data[1..], i - 1);
        }
      }
    }
  }

  // -------------------------------------------------------------- messages

  predicate OneLine(line: Bytes) {
    CR !in line && LF !in line
  }

  function FieldLines(fields: seq<Bytes>): Bytes {
    if fields == [] then [] else fields[0] + CRLF + FieldLines(fields[1..])
  }

  /** A message as section 2.1 of RFC 9112 lays it out. */
  function Render(startLine: Bytes, fields: seq<Bytes>, body: Bytes): Bytes {
    startLine + CRLF + (FieldLines(fields) + (CRLF + body))
  }

  /** No blank line starts within a line, nor at its end unless another line end follows. */
  lemma {:induction false} SkipLine(line: Bytes, rest: Bytes)
    requires OneLine(line)
    ensures Body(line + CRLF + rest) == if CRLF <= rest then Some(rest[2..]) else Body(rest)
  {
    var all := line + CRLF + rest;
    if line != [] {
      assert line[0] in line;
      assert all[0] == line[0];
      assert all[1..] == line[1..] + CRLF + rest;
      SkipLine(line[1..], rest);
      if |all| >= 4 {
        assert all[0..4][0] != CR;
        assert !BlankLineAt(all, 0);
      } else {
        assert rest == [] && Body(all[1..]) == None;
      }
    } else {
      assert all == CRLF + rest;
      if CRLF <= rest {
        assert all[0..4] == CRLF + CRLF && all[4..] == rest[2..];
      } else {
        assert all[1..] == [LF] + rest && all[1..][1..] == rest;
        assert |all| >= 4 ==> all[2..4] == rest[..2] && all[0..4][2..4] == all[2..4];
        assert |all[1..]| >= 4 ==> all[1..][0..4][0] == LF;
        assert !BlankLineAt(all, 0) && !BlankLineAt(all[1..], 0);
        assert Body(all) == Body(all[1..]);
        assert Body(all[1..]) == Body(rest);
      }
    }
  }

  lemma {:induction false} SkipFields(fields: seq<Bytes>, body: Bytes)
    requires forall i :: 0 <= i < |fields| ==> fields[i] != [] && OneLine(fields[i])
    ensures var rest := FieldLines(fields) + (CRLF + body);
            (if CRLF <= rest then Some(rest[2..]) else Body(rest)) == Some(body)
  {
    var rest := FieldLines(fields) + (CRLF + body);
    if fields == [] {
      assert rest == CRLF + body && rest[2..] == body;
    } else {
      var rest1 := FieldLines(fields[1..]) + (CRLF + body);
      assert rest == fields[0] + CRLF + rest1;
      assert rest[0] == fields[0][0] && fields[0][0] in fields[0];
      assert rest[0] != CR;
      SkipLine(fields[0], rest1);
      SkipFields(fields[1..], body);
    }
  }

  /** Stripping a rendered message gives exactly its body, whatever the body's bytes. */
  lemma BodyOfRender(startLine: Bytes, fields: seq<Bytes>, body: Bytes)
    requires OneLine(startLine)
    requires forall i :: 0 <= i < |fields| ==> fields[i] != [] && OneLine(fields[i])
    ensures Body(Render(startLine, fields, body)) == Some(body)
  {
    SkipLine(startLine, FieldLines(fields) + (CRLF + body));
    SkipFields(fields, body);
  }

  // ---------------------------------------------------------------- source

  /** indexOf: the first position of c, or the length. */
  method IndexOf(s: string, c: char) returns (i: nat)
    ensures i <= |s| && c !in s[..i] && (i < |s| ==> s[i] == c)
  {
    i := 0;
    while i < |s|
      invariant i <= |s| && c !in s[..i]
    {
      if s[i] == c {
        return;
      }
      assert s[..i + 1] == s[..i] + [s[i]];
      i := i + 1;
    }
  }

  /** How fetchBundle takes a source apart: a service name without a slash, and a path
      that is empty or starts with one. */
  method SplitSource(source: string) returns (service: string, path: string)
    ensures service + path == source && '/' !in service && (path == "" || path[0] == '/')
  {
    var i := IndexOf(source, '/');
    service, path := source[..i], source[i..];
  }
}
