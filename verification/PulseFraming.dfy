/** The pulse wire frame of internal/agent/pulse.go: one length byte, the slug, the data. */
module PulseFraming {
  import opened Common

  datatype Pulse = Pulse(slug: Bytes, data: Bytes)

  /** A slug is cut to what one length byte can count. */
  function Cut(slug: Bytes): Bytes {
    if |slug| > 255 then slug[..255] else slug
  }

  function Encode(slug: Bytes, data: Bytes): Bytes {
    [|Cut(slug)| as Byte] + Cut(slug) + data
  }

  function Decode(raw: Bytes): Option<Pulse> {
    if |raw| < 2 then None
    else if 1 + raw[0] > |raw| then None
    else Some(Pulse(raw[1..1 + raw[0]], raw[1 + raw[0]..]))
  }

  /** This is the frame of this slug and data: a length byte, the slug, the data. */
  predicate IsFrame(payload: Bytes, slug: Bytes, data: Bytes) {
    |slug| <= 255 && payload == [|slug| as Byte] + slug + data
  }

  /** The built-in copy into buf[at:]. */
  method Copy(buf: array<Byte>, at: nat, src: Bytes)
    requires at + |src| <= buf.Length
    modifies buf
    ensures buf[..] == old(buf[..at]) + src + old(buf[at + |src|..])
  {
    for i := 0 to |src|
      invariant buf[..at + i] == old(buf[..at]) + src[..i]
      invariant buf[at + i..] == old(buf[at + i..])
    {
      buf[at + i] := src[i];
    }
    assert buf[..] == buf[..at + |src|] + buf[at + |src|..];
  }

  /** encodePulseMessage: fills a buffer of the exact size in place. */
  method EncodePulseMessage(slug: Bytes, data: Bytes) returns (buf: array<Byte>)
    ensures fresh(buf) && buf[..] == Encode(slug, data)
    ensures IsFrame(buf[..], if |slug| > 255 then slug[..255] else slug, data)
  {
    var slugBytes := slug;
    if |slugBytes| > 255 {
      slugBytes := slugBytes[..255];
    }
    var n := |slugBytes|;
    buf := new Byte[1 + n + |data|](_ => 0);
    buf[0] := n;
    Copy(buf, 1, slugBytes);
    Copy(buf, 1 + n, data);
    assert buf[..] == Encode(slug, data);
  }

  /** Decoding undoes encoding, up to the cut, unless there is nothing at all to send:
      the one frame too short to be read back. */
  lemma DecodeOfEncode(slug: Bytes, data: Bytes)
    ensures Decode(Encode(slug, data))
         == if slug == [] && data == [] then None else Some(Pulse(Cut(slug), data))
  {
    var raw, s := Encode(slug, data), Cut(slug);
    assert raw[0] == |s| && raw[1..1 + |s|] == s && raw[1 + |s|..] == data;
  }

  /** Encoding undoes decoding on every frame that decodes. */
  lemma EncodeOfDecode(raw: Bytes)
    requires Decode(raw).Some?
    ensures var p := Decode(raw).value; |p.slug| <= 255 && Encode(p.slug, p.data) == raw
  {
    var n := raw[0];
    assert raw == [n] + raw[1..1 + n] + raw[1 + n..];
  }

  // --------------------------------------------------------- publication

  /** The slug of payloads that do not decode: "unknown". */
  const UNKNOWN: Bytes := [117, 110, 107, 110, 111, 119, 110]

  /** What a payload is published as (internal/agent/agent.go:512-516, 582-587). */
  function Published(payload: Bytes): Pulse {
    match Decode(payload)
    case Some(p) => p
    case None => Pulse(UNKNOWN, payload)
  }

  /** The payload is too short for a frame, or its length byte promises more than there is. */
  predicate NoFrame(payload: Bytes) {
    |payload| < 2 || payload[0] >= |payload|
  }

  /** The slug and the data a payload should be published with: those it is a frame of, or
      "unknown" and the payload itself. */
  ghost predicate RightlySplit(payload: Bytes, slug: Bytes, data: Bytes) {
    if NoFrame(payload) then slug == [117, 110, 107, 110, 111, 119, 110] && data == payload
    else IsFrame(payload, slug, data)
  }

  lemma PublishedRightly(payload: Bytes)
    ensures RightlySplit(payload, Published(payload).slug, Published(payload).data)
  {
    if !NoFrame(payload) {
      var n := payload[0];
      assert payload == [n] + payload[1..1 + n] + payload[1 + n..];
    }
  }

  /** A payload is a frame in one way at most, and a frame of nothing is too short. */
  lemma FrameUnique(payload: Bytes, slug: Bytes, data: Bytes, slug': Bytes, data': Bytes)
    requires IsFrame(payload, slug, data)
    ensures NoFrame(payload) <==> slug == [] && data == []
    ensures IsFrame(payload, slug', data') ==> slug' == slug && data' == data
  {
    assert payload[0] == |slug| && payload[1..1 + |slug|] == slug && payload[1 + |slug|..] == data;
    if IsFrame(payload, slug', data') {
      assert payload[0] == |slug'| && payload[1..1 + |slug'|] == slug' && payload[1 + |slug'|..] == data';
    }
  }

  /** No byte is lost: the publication frames back to the payload, or is the payload. */
  lemma NothingLost(payload: Bytes)
    ensures var p := Published(payload);
            Encode(p.slug, p.data) == payload || p == Pulse(UNKNOWN, payload)
  {
    if Decode(payload).Some? {
      EncodeOfDecode(payload);
    }
  }

  /** Two different payloads are published alike exactly when one does not decode and
      the other is that one framed under the slug "unknown". So every payload can be
      told from its publication, except for this one confusion. */
  lemma PublishedAlike(p: Bytes, q: Bytes)
    ensures Published(p) == Published(q) <==>
            p == q ||
            (Decode(p).None? && q == Encode(UNKNOWN, p)) ||
            (Decode(q).None? && p == Encode(UNKNOWN, q))
  {
    DecodeOfEncode(UNKNOWN, p);
    DecodeOfEncode(UNKNOWN, q);
    if Decode(p).Some? {
      EncodeOfDecode(p);
    }
    if Decode(q).Some? {
      EncodeOfDecode(q);
    }
  }
}
