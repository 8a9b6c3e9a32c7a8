/** Discovery packets (RFC 2516): a list of type-length-value tags in a 1500-byte payload, written by
    a cursor and read back by parsePacket and findTag. */
module PppoeTags {
  import opened Bytes
  import opened Options
  import opened SessionPool

  const MAX_PAYLOAD := 1494       // MAX_PPPOE_PAYLOAD
  const TAG_HDR := 4

  const END_OF_LIST := 0x0000
  const SERVICE_NAME := 0x0101
  const AC_NAME := 0x0102
  const HOST_UNIQ := 0x0103
  const AC_COOKIE := 0x0104
  const RELAY_SESSION_ID := 0x0110
  const SERVICE_NAME_ERROR := 0x0201
  const AC_SYSTEM_ERROR := 0x0202
  const GENERIC_ERROR := 0x0203

  const PADI := 0x09
  const PADO := 0x07
  const PADR := 0x19
  const PADS := 0x65
  const PADT := 0xa7

  datatype Packet = Packet(dest: Mac, source: Mac, ver: nat, kind: nat, code: nat, session: nat,
                           length: nat, payload: Payload)

  datatype Tag = Tag(kind: nat, data: seq<byte>)

  predicate Encodable(t: Tag) {
    0 < t.kind < 0x1_0000 && |t.data| < 0x1_0000
  }

  function EncodeTag(t: Tag): (s: seq<byte>)
    requires Encodable(t)
    ensures |s| == TAG_HDR + |t.data|
  {
    [Hi(t.kind), Lo(t.kind), Hi(|t.data|), Lo(|t.data|)] + t.data
  }

  predicate AllEncodable(tags: seq<Tag>) {
    forall i :: 0 <= i < |tags| ==> Encodable(tags[i])
  }

  function Encode(tags: seq<Tag>): seq<byte>
    requires AllEncodable(tags)
  {
    if tags == [] then [] else EncodeTag(tags[0]) + Encode(tags[1..])
  }

  lemma {:induction false} EncodeConcat(a: seq<Tag>, b: seq<Tag>)
    requires AllEncodable(a) && AllEncodable(b)
    ensures Encode(a + b) == Encode(a) + Encode(b)
    decreases |a|
  {
    hide EncodeTag;
    if a == [] {
      assert a + b == b;
    } else {
      assert (a + b)[1..] == a[1..] + b;
      EncodeConcat(a[1..], b);
    }
  }

  // ----- reading

  /** A tag as parsePacket hands it to its callback: type, where the data starts, and its length. */
  datatype Slice = Slice(kind: nat, at: nat, len: nat)

  datatype Parsed = Parsed(slices: seq<Slice>, ok: bool)

  function Kind(p: Payload, pos: nat): nat
    requires pos < MAX_PAYLOAD
  {
    U16(p[pos], p[pos + 1])
  }

  function Length(p: Payload, pos: nat): nat
    requires pos < MAX_PAYLOAD
  {
    U16(p[pos + 2], p[pos + 3])
  }

  function ParseFrom(p: Payload, len: nat, pos: nat): Parsed
    requires len <= MAX_PAYLOAD
    decreases len - pos
  {
    if pos >= len || Kind(p, pos) == END_OF_LIST then Parsed([], true)
    else if pos + Length(p, pos) + TAG_HDR > len then Parsed([], false)
    else
      var rest := ParseFrom(p, len, pos + TAG_HDR + Length(p, pos));
      Parsed([Slice(Kind(p, pos), pos + TAG_HDR, Length(p, pos))] + rest.slices, rest.ok)
  }

  predicate Readable(p: Packet) {
    p.ver == 1 && p.kind == 1 && p.length <= MAX_PAYLOAD
  }

  function Parse(p: Packet): Parsed {
    if Readable(p) then ParseFrom(p.payload, p.length, 0) else Parsed([], false)
  }

  /** parsePacket; the callback is applied to the returned slices in order. */
  method ParsePacket(p: Packet) returns (slices: seq<Slice>, ok: bool)
    ensures Parsed(slices, ok) == Parse(p)
  {
    slices := [];
    if p.ver != 1 { return [], false; }
    if p.kind != 1 { return [], false; }
    if p.length > PAYLOAD_SIZE - 6 { return [], false; }
    var cur := 0;
    ghost var all := ParseFrom(p.payload, p.length, 0);
    while cur < p.length
      invariant var rest := ParseFrom(p.payload, p.length, cur);
                slices + rest.slices == all.slices && rest.ok == all.ok
      decreases p.length - cur
    {
      var tagType := U16(p.payload[cur], p.payload[cur + 1]);
      var tagLen := U16(p.payload[cur + 2], p.payload[cur + 3]);
      if tagType == END_OF_LIST { return slices, true; }
      if cur + tagLen + TAG_HDR > p.length { return slices, false; }
      slices := slices + [Slice(tagType, cur + TAG_HDR, tagLen)];
      cur := cur + TAG_HDR + tagLen;
    }
    ok := true;
  }

  function First(slices: seq<Slice>, kind: nat): Option<Slice> {
    if slices == [] then None
    else if slices[0].kind == kind then Some(slices[0])
    else First(slices[1..], kind)
  }

  ghost predicate FirstAt(slices: seq<Slice>, kind: nat, k: int) {
    0 <= k < |slices| && slices[k].kind == kind && forall j :: 0 <= j < k ==> slices[j].kind != kind
  }

  lemma {:induction false} FirstFound(slices: seq<Slice>, kind: nat)
    ensures First(slices, kind).None? <==> forall k :: 0 <= k < |slices| ==> slices[k].kind != kind
    ensures First(slices, kind).Some? ==>
              exists k :: FirstAt(slices, kind, k) && First(slices, kind).value == slices[k]
    decreases |slices|
  {
    if slices != [] {
      var rest := slices[1..];
      FirstFound(rest, kind);
      if slices[0].kind == kind {
        assert FirstAt(slices, kind, 0);
      } else {
        assert forall k :: 0 < k < |slices| ==> slices[k] == rest[k - 1];
        if First(rest, kind).Some? {
          var k :| FirstAt(rest, kind, k) && First(rest, kind).value == rest[k];
          assert FirstAt(slices, kind, k + 1);
        }
      }
    }
  }

  /** findTag */
  method FindTag(p: Packet, kind: nat) returns (r: Option<Slice>)
    ensures r == First(Parse(p).slices, kind)
    ensures r.None? <==> forall k :: 0 <= k < |Parse(p).slices| ==> Parse(p).slices[k].kind != kind
    ensures r.Some? ==> exists k :: FirstAt(Parse(p).slices, kind, k) && r.value == Parse(p).slices[k]
  {
    hide Parse, First, FirstAt;
    FirstFound(Parse(p).slices, kind);
    r := FindFirst(p, kind);
  }

  method FindFirst(p: Packet, kind: nat) returns (r: Option<Slice>)
    ensures r == First(Parse(p).slices, kind)
  {
    if p.ver != 1 || p.kind != 1 || p.length > PAYLOAD_SIZE - 6 { return None; }
    var cur := 0;
    while cur < p.length
      invariant First(ParseFrom(p.payload, p.length, cur).slices, kind) == First(Parse(p).slices, kind)
      decreases p.length - cur
    {
      var tagType := U16(p.payload[cur], p.payload[cur + 1]);
      var tagLen := U16(p.payload[cur + 2], p.payload[cur + 3]);
      if tagType == END_OF_LIST { return None; }
      if cur + tagLen + TAG_HDR > p.length { return None; }
      if tagType == kind { return Some(Slice(tagType, cur + TAG_HDR, tagLen)); }
      cur := cur + TAG_HDR + tagLen;
    }
    return None;
  }

  // ----- what reading guarantees on any bytes

  /** A slice lies after its own header, after the slice before it, and inside the declared length. */
  ghost predicate InOrderAt(slices: seq<Slice>, i: nat, pos: nat, len: nat)
    requires i < |slices|
  {
    && slices[i].kind != END_OF_LIST
    && slices[i].at >= TAG_HDR + (if i == 0 then pos else slices[i - 1].at + slices[i - 1].len)
    && slices[i].at + slices[i].len <= len
  }

  ghost predicate InOrder(slices: seq<Slice>, pos: nat, len: nat) {
    forall i :: 0 <= i < |slices| ==> InOrderAt(slices, i, pos, len)
  }

  function TotalSize(slices: seq<Slice>): nat {
    if slices == [] then 0 else TAG_HDR + slices[0].len + TotalSize(slices[1..])
  }

  lemma {:induction false} SlicesInOrder(p: Payload, len: nat, pos: nat)
    requires len <= MAX_PAYLOAD
    ensures InOrder(ParseFrom(p, len, pos).slices, pos, len)
    ensures pos <= len ==> pos + TotalSize(ParseFrom(p, len, pos).slices) <= len
    decreases len - pos
  {
    var s := ParseFrom(p, len, pos).slices;
    if s != [] {
      var next := pos + TAG_HDR + Length(p, pos);
      SlicesInOrder(p, len, next);
      var rest := ParseFrom(p, len, next).slices;
      assert s[1..] == rest;
      forall i | 0 <= i < |s| ensures InOrderAt(s, i, pos, len) {
        if i > 0 { assert InOrderAt(rest, i - 1, next, len) && s[i] == rest[i - 1]; }
        if i > 1 { assert s[i - 1] == rest[i - 2]; }
      }
    }
  }

  /** parsePacket on arbitrary bytes. */
  lemma {:induction false} ParseIsSafe(p: Packet)
    ensures InOrder(Parse(p).slices, 0, p.length)
    ensures TotalSize(Parse(p).slices) <= p.length
    ensures forall i :: 0 <= i < |Parse(p).slices| ==> Parse(p).slices[i].at + Parse(p).slices[i].len <= MAX_PAYLOAD
  {
    if Readable(p) {
      SlicesInOrder(p.payload, p.length, 0);
      var s := Parse(p).slices;
      forall i | 0 <= i < |s| ensures s[i].at + s[i].len <= MAX_PAYLOAD { assert InOrderAt(s, i, 0, p.length); }
    }
  }

  // ----- round trip

  function SliceTag(p: Payload, s: Slice): Tag
    requires s.at + s.len <= PAYLOAD_SIZE
  {
    Tag(s.kind, p[s.at..s.at + s.len])
  }

  predicate Inside(slices: seq<Slice>) {
    forall i :: 0 <= i < |slices| ==> slices[i].at + slices[i].len <= PAYLOAD_SIZE
  }

  function TagsAt(p: Payload, slices: seq<Slice>): seq<Tag>
    requires Inside(slices)
  {
    if slices == [] then [] else [SliceTag(p, slices[0])] + TagsAt(p, slices[1..])
  }

  lemma {:induction false} SplitPrefix(p: Payload, end: nat, pos: nat, a: seq<byte>, b: seq<byte>)
    requires pos <= end <= MAX_PAYLOAD && p[pos..end] == a + b
    ensures pos + |a| <= end && p[pos..pos + |a|] == a && p[pos + |a|..end] == b
  {
    assert |p[pos..end]| == end - pos;
    assert p[pos..pos + |a|] == p[pos..end][..|a|];
    assert p[pos + |a|..end] == p[pos..end][|a|..];
  }

  lemma {:induction false} HeaderReadsBack(p: Payload, pos: nat, t: Tag)
    requires Encodable(t) && pos + TAG_HDR + |t.data| <= MAX_PAYLOAD
    requires p[pos..pos + TAG_HDR + |t.data|] == EncodeTag(t)
    ensures Kind(p, pos) == t.kind && Length(p, pos) == |t.data|
    ensures p[pos + TAG_HDR..pos + TAG_HDR + |t.data|] == t.data
  {
    var e := EncodeTag(t);
    var n := TAG_HDR + |t.data|;
    var w := p[pos..pos + n];
    assert w[0] == p[pos] && w[1] == p[pos + 1] && w[2] == p[pos + 2] && w[3] == p[pos + 3];
    assert e[0] == p[pos] && e[1] == p[pos + 1] && e[2] == p[pos + 2] && e[3] == p[pos + 3];
    assert p[pos + TAG_HDR..pos + n] == w[TAG_HDR..] == e[TAG_HDR..] == t.data;
  }

  /** Behind `at` bytes of tags the list is over: the declared length is reached, or an end-of-list
      type stands there, or a tag that does not fit. */
  predicate ListEnds(p: Payload, len: nat, at: nat)
    requires at <= len <= MAX_PAYLOAD
  {
    at == len || U16(p[at], p[at + 1]) == 0 || at + 4 + U16(p[at + 2], p[at + 3]) > len
  }

  predicate WellEnded(p: Payload, len: nat, at: nat)
    requires at <= len <= MAX_PAYLOAD
  {
    at == len || U16(p[at], p[at + 1]) == 0
  }

  lemma {:induction false} ParseEncoded(p: Payload, len: nat, pos: nat, at: nat, tags: seq<Tag>)
    requires pos <= at <= len <= MAX_PAYLOAD && AllEncodable(tags) && ListEnds(p, len, at)
    requires p[pos..at] == Encode(tags)
    ensures var r := ParseFrom(p, len, pos);
            (r.ok <==> WellEnded(p, len, at)) && Inside(r.slices) && TagsAt(p, r.slices) == tags
    decreases |tags|
  {
    hide EncodeTag, Kind, Length, ParseFrom, TagsAt, WellEnded, ListEnds;
    if tags == [] {
      assert |p[pos..at]| == 0;
      ParseDone(p, len, at);
    } else {
      var t := tags[0];
      SplitPrefix(p, at, pos, EncodeTag(t), Encode(tags[1..]));
      HeaderReadsBack(p, pos, t);
      var next := pos + TAG_HDR + |t.data|;
      ParseEncoded(p, len, next, at, tags[1..]);
      ParseOne(p, len, pos, t, ParseFrom(p, len, next));
      assert tags == [t] + tags[1..];
    }
  }

  lemma {:induction false} ParseDone(p: Payload, len: nat, at: nat)
    requires at <= len <= MAX_PAYLOAD && ListEnds(p, len, at)
    ensures ParseFrom(p, len, at) == Parsed([], WellEnded(p, len, at)) && TagsAt(p, []) == []
  {
  }

  lemma {:induction false} ParseOne(p: Payload, len: nat, pos: nat, t: Tag, rest: Parsed)
    requires pos + TAG_HDR + |t.data| <= len <= MAX_PAYLOAD && t.kind != END_OF_LIST
    requires Kind(p, pos) == t.kind && Length(p, pos) == |t.data|
    requires SliceTag(p, Slice(t.kind, pos + TAG_HDR, |t.data|)) == t
    requires ParseFrom(p, len, pos + TAG_HDR + |t.data|) == rest && Inside(rest.slices)
    ensures var r := ParseFrom(p, len, pos);
            r.ok == rest.ok && Inside(r.slices) && TagsAt(p, r.slices) == [t] + TagsAt(p, rest.slices)
  {
    hide Kind, Length, SliceTag;
    var s := Slice(t.kind, pos + TAG_HDR, |t.data|);
    assert ParseFrom(p, len, pos).slices == [s] + rest.slices;
    assert ([s] + rest.slices)[1..] == rest.slices && ([s] + rest.slices)[0] == s;
  }

  /** What is reported of any packet: nothing unless version and type are 1 and the length is at most
      1494; otherwise the tags up to where the list is over, with success unless a tag does not fit. */
  lemma {:induction false} ParseExactly(p: Packet, tags: seq<Tag>, at: nat)
    requires AllEncodable(tags)
    requires at <= p.length <= 1494 ==> ListEnds(p.payload, p.length, at)
    ensures p.ver != 1 || p.kind != 1 || p.length > 1494 ==> Parse(p) == Parsed([], false)
    ensures p.ver == 1 && p.kind == 1 && at <= p.length <= 1494 && p.payload[..at] == Encode(tags) ==>
              && (Parse(p).ok <==> WellEnded(p.payload, p.length, at))
              && Inside(Parse(p).slices) && TagsAt(p.payload, Parse(p).slices) == tags
  {
    hide Encode, ParseFrom, WellEnded, ListEnds;
    if p.ver == 1 && p.kind == 1 && at <= p.length <= 1494 && p.payload[..at] == Encode(tags) {
      assert p.payload[0..at] == p.payload[..at];
      ParseEncoded(p.payload, p.length, 0, at, tags);
    }
  }

  /** And every payload can be taken apart like that. */
  lemma {:induction false} ListSplits(p: Payload, len: nat, pos: nat) returns (tags: seq<Tag>, at: nat)
    requires pos <= len <= MAX_PAYLOAD
    ensures AllEncodable(tags) && pos <= at <= len && ListEnds(p, len, at) && p[pos..at] == Encode(tags)
    decreases len - pos
  {
    hide ListEnds, U16, EncodeTag;
    if ListEnds(p, len, pos) {
      tags, at := [], pos;
    } else {
      ListGoesOn(p, len, pos);
      var n := U16(p[pos + 2], p[pos + 3]);
      var next := pos + TAG_HDR + n;
      var t := Tag(U16(p[pos], p[pos + 1]), p[pos + TAG_HDR..next]);
      var more;
      more, at := ListSplits(p, len, next);
      tags := [t] + more;
      HeaderBytes(p, pos, t);
      assert tags[1..] == more;
      assert p[pos..at] == p[pos..next] + p[next..at];
    }
  }

  lemma {:induction false} ListGoesOn(p: Payload, len: nat, pos: nat)
    requires pos <= len <= MAX_PAYLOAD && !ListEnds(p, len, pos)
    ensures pos < len && U16(p[pos], p[pos + 1]) > 0 && pos + TAG_HDR + U16(p[pos + 2], p[pos + 3]) <= len
  {
  }

  lemma {:induction false} HeaderBytes(p: Payload, pos: nat, t: Tag)
    requires Encodable(t) && pos + TAG_HDR + |t.data| <= MAX_PAYLOAD
    requires U16(p[pos], p[pos + 1]) == t.kind && U16(p[pos + 2], p[pos + 3]) == |t.data|
    requires p[pos + TAG_HDR..pos + TAG_HDR + |t.data|] == t.data
    ensures p[pos..pos + TAG_HDR + |t.data|] == EncodeTag(t)
  {
    hide U16, Hi, Lo;
    var n := TAG_HDR + |t.data|;
    Digits(p[pos], p[pos + 1]);
    Digits(p[pos + 2], p[pos + 3]);
    assert p[pos..pos + n] == p[pos..pos + TAG_HDR] + p[pos + TAG_HDR..pos + n];
    assert p[pos..pos + TAG_HDR] == [p[pos], p[pos + 1], p[pos + 2], p[pos + 3]];
  }

  lemma {:induction false} Digits(hi: byte, lo: byte)
    ensures Hi(U16(hi, lo)) == hi && Lo(U16(hi, lo)) == lo
  {
  }

  /** Reading back what was written: every tag, in order, whatever follows it in the buffer. */
  lemma {:induction false} TagRoundTrip(p: Packet, tags: seq<Tag>)
    requires AllEncodable(tags) && Readable(p) && p.payload[..p.length] == Encode(tags)
    ensures Parse(p).ok && Inside(Parse(p).slices) && TagsAt(p.payload, Parse(p).slices) == tags
  {
    ParseExactly(p, tags, p.length);
  }

  function FirstTag(tags: seq<Tag>, kind: nat): Option<Tag> {
    if tags == [] then None
    else if tags[0].kind == kind then Some(tags[0])
    else FirstTag(tags[1..], kind)
  }

  /** The slice findTag returns is the first tag of that type. */
  lemma {:induction false} FirstIsFirstTag(p: Payload, slices: seq<Slice>, kind: nat)
    requires Inside(slices)
    ensures First(slices, kind).None? <==> FirstTag(TagsAt(p, slices), kind).None?
    ensures First(slices, kind).Some? ==>
              && First(slices, kind).value.at + First(slices, kind).value.len <= PAYLOAD_SIZE
              && FirstTag(TagsAt(p, slices), kind) == Some(SliceTag(p, First(slices, kind).value))
    decreases |slices|
  {
    if slices != [] {
      FirstIsFirstTag(p, slices[1..], kind);
      assert TagsAt(p, slices)[1..] == TagsAt(p, slices[1..]);
    }
  }

  // ----- writing

  /** A packet under construction: bytes are copied at the cursor. */
  class Writer {
    const payload: array<byte>
    var cursor: nat

    ghost predicate Valid()
      reads this
    {
      payload.Length == PAYLOAD_SIZE && cursor <= PAYLOAD_SIZE
    }

    constructor ()
      ensures Valid() && cursor == 0 && fresh(payload)
    {
      payload := new byte[PAYLOAD_SIZE];
      cursor := 0;
    }

    /** CHECK_ROOM */
    predicate HasRoom(len: nat)
      reads this
    {
      cursor + len <= MAX_PAYLOAD
    }

    /** memcpy of a tag to the cursor. */
    method Append(t: Tag)
      requires Valid() && Encodable(t) && cursor + TAG_HDR + |t.data| <= PAYLOAD_SIZE
      modifies this`cursor, payload
      ensures Valid() && cursor == old(cursor) + TAG_HDR + |t.data|
      ensures payload[..cursor] == old(payload[..cursor]) + EncodeTag(t)
    {
      var e := EncodeTag(t);
      forall i | 0 <= i < |e| { payload[cursor + i] := e[i]; }
      assert payload[cursor..cursor + |e|] == e;
      assert payload[..cursor + |e|] == payload[..cursor] + payload[cursor..cursor + |e|];
      cursor := cursor + |e|;
    }
  }
}
