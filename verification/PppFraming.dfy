/** Byte-stuffed PPP framing (section 4.2 of RFC 1662): the encoder that asyncReadFromEth runs
    towards pppd and the resumable decoder that asyncReadFromPPP runs on what pppd writes. */
module PppFraming {
  import opened Chunks
  import opened PppFcs

  const ESC: bv8 := 0x7d
  const FLAG: bv8 := 0x7e
  const ADDR: bv8 := 0xff
  const CTRL: bv8 := 0x03
  const ENC: bv8 := 0x20

  const ETH_DATA_LEN := 1500
  const READ_CHUNK := 4096
  const PPP_BUF := 4096
  const MAX_CONTENT := ETH_DATA_LEN - 4   // payload plus the two FCS bytes
  const MAX_DELIVERED := MAX_CONTENT - 2

  // ----- specification: one byte at a time

  datatype Mode = WaitAddr | DropProto | Building

  /** Decoder state, the packets handed to sendSessionPacket so far, and whether the program
      has stopped through rp_fatal. */
  datatype Decoder = Decoder(mode: Mode, acc: seq<bv8>, xor: bv8, sent: seq<seq<bv8>>, dead: bool) {
    ghost predicate Bounded() {
      |acc| <= MAX_CONTENT && forall p :: p in sent ==> |p| <= MAX_DELIVERED
    }
  }

  function Idle(sent: seq<seq<bv8>>): Decoder {
    Decoder(WaitAddr, [], 0, sent, false)
  }

  function Step(d: Decoder, c: bv8): Decoder {
    if d.dead then d
    else match d.mode
      case WaitAddr => if c == ADDR then d.(mode := DropProto) else d
      case DropProto => if c == CTRL ^ ENC then d.(mode := Building) else d
      case Building =>
        if c == ESC then d.(xor := ENC)
        else if c == FLAG then
          if |d.acc| < 2 then d.(dead := true)
          else Idle(d.sent + [d.acc[..|d.acc| - 2]])
        else if |d.acc| >= MAX_CONTENT then Idle(d.sent)
        else d.(acc := d.acc + [c ^ d.xor], xor := 0)
  }

  function Feed(d: Decoder, bytes: seq<bv8>): Decoder
    decreases |bytes|
  {
    if bytes == [] then d else Feed(Step(d, bytes[0]), bytes[1..])
  }

  lemma {:induction false} FeedConcat(d: Decoder, a: seq<bv8>, b: seq<bv8>)
    ensures Feed(d, a + b) == Feed(Feed(d, a), b)
    decreases |a|
  {
    hide Step;
    if a == [] {
      assert a + b == b;
    } else {
      assert (a + b)[1..] == a[1..] + b;
      FeedConcat(Step(d, a[0]), a[1..], b);
    }
  }

  lemma {:induction false} FeedSnoc(d: Decoder, a: seq<bv8>, c: bv8)
    ensures Feed(d, a + [c]) == Step(Feed(d, a), c)
  {
    hide Step;
    FeedConcat(d, a, [c]);
    assert [c][1..] == [];
  }

  lemma {:induction false} StepBounded(d: Decoder, c: bv8)
    requires d.Bounded()
    ensures Step(d, c).Bounded()
  {
  }

  /** In every reachable state the packet size is at most 1496 and every packet delivered is at
      most 1494 bytes, whatever the input. */
  lemma {:induction false} FeedBounded(d: Decoder, bytes: seq<bv8>)
    requires d.Bounded()
    ensures Feed(d, bytes).Bounded()
    decreases |bytes|
  {
    if bytes != [] {
      StepBounded(d, bytes[0]);
      FeedBounded(Step(d, bytes[0]), bytes[1..]);
    }
  }

  // ----- the decoder as the program runs it

  class AsyncDecoder {
    var mode: Mode
    var packetSize: nat
    var xorValue: bv8
    const payload: array<bv8>
    var sent: seq<seq<bv8>>
    var dead: bool

    ghost predicate Valid()
      reads this, payload
    {
      && payload.Length == ETH_DATA_LEN
      && packetSize <= MAX_CONTENT
    }

    method State() returns (d: Decoder)
      requires Valid()
      ensures d == View()
    {
      d := Decoder(mode, payload[..packetSize], xorValue, sent, dead);
    }

    ghost function View(): Decoder
      reads this, payload
      requires Valid()
    {
      Decoder(mode, payload[..packetSize], xorValue, sent, dead)
    }

    /** initPPP */
    constructor ()
      ensures Valid() && fresh(payload)
      ensures View() == Idle([])
    {
      mode, packetSize, xorValue := WaitAddr, 0, 0;
      payload := new bv8[ETH_DATA_LEN];
      sent, dead := [], false;
    }

    /** The body of the innermost loop of asyncReadFromPPP, for one byte of a frame. */
    method BuildByte(c: bv8)
      requires Valid() && !dead && mode == Building
      modifies this, payload
      ensures Valid() && View() == Step(old(View()), c)
    {
      if c == ESC {
        xorValue := ENC;
      } else if c == FLAG {
        if packetSize < 2 {
          dead := true;
          return;
        }
        assert payload[..packetSize][..packetSize - 2] == payload[..packetSize - 2];
        sent := sent + [payload[..packetSize - 2]];
        packetSize, xorValue, mode := 0, 0, WaitAddr;
      } else if packetSize >= ETH_DATA_LEN - 4 {
        packetSize, xorValue, mode := 0, 0, WaitAddr;
      } else {
        ghost var acc := payload[..packetSize];
        payload[packetSize] := c ^ xorValue;
        packetSize := packetSize + 1;
        xorValue := 0;
        assert payload[..packetSize] == acc + [payload[packetSize - 1]];
      }
    }

    /** asyncReadFromPPP on one non-empty read: the three nested scans reach the state, and
        deliver the packets, of the one-byte-at-a-time automaton. */
    method AsyncRead(buf: seq<bv8>)
      requires Valid() && !dead
      requires 0 < |buf| <= READ_CHUNK
      modifies this, payload
      ensures Valid() && View() == Feed(old(View()), buf)
    {
      hide Step;
      ghost var start := View();
      var ptr := 0;
      while ptr < |buf| && !dead
        invariant Valid() && ptr <= |buf|
        invariant View() == Feed(start, buf[..ptr])
      {
        ghost var before := ptr;
        if mode == WaitAddr {
          ptr := ScanForAddress(buf, ptr, start);
        }
        if mode == WaitAddr { break; }
        while ptr < |buf| && mode == DropProto
          invariant Valid() && before <= ptr <= |buf| && !dead
          invariant before < ptr || mode != WaitAddr
          invariant mode != WaitAddr
          invariant View() == Feed(start, buf[..ptr])
        {
          Advance(start, buf, ptr);
          DropStep(View(), buf[ptr]);
          if buf[ptr] == CTRL ^ ENC { mode := Building; }
          ptr := ptr + 1;
        }
        if mode == DropProto { break; }
        while ptr < |buf| && mode == Building && !dead
          invariant Valid() && before <= ptr <= |buf|
          invariant before < ptr || mode == Building
          invariant View() == Feed(start, buf[..ptr])
        {
          Advance(start, buf, ptr);
          BuildByte(buf[ptr]);
          ptr := ptr + 1;
        }
      }
      if dead {
        DeadFeed(View(), buf[ptr..]);
        FeedConcat(start, buf[..ptr], buf[ptr..]);
        assert buf[..ptr] + buf[ptr..] == buf;
      } else {
        assert buf[..ptr] == buf;
      }
    }

    /** The first inner loop: skip to the frame address. */
    method ScanForAddress(buf: seq<bv8>, from: nat, ghost start: Decoder) returns (ptr: nat)
      requires Valid() && !dead && mode == WaitAddr && from < |buf|
      requires View() == Feed(start, buf[..from])
      modifies this`mode
      ensures Valid() && from < ptr <= |buf|
      ensures mode == WaitAddr ==> ptr == |buf|
      ensures mode != Building
      ensures View() == Feed(start, buf[..ptr])
    {
      hide Step;
      ptr := from;
      while ptr < |buf|
        invariant from <= ptr <= |buf| && mode == WaitAddr
        invariant Valid() && View() == Feed(start, buf[..ptr])
      {
        Advance(start, buf, ptr);
        WaitStep(View(), buf[ptr]);
        ptr := ptr + 1;
        if buf[ptr - 1] == ADDR {
          mode := DropProto;
          break;
        }
      }
    }
  }

  lemma {:induction false} Advance(start: Decoder, buf: seq<bv8>, ptr: nat)
    requires ptr < |buf|
    ensures Feed(start, buf[..ptr + 1]) == Step(Feed(start, buf[..ptr]), buf[ptr])
  {
    hide Step;
    assert buf[..ptr + 1] == buf[..ptr] + [buf[ptr]];
    FeedSnoc(start, buf[..ptr], buf[ptr]);
  }

  lemma {:induction false} WaitStep(d: Decoder, c: bv8)
    requires !d.dead && d.mode == WaitAddr
    ensures Step(d, c) == if c == ADDR then d.(mode := DropProto) else d
  {}

  lemma {:induction false} DropStep(d: Decoder, c: bv8)
    requires !d.dead && d.mode == DropProto
    ensures Step(d, c) == if c == CTRL ^ ENC then d.(mode := Building) else d
  {}

  lemma {:induction false} DeadFeed(d: Decoder, bytes: seq<bv8>)
    requires d.dead
    ensures Feed(d, bytes) == d
    decreases |bytes|
  {
    if bytes != [] { DeadFeed(d, bytes[1..]); }
  }

  // ----- the encoder

  predicate MustEscape(c: bv8) {
    c == FLAG || c == ADDR || c == ESC || c < 0x20
  }

  function StuffByte(c: bv8): (s: seq<bv8>)
    ensures 1 <= |s| <= 2 && ADDR !in s && FLAG !in s
  {
    EscapedIsPlain(c);
    if MustEscape(c) then [ESC, c ^ ENC] else [c]
  }

  lemma {:induction false} EscapedIsPlain(c: bv8)
    ensures MustEscape(c) ==> c ^ ENC !in {ADDR, FLAG, ESC}
    ensures (c ^ ENC) ^ ENC == c && c ^ 0 == c
  {}

  function Stuff(data: seq<bv8>): (s: seq<bv8>)
    ensures |s| <= 2 * |data| && ADDR !in s && FLAG !in s
  {
    if data == [] then [] else StuffByte(data[0]) + Stuff(data[1..])
  }

  lemma {:induction false} StuffConcat(a: seq<bv8>, b: seq<bv8>)
    ensures Stuff(a + b) == Stuff(a) + Stuff(b)
    decreases |a|
  {
    hide StuffByte;
    if a == [] {
      assert a + b == b;
    } else {
      assert (a + b)[1..] == a[1..] + b;
      StuffConcat(a[1..], b);
    }
  }

  function PayloadFcs(payload: seq<bv8>): bv16 {
    Crc(Crc(INIT_FCS, [ADDR, CTRL]), payload)
  }

  function Frame(payload: seq<bv8>): (f: seq<bv8>)
    ensures |f| <= 2 * |payload| + 9
  {
    [FLAG, ADDR, ESC, CTRL ^ ENC] + Stuff(payload + Tail(PayloadFcs(payload))) + [FLAG]
  }

  // ----- what stands on the wire, for a receiver that knows only RFC 1662

  /** Undo the escapes. */
  function Unescape(s: seq<bv8>): seq<bv8>
    decreases |s|
  {
    if s == [] then []
    else if s[0] == 0x7d && |s| > 1 then [s[1] ^ 0x20] + Unescape(s[2..])
    else [s[0]] + Unescape(s[1..])
  }

  /** The byte values a sender must not put on the wire as they are. */
  predicate Reserved(c: bv8) { c < 0x20 || c in {0x7d, 0x7e, 0xff} }

  /** No reserved byte except as an escape, and no escape that was not needed. */
  ghost predicate Transparent(s: seq<bv8>) {
    forall i :: 0 <= i < |s| ==>
      (s[i] == 0x7d && i + 1 < |s| && Reserved(s[i + 1] ^ 0x20)) || (s[i] != 0x7d && !Reserved(s[i]))
  }

  /** Flag, address, and then without reserved bytes: control, payload and a frame check sequence with
      which everything between the flags leaves the good residue; flag. */
  ghost predicate OnTheWire(out: seq<bv8>, payload: seq<bv8>) {
    && |out| >= 3 && out[0] == out[|out| - 1] == 0x7e && out[1] == 0xff && Transparent(out[2..|out| - 1])
    && var data := Unescape(out[1..|out| - 1]);
       && |data| == |payload| + 4 && data[..|payload| + 2] == [0xff, 0x03] + payload
       && Crc(0xffff, data) == 0xf0b8
  }

  lemma {:induction false} StuffedByte(c: bv8, rest: seq<bv8>)
    requires Transparent(rest)
    ensures Unescape(StuffByte(c) + rest) == [c] + Unescape(rest)
    ensures Transparent(StuffByte(c) + rest)
  {
    EscapedIsPlain(c);
    var w := StuffByte(c) + rest;
    if MustEscape(c) {
      assert w[0] == ESC && w[1] == c ^ ENC && w[2..] == rest;
      assert forall i :: 2 <= i < |w| ==> w[i] == rest[i - 2];
      EscapedIsOpen(c);
    } else {
      assert w[0] == c && w[1..] == rest;
      assert forall i :: 1 <= i < |w| ==> w[i] == rest[i - 1];
    }
  }

  lemma {:induction false} EscapedIsOpen(c: bv8)
    requires MustEscape(c)
    ensures !Reserved(c ^ ENC) && Reserved(c)
  {
  }

  lemma {:induction false} StuffedIsTransparent(data: seq<bv8>)
    ensures Transparent(Stuff(data)) && Unescape(Stuff(data)) == data
    decreases |data|
  {
    hide StuffByte, Transparent, Unescape;
    if data == [] {
      NothingOnTheWire();
    } else {
      StuffedIsTransparent(data[1..]);
      StuffedByte(data[0], Stuff(data[1..]));
    }
  }

  lemma {:induction false} NothingOnTheWire()
    ensures Transparent([]) && Unescape([]) == []
  {
  }

  /** Every frame is what RFC 1662 asks for. */
  lemma {:induction false} FrameOnTheWire(payload: seq<bv8>)
    ensures OnTheWire(Frame(payload), payload)
  {
    hide Stuff, StuffByte, LowByte, Crc, Transparent, Unescape;
    var out, tail := Frame(payload), Tail(PayloadFcs(payload));
    var content := payload + tail;
    var data := [ADDR, CTRL] + content;
    var inner := [ESC, CTRL ^ ENC] + Stuff(content);
    assert out == [FLAG, ADDR] + inner + [FLAG];
    assert out[1..|out| - 1] == [ADDR] + inner && out[2..|out| - 1] == inner;
    StuffedIsTransparent(content);
    StuffedControl(Stuff(content));
    UnescapeAddress(inner);
    assert Unescape(out[1..|out| - 1]) == data;
    assert data[..|payload| + 2] == [ADDR, CTRL] + payload;
    CrcConcat(INIT_FCS, [ADDR, CTRL], payload);
    GoodResidue(INIT_FCS, [ADDR, CTRL] + payload);
    assert [ADDR, CTRL] + payload + tail == data;
  }

  lemma {:induction false} StuffedControl(rest: seq<bv8>)
    requires Transparent(rest)
    ensures Unescape([ESC, CTRL ^ ENC] + rest) == [CTRL] + Unescape(rest)
    ensures Transparent([ESC, CTRL ^ ENC] + rest)
  {
    StuffedByte(CTRL, rest);
    assert StuffByte(CTRL) == [ESC, CTRL ^ ENC];
  }

  lemma {:induction false} UnescapeAddress(s: seq<bv8>)
    ensures Unescape([ADDR] + s) == [ADDR] + Unescape(s)
  {
    assert ([ADDR] + s)[1..] == s;
  }

  /** One turn of that loop: a plain byte, or the escape and the flipped byte. */
  method EmitByte(buf: array<bv8>, at: nat, c: bv8) returns (ptr: nat)
    requires at + 2 <= buf.Length
    modifies buf
    ensures at <= ptr <= at + 2
    ensures buf[..ptr] == old(buf[..at]) + StuffByte(c)
  {
    ptr := at;
    if c == FLAG || c == ADDR || c == ESC || c < 0x20 {
      buf[ptr] := ESC;
      ptr := ptr + 1;
      buf[ptr] := c ^ ENC;
    } else {
      buf[ptr] := c;
    }
    ptr := ptr + 1;
    assert buf[at..ptr] == StuffByte(c);
    assert buf[..ptr] == buf[..at] + buf[at..ptr];
  }

  /** The loop that copies bytes through ptr, escaping where needed. */
  method EmitStuffed(buf: array<bv8>, at: nat, data: seq<bv8>) returns (ptr: nat)
    requires at + 2 * |data| <= buf.Length
    modifies buf
    ensures at <= ptr <= at + 2 * |data|
    ensures buf[..ptr] == old(buf[..at]) + Stuff(data)
  {
    hide StuffByte;
    ptr := at;
    for i := 0 to |data|
      invariant at <= ptr <= at + 2 * i
      invariant buf[..ptr] == old(buf[..at]) + Stuff(data[..i])
    {
      ptr := EmitByte(buf, ptr, data[i]);
      assert data[..i + 1] == data[..i] + [data[i]];
      StuffConcat(data[..i], [data[i]]);
      assert [data[i]][1..] == [];
    }
    assert data[..|data|] == data;
  }

  /** The framing part of asyncReadFromEth: the frame fits its 4096-byte buffer. */
  method BuildFrame(payload: seq<bv8>) returns (out: seq<bv8>)
    requires |payload| <= ETH_DATA_LEN
    ensures out == Frame(payload) && OnTheWire(out, payload)
    ensures |out| <= 2 * |payload| + 9 <= PPP_BUF
  {
    hide Stuff, StuffByte, LowByte, OnTheWire;
    FrameOnTheWire(payload);
    var fcs := PppFcs16(INIT_FCS, [ADDR, CTRL]);
    fcs := PppFcs16(fcs, payload);
    var tail := Tail(fcs);
    var buf := new bv8[PPP_BUF];
    buf[0], buf[1], buf[2], buf[3] := FLAG, ADDR, ESC, CTRL ^ ENC;
    assert buf[..4] == [FLAG, ADDR, ESC, CTRL ^ ENC];
    var ptr := EmitStuffed(buf, 4, payload);
    ptr := EmitStuffed(buf, ptr, tail);
    buf[ptr] := FLAG;
    StuffConcat(payload, tail);
    out := buf[..ptr + 1];
    assert out == buf[..ptr] + [FLAG];
  }

  // ----- round trip

  function At(acc: seq<bv8>, sent: seq<seq<bv8>>): Decoder {
    Decoder(Building, acc, 0, sent, false)
  }

  /** What a partly read frame turns into when `more` content bytes arrive. */
  function After(acc: seq<bv8>, more: seq<bv8>, sent: seq<seq<bv8>>): Decoder {
    if |acc| + |more| <= MAX_CONTENT then At(acc + more, sent) else Idle(sent)
  }

  lemma {:induction false} DecodeByte(acc: seq<bv8>, c: bv8, sent: seq<seq<bv8>>)
    requires |acc| <= MAX_CONTENT
    ensures Feed(At(acc, sent), StuffByte(c)) == After(acc, [c], sent)
  {
    EscapedIsPlain(c);
    var d := At(acc, sent);
    if MustEscape(c) {
      var s := [ESC, c ^ ENC];
      assert s[1..] == [c ^ ENC] && [c ^ ENC][1..] == [];
      assert Feed(d, s) == Feed(Step(d, ESC), [c ^ ENC]) == Step(Step(d, ESC), c ^ ENC);
    } else {
      assert [c][1..] == [];
      assert Feed(d, [c]) == Step(d, c);
    }
  }

  lemma {:induction false} IdleSkips(sent: seq<seq<bv8>>, s: seq<bv8>)
    requires ADDR !in s
    ensures Feed(Idle(sent), s) == Idle(sent)
    decreases |s|
  {
    if s != [] { IdleSkips(sent, s[1..]); }
  }

  lemma {:induction false} DecodeContent(acc: seq<bv8>, data: seq<bv8>, sent: seq<seq<bv8>>)
    requires |acc| <= MAX_CONTENT
    ensures Feed(At(acc, sent), Stuff(data)) == After(acc, data, sent)
    decreases |data|
  {
    hide Step, StuffByte;
    if data == [] {
      assert acc + data == acc;
    } else {
      DecodeByte(acc, data[0], sent);
      FeedConcat(At(acc, sent), StuffByte(data[0]), Stuff(data[1..]));
      if |acc| < MAX_CONTENT {
        DecodeContent(acc + [data[0]], data[1..], sent);
        assert acc + data == acc + [data[0]] + data[1..];
      } else {
        IdleSkips(sent, Stuff(data[1..]));
      }
    }
  }

  // ----- frames of any other sender

  /** A content byte as some sender may write it: as it is, or behind one or more escapes. */
  datatype Unit = Plain(c: bv8) | Escaped(more: nat, c: bv8)

  function Escapes(n: nat): seq<bv8> { seq(n, _ => 0x7d) }

  function Written(u: Unit): seq<bv8> {
    match u
    case Plain(c) => [c]
    case Escaped(more, c) => Escapes(more) + [0x7d, c ^ 0x20]
  }

  /** What follows the escapes, if any, is itself neither escape nor flag. */
  predicate Sendable(u: Unit) {
    match u case Plain(c) => c !in {0x7d, 0x7e} case Escaped(_, c) => c ^ 0x20 !in {0x7d, 0x7e}
  }

  ghost predicate AllSendable(us: seq<Unit>) { forall i :: 0 <= i < |us| ==> Sendable(us[i]) }

  function WrittenAll(us: seq<Unit>): seq<bv8> {
    if us == [] then [] else Written(us[0]) + WrittenAll(us[1..])
  }

  function Content(us: seq<Unit>): (data: seq<bv8>)
    ensures |data| == |us|
  {
    seq(|us|, i requires 0 <= i < |us| => us[i].c)
  }

  lemma {:induction false} EscapesRead(acc: seq<bv8>, sent: seq<seq<bv8>>, n: nat, xor: bv8)
    requires n > 0
    ensures Feed(At(acc, sent).(xor := xor), Escapes(n)) == At(acc, sent).(xor := 0x20)
    decreases n
  {
    assert Escapes(n)[1..] == Escapes(n - 1);
    if n > 1 {
      EscapesRead(acc, sent, n - 1, 0x20);
    } else {
      assert Escapes(0) == [];
    }
  }

  lemma {:induction false} DataByte(acc: seq<bv8>, sent: seq<seq<bv8>>, xor: bv8, c: bv8)
    requires |acc| <= MAX_CONTENT && c !in {0x7d, 0x7e}
    ensures Step(At(acc, sent).(xor := xor), c) == After(acc, [c ^ xor], sent)
  {
  }

  lemma {:induction false} UnitRead(acc: seq<bv8>, u: Unit, sent: seq<seq<bv8>>)
    requires |acc| <= MAX_CONTENT && Sendable(u)
    ensures Feed(At(acc, sent), Written(u)) == After(acc, [u.c], sent)
  {
    hide Step, After;
    EscapedIsPlain(u.c);
    var d := At(acc, sent);
    match u
    case Plain(c) =>
      assert [c][1..] == [];
      assert d == At(acc, sent).(xor := 0);
      DataByte(acc, sent, 0, c);
    case Escaped(more, c) =>
      hide Feed;
      var e := Escapes(more + 1);
      assert Written(u) == e + [c ^ ENC];
      assert d == At(acc, sent).(xor := 0);
      EscapesRead(acc, sent, more + 1, 0);
      FeedSnoc(d, e, c ^ ENC);
      DataByte(acc, sent, ENC, c ^ ENC);
  }

  lemma {:induction false} UnitsRead(acc: seq<bv8>, us: seq<Unit>, sent: seq<seq<bv8>>)
    requires |acc| + |us| <= MAX_CONTENT + 1 && |acc| <= MAX_CONTENT && AllSendable(us)
    ensures Feed(At(acc, sent), WrittenAll(us)) == After(acc, Content(us), sent)
    decreases |us|
  {
    hide Step, Written, Sendable;
    if us == [] {
      assert acc + Content(us) == acc;
    } else {
      UnitRead(acc, us[0], sent);
      FeedConcat(At(acc, sent), Written(us[0]), WrittenAll(us[1..]));
      if |acc| < MAX_CONTENT {
        UnitsRead(acc + [us[0].c], us[1..], sent);
        assert acc + Content(us) == acc + [us[0].c] + Content(us[1..]);
      } else {
        assert us[1..] == [];
      }
    }
  }

  lemma {:induction false} HeaderRead(sent: seq<seq<bv8>>, junk: seq<bv8>, skipped: seq<bv8>)
    requires 0xff !in junk && 0x23 !in skipped
    ensures Feed(Idle(sent), junk + [0xff] + skipped + [0x23]) == At([], sent)
  {
    IdleSkips(sent, junk);
    FeedSnoc(Idle(sent), junk, ADDR);
    var d := Idle(sent).(mode := DropProto);
    FeedConcat(Idle(sent), junk + [ADDR], skipped);
    ProtoSkips(d, skipped);
    FeedSnoc(Idle(sent), junk + [ADDR] + skipped, CTRL ^ ENC);
  }

  lemma {:induction false} ProtoSkips(d: Decoder, s: seq<bv8>)
    requires !d.dead && d.mode == DropProto && 0x23 !in s
    ensures Feed(d, s) == d
    decreases |s|
  {
    if s != [] { ProtoSkips(d, s[1..]); }
  }

  /** A frame of any sender, escaping what it likes, with any bytes before its address and its control
      byte: the program ends when it holds fewer than two bytes, delivers all but the last two when it
      holds at most 1496, and otherwise is idle again behind the 1497th. */
  lemma {:induction false} AnyFrameRead(sent: seq<seq<bv8>>, junk: seq<bv8>, skipped: seq<bv8>, us: seq<Unit>)
    requires 0xff !in junk && 0x23 !in skipped && AllSendable(us)
    ensures var head, data := junk + [0xff] + skipped + [0x23], Content(us);
            && (|us| < 2 ==> Feed(Idle(sent), head + WrittenAll(us) + [0x7e]).dead
                             && Feed(Idle(sent), head + WrittenAll(us) + [0x7e]).sent == sent)
            && (2 <= |us| <= 1496 ==>
                  Feed(Idle(sent), head + WrittenAll(us) + [0x7e]) == Idle(sent + [data[..|us| - 2]]))
            && (|us| == 1497 ==> Feed(Idle(sent), head + WrittenAll(us)) == Idle(sent))
  {
    hide Feed, WrittenAll, AllSendable;
    var head := junk + [0xff] + skipped + [0x23];
    HeaderRead(sent, junk, skipped);
    if |us| <= 1497 {
      FeedConcat(Idle(sent), head, WrittenAll(us));
      UnitsRead([], us, sent);
      assert [] + Content(us) == Content(us);
      FeedSnoc(Idle(sent), head + WrittenAll(us), FLAG);
    }
  }

  function Accepted(payload: seq<bv8>): seq<seq<bv8>> {
    if |payload| <= MAX_DELIVERED then [payload] else []
  }

  lemma {:induction false} Preamble(sent: seq<seq<bv8>>)
    ensures Feed(Idle(sent), [FLAG, ADDR, ESC, CTRL ^ ENC]) == At([], sent)
  {
    var d0, d1, d2 := Idle(sent), Idle(sent).(mode := DropProto), At([], sent);
    assert Step(d0, FLAG) == d0 && Step(d0, ADDR) == d1 && Step(d1, ESC) == d1 && Step(d1, CTRL ^ ENC) == d2;
    var s := [FLAG, ADDR, ESC, CTRL ^ ENC];
    assert s[1..] == [ADDR, ESC, CTRL ^ ENC] && s[1..][1..] == [ESC, CTRL ^ ENC];
    assert s[1..][1..][1..] == [CTRL ^ ENC] && s[1..][1..][1..][1..] == [];
    assert Feed(d0, s) == Feed(d0, s[1..]) == Feed(d1, s[1..][1..]) == Feed(d1, s[1..][1..][1..]) == Feed(d2, []);
  }

  /** One frame from an idle decoder: delivered when the payload is at most 1494 bytes, and
      otherwise dropped without disturbing what follows. */
  lemma {:induction false} DecodeFrame(sent: seq<seq<bv8>>, payload: seq<bv8>)
    ensures Feed(Idle(sent), Frame(payload)) == Idle(sent + Accepted(payload))
  {
    hide Stuff, StuffByte, LowByte, Crc;
    var head := [FLAG, ADDR, ESC, CTRL ^ ENC];
    var tail := Tail(PayloadFcs(payload));
    var content := payload + tail;
    Preamble(sent);
    DecodeContent([], content, sent);
    assert [] + content == content;
    FeedConcat(Idle(sent), head, Stuff(content));
    FeedSnoc(Idle(sent), head + Stuff(content), FLAG);
    assert content[..|content| - 2] == payload;
  }

  function Frames(payloads: seq<seq<bv8>>): seq<bv8> {
    if payloads == [] then [] else Frame(payloads[0]) + Frames(payloads[1..])
  }

  function Deliverable(payloads: seq<seq<bv8>>): seq<seq<bv8>> {
    if payloads == [] then [] else Accepted(payloads[0]) + Deliverable(payloads[1..])
  }

  /** Framing round trip: decoding any concatenation of frames delivers, in order, exactly the
      payloads of at most 1494 bytes. */
  lemma {:induction false} FramesRoundTrip(sent: seq<seq<bv8>>, payloads: seq<seq<bv8>>)
    ensures Feed(Idle(sent), Frames(payloads)) == Idle(sent + Deliverable(payloads))
    decreases |payloads|
  {
    hide Frame, Accepted, Step;
    if payloads == [] {
      assert sent + Deliverable(payloads) == sent;
    } else {
      var p := payloads[0];
      DecodeFrame(sent, p);
      FeedConcat(Idle(sent), Frame(p), Frames(payloads[1..]));
      FramesRoundTrip(sent + Accepted(p), payloads[1..]);
      assert sent + Accepted(p) + Deliverable(payloads[1..]) == sent + Deliverable(payloads);
    }
  }

  lemma {:induction false} AllDeliverable(payloads: seq<seq<bv8>>)
    requires forall p :: p in payloads ==> |p| <= MAX_DELIVERED
    ensures Deliverable(payloads) == payloads
    decreases |payloads|
  {
    if payloads != [] {
      AllDeliverable(payloads[1..]);
      assert payloads == [payloads[0]] + payloads[1..];
    }
  }

  /** Any sequence of reads: the decoder's whole state, with the packets handed on, depends only on
      the bytes. */
  method DecodeReads(chunks: seq<seq<bv8>>) returns (d: Decoder)
    requires forall r :: r in chunks ==> 0 < |r| <= READ_CHUNK
    ensures d == Feed(Idle([]), Flatten(chunks))
    ensures |d.acc| <= MAX_CONTENT && forall p :: p in d.sent ==> |p| <= MAX_DELIVERED
  {
    hide Step;
    var decoder := new AsyncDecoder();
    var i := 0;
    while i < |chunks| && !decoder.dead
      invariant i <= |chunks| && decoder.Valid() && fresh(decoder) && fresh(decoder.payload)
      invariant decoder.View() == Feed(Idle([]), Flatten(chunks[..i]))
    {
      decoder.AsyncRead(chunks[i]);
      assert chunks[..i + 1][..i] == chunks[..i];
      FeedConcat(Idle([]), Flatten(chunks[..i]), chunks[i]);
      i := i + 1;
    }
    ghost var rest := SplitFlatten(chunks, i);
    FeedConcat(Idle([]), Flatten(chunks[..i]), rest);
    if decoder.dead {
      DeadFeed(decoder.View(), rest);
    } else {
      assert chunks[..i] == chunks && rest == [];
    }
    FeedBounded(Idle([]), Flatten(chunks));
    d := decoder.State();
  }

  lemma {:induction false} SplitFlatten(chunks: seq<seq<bv8>>, i: nat) returns (rest: seq<bv8>)
    requires i <= |chunks|
    ensures Flatten(chunks) == Flatten(chunks[..i]) + rest
    ensures i == |chunks| ==> rest == []
    decreases |chunks|
  {
    if i == |chunks| {
      rest := [];
      assert chunks[..i] == chunks;
    } else {
      var init := chunks[..|chunks| - 1];
      rest := SplitFlatten(init, i);
      assert init[..i] == chunks[..i];
      rest := rest + chunks[|chunks| - 1];
    }
  }

  /** Cut a stream into reads of the given sizes, and what is left into full ones. */
  method Cut(stream: seq<bv8>, sizes: seq<nat>) returns (chunks: seq<seq<bv8>>)
    requires forall i :: 0 <= i < |sizes| ==> 0 < sizes[i] <= READ_CHUNK
    ensures Flatten(chunks) == stream
    ensures forall r :: r in chunks ==> 0 < |r| <= READ_CHUNK
    ensures forall i :: 0 <= i < |sizes| && i + 1 < |chunks| ==> |chunks[i]| == sizes[i]
  {
    chunks := [];
    var at: nat := 0;
    assert stream[..0] == [];
    while at < |stream|
      invariant at <= |stream| && Flatten(chunks) == stream[..at]
      invariant forall r :: r in chunks ==> 0 < |r| <= READ_CHUNK
      invariant forall i :: 0 <= i < |sizes| && i < |chunks| - (if at < |stream| then 0 else 1) ==>
                  |chunks[i]| == sizes[i]
      decreases |stream| - at
    {
      var size := if |chunks| < |sizes| then sizes[|chunks|] else READ_CHUNK;
      var end := if at + size < |stream| then at + size else |stream|;
      assert stream[..end] == stream[..at] + stream[at..end];
      ghost var before := chunks;
      chunks := chunks + [stream[at..end]];
      assert chunks[..|chunks| - 1] == before;
      at := end;
    }
    assert stream[..at] == stream;
  }

  lemma {:induction false} FramesSnoc(payloads: seq<seq<bv8>>, i: nat)
    requires i < |payloads|
    ensures Frames(payloads[..i + 1]) == Frames(payloads[..i]) + Frame(payloads[i])
    decreases i
  {
    hide Frame;
    if i == 0 {
      assert payloads[..1][1..] == [] && payloads[..0] == [];
    } else {
      var rest := payloads[1..];
      assert payloads[..i + 1][1..] == rest[..i] && payloads[..i][1..] == rest[..i - 1];
      FramesSnoc(rest, i - 1);
      assert Frames(payloads[..i + 1]) == Frame(payloads[0]) + (Frames(rest[..i - 1]) + Frame(rest[i - 1]));
    }
  }

  /** The frames of successive packets, written one after another. */
  method BuildStream(payloads: seq<seq<bv8>>) returns (stream: seq<bv8>)
    requires forall i :: 0 <= i < |payloads| ==> |payloads[i]| <= ETH_DATA_LEN
    ensures stream == Frames(payloads)
  {
    hide Frame;
    stream := [];
    for i := 0 to |payloads|
      invariant stream == Frames(payloads[..i])
    {
      var frame := BuildFrame(payloads[i]);
      FramesSnoc(payloads, i);
      stream := stream + frame;
    }
    assert payloads[..|payloads|] == payloads;
  }

  /** End to end: frames built one after another, and read back in reads of any sizes. */
  method Pipe(payloads: seq<seq<bv8>>, sizes: seq<nat>) returns (delivered: seq<seq<bv8>>)
    requires forall i :: 0 <= i < |payloads| ==> |payloads[i]| <= ETH_DATA_LEN
    requires forall i :: 0 <= i < |sizes| ==> 0 < sizes[i] <= READ_CHUNK
    ensures delivered == Deliverable(payloads)
    ensures (forall p :: p in payloads ==> |p| <= MAX_DELIVERED) ==> delivered == payloads
  {
    hide Frames, Feed, Deliverable, Flatten;
    var stream := BuildStream(payloads);
    var chunks := Cut(stream, sizes);
    var d := DecodeReads(chunks);
    delivered := d.sent;
    FramesRoundTrip([], payloads);
    assert [] + Deliverable(payloads) == Deliverable(payloads);
    if forall p :: p in payloads ==> |p| <= MAX_DELIVERED { AllDeliverable(payloads); }
  }
}
