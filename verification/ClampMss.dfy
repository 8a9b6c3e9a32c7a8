/** clampMSS: lowers the MSS option of a TCP SYN carried in a PPPoE session packet, in place, and
    repairs the TCP checksum. */
module ClampMss {
  import opened Bytes
  import opened TcpChecksum

  /** Where the headers are, when the packet is an IPv4 TCP SYN and not a later fragment. */
  datatype Target = Ignore | Syn(ip: nat, tcp: nat)

  function IpOffset(m: Payload): (ip: nat)
    ensures ip <= 2
  {
    if m[0] % 2 == 1 then (if m[0] == 0x21 then 1 else 0)
    else if m[0] == 0 && m[1] == 0x21 then 2 else 0
  }

  function Classify(m: Payload, len: nat): (t: Target)
    ensures t.Syn? ==> 1 <= t.ip <= 2 && t.ip <= t.tcp <= 62
  {
    var ip := IpOffset(m);
    if ip == 0 || len < ip + 40 then Ignore
    else if m[ip] / 16 != 4 then Ignore
    else if m[ip + 6] % 32 != 0 || m[ip + 7] != 0 then Ignore
    else if m[ip + 9] != 6 then Ignore
    else
      var tcp := ip + m[ip] % 16 * 4;
      if m[tcp + 13] / 2 % 2 == 0 then Ignore else Syn(ip, tcp)
  }

  datatype Search = Absent | Bogus | Found(at: nat)

  function OptionsEnd(m: Payload, tcp: nat): (end: nat)
    requires tcp <= 62
    ensures end <= 122
  {
    tcp + m[tcp + 12] / 16 * 4
  }

  function Walk(m: Payload, opt: nat, end: nat): (s: Search)
    requires end <= 122
    ensures s.Found? ==> opt <= s.at < end
    decreases end - opt
  {
    if opt >= end || m[opt] == 0 then Absent
    else if m[opt] == 1 then Walk(m, opt + 1, end)
    else if m[opt] == 2 then (if m[opt + 1] != 4 then Bogus else Found(opt))
    else if m[opt + 1] < 2 then Bogus
    else Walk(m, opt + m[opt + 1], end)
  }

  function MssAt(m: Payload, o: nat): nat
    requires o < 122
  {
    U16(m[o + 2], m[o + 3])
  }

  function Rewrite(m: Payload, ip: nat, tcp: nat, o: nat, mss: nat): Payload
    requires 1 <= ip <= 2 && ip <= tcp <= 62 && tcp + 20 <= o < 122 && mss < 0x1_0000
    requires Readable(m, ip, tcp)
  {
    var z := m[o + 2 := Hi(mss)][o + 3 := Lo(mss)][tcp + 16 := 0][tcp + 17 := 0];
    var c := HostChecksum(Covered(z, ip, tcp));
    z[tcp + 16 := Lo(c)][tcp + 17 := Hi(c)]
  }

  /** Whenever the program gets as far as the checksum, the bytes it reads for it are in the payload. */
  predicate ChecksumReadable(m: Payload, len: nat) {
    var t := Classify(m, len);
    t.Syn? ==> Readable(m, t.ip, t.tcp)
  }

  /** The option to lower, if the packet is to be changed at all. */
  function Edit(m: Payload, len: nat, clampMss: nat): (s: Search)
    requires ChecksumReadable(m, len)
    ensures s.Found? ==> Classify(m, len).Syn? && Classify(m, len).tcp + 20 <= s.at < 122
    ensures s.Found? ==> clampMss < MssAt(m, s.at)
  {
    var t := Classify(m, len);
    if t.Ignore? || HostChecksum(Covered(m, t.ip, t.tcp)) != 0 then Absent
    else
      var s := Walk(m, t.tcp + 20, OptionsEnd(m, t.tcp));
      if s.Found? && MssAt(m, s.at) <= clampMss then Absent else s
  }

  function Clamp(m: Payload, len: nat, clampMss: nat): Payload
    requires ChecksumReadable(m, len)
  {
    var t, s := Classify(m, len), Edit(m, len, clampMss);
    if s.Found? then Rewrite(m, t.ip, t.tcp, s.at, clampMss) else m
  }

  // ----- the same in the fields of the packet

  /** A TCP SYN over IPv4, not a later fragment, behind a protocol field of `ip` bytes. */
  ghost predicate TcpSyn(m: Payload, len: nat, ip: nat) {
    && ((ip == 1 && m[0] == 0x21) || (ip == 2 && m[0] == 0 && m[1] == 0x21))
    && ip + 40 <= len && m[ip] / 16 == 4 && m[ip + 6] % 32 == 0 && m[ip + 7] == 0 && m[ip + 9] == 6
    && m[ip + m[ip] % 16 * 4 + 13] / 2 % 2 == 1
  }

  /** The stated total length covers the IP header and ends inside the payload. */
  ghost predicate LengthFits(m: Payload, ip: nat)
    requires ip <= 2
  {
    m[ip] % 16 * 4 <= U16(m[ip + 2], m[ip + 3]) <= PAYLOAD_SIZE - ip
  }

  /** The receiver's test: pseudo-header and segment sum to all ones. */
  ghost predicate SumsToOnes(m: Payload, ip: nat)
    requires ip <= 2 && LengthFits(m, ip)
  {
    var header, total := m[ip] % 16 * 4, U16(m[ip + 2], m[ip + 3]);
    var n := total - header;
    NetworkSum(m[ip + 12..ip + 20] + [0, 6, n / 256, n % 256] + m[ip + header..ip + total]) == 0xffff
  }

  /** What may stand before the MSS option: a no-operation, or an option with its length and data. */
  datatype TcpOption = Nop | Other(kind: byte, data: seq<byte>)

  predicate Allowed(o: TcpOption) { o.Other? ==> o.kind > 2 && |o.data| <= 253 }

  ghost predicate AllAllowed(os: seq<TcpOption>) { forall k :: 0 <= k < |os| ==> Allowed(os[k]) }

  function OptionBytes(o: TcpOption): seq<byte>
    requires Allowed(o)
  {
    match o case Nop => [1] case Other(kind, data) => [kind, |data| + 2] + data
  }

  function OptionsBytes(os: seq<TcpOption>): seq<byte>
    requires AllAllowed(os)
  {
    if os == [] then [] else OptionBytes(os[0]) + OptionsBytes(os[1..])
  }

  ghost predicate Printed(m: Payload, from: nat, o: nat, os: seq<TcpOption>) {
    from <= o <= PAYLOAD_SIZE && AllAllowed(os) && m[from..o] == OptionsBytes(os)
  }

  /** An MSS option of length 4 at `o`, behind other options only. */
  ghost predicate FirstMss(m: Payload, from: nat, end: nat, o: nat) {
    from <= o < end <= 122 && m[o] == 2 && m[o + 1] == 4 && exists os :: Printed(m, from, o, os)
  }

  /** The packet is a good SYN whose MSS option, at `o`, exceeds the clamp. */
  ghost predicate TooLarge(m: Payload, len: nat, clampMss: nat, ip: nat, o: nat) {
    && TcpSyn(m, len, ip) && LengthFits(m, ip) && SumsToOnes(m, ip)
    && var tcp := ip + m[ip] % 16 * 4;
       FirstMss(m, tcp + 20, tcp + m[tcp + 12] / 16 * 4, o) && clampMss < U16(m[o + 2], m[o + 3])
  }

  /** `r` is `m` with the MSS at `o` set to the clamp, and other bytes of the checksum. */
  ghost predicate Lowered(m: Payload, r: Payload, clampMss: nat, ip: nat, o: nat)
    requires ip <= 2 && o < 122
  {
    var tcp := ip + m[ip] % 16 * 4;
    && U16(r[o + 2], r[o + 3]) == clampMss
    && forall i :: 0 <= i < PAYLOAD_SIZE && i !in {o + 2, o + 3, tcp + 16, tcp + 17} ==> r[i] == m[i]
  }

  lemma {:induction false} ClassifySyn(m: Payload, len: nat, ip: nat)
    ensures TcpSyn(m, len, ip) <==> Classify(m, len).Syn? && Classify(m, len).ip == ip
    ensures TcpSyn(m, len, ip) ==> Classify(m, len).tcp == ip + m[ip] % 16 * 4
  {
  }

  lemma {:induction false} ReadableHere(m: Payload, len: nat, ip: nat)
    requires TcpSyn(m, len, ip)
    ensures ChecksumReadable(m, len) <==> LengthFits(m, ip)
  {
    hide Classify;
    ClassifySyn(m, len, ip);
    ReadableFields(m, ip);
  }

  lemma {:induction false} SumIsChecksum(m: Payload, ip: nat, tcp: nat)
    requires ip <= 2 && m[ip + 9] == 6 && tcp == ip + m[ip] % 16 * 4 && LengthFits(m, ip)
    ensures Readable(m, ip, tcp) && (SumsToOnes(m, ip) <==> HostChecksum(Covered(m, ip, tcp)) == 0)
  {
    hide HostChecksum, NetworkSum;
    var header, total := m[ip] % 16 * 4, U16(m[ip + 2], m[ip + 3]);
    var n := total - header;
    assert SegmentLength(m, ip) == n;
    var all := Covered(m, ip, tcp);
    assert all == m[ip + 12..ip + 20] + [0, 6, n / 256, n % 256] + m[ip + header..ip + total];
    HostStoresWireChecksum(all);
    ZeroStored(HostChecksum(all));
    ZeroStored(0xffff - NetworkSum(all));
  }

  lemma {:induction false} ZeroStored(n: nat)
    requires n < 0x1_0000
    ensures HostStore(n) == [0, 0] <==> n == 0
    ensures [Hi(n), Lo(n)] == [0, 0] <==> n == 0
  {
    assert n == Hi(n) * 256 + Lo(n);
  }

  lemma {:induction false} PrintedMore(m: Payload, from: nat, o: nat, first: TcpOption, os: seq<TcpOption>)
    requires from <= o <= PAYLOAD_SIZE && Allowed(first)
    ensures var next := from + |OptionBytes(first)|;
            Printed(m, from, o, [first] + os) <==>
            next <= o && m[from..next] == OptionBytes(first) && Printed(m, next, o, os)
  {
    hide OptionBytes, Allowed;
    var f := OptionBytes(first);
    var next := from + |f|;
    var all := [first] + os;
    assert all[1..] == os && all[0] == first;
    if Printed(m, from, o, all) {
      assert forall k :: 0 <= k < |os| ==> os[k] == all[k + 1];
      assert m[from..o] == f + OptionsBytes(os);
      assert m[from..next] == m[from..o][..|f|] && m[next..o] == m[from..o][|f|..];
    }
    if next <= o && m[from..next] == f && Printed(m, next, o, os) {
      assert m[from..o] == m[from..next] + m[next..o];
    }
  }

  /** The walk passes over one printed option, and only over such. */
  lemma {:induction false} WalkOne(m: Payload, from: nat, end: nat, first: TcpOption)
    requires from < end <= 122 && Allowed(first)
    ensures var next := from + |OptionBytes(first)|;
            next <= PAYLOAD_SIZE && m[from..next] == OptionBytes(first) ==> Walk(m, from, end) == Walk(m, next, end)
  {
    var f := OptionBytes(first);
    var next := from + |f|;
    if next <= PAYLOAD_SIZE && m[from..next] == f {
      assert m[from] == m[from..next][0] == f[0];
      if first.Other? { assert m[from + 1] == m[from..next][1] == f[1]; }
    }
  }

  lemma {:induction false} WalkPasses(m: Payload, from: nat, end: nat, o: nat, os: seq<TcpOption>)
    requires Printed(m, from, o, os) && o < end <= 122
    ensures Walk(m, from, end) == Walk(m, o, end)
    decreases |os|
  {
    hide Walk, OptionBytes;
    if os == [] {
      assert |m[from..o]| == 0;
    } else {
      hide Walk, OptionBytes, Printed;
      assert os == [os[0]] + os[1..];
      FirstAllowed(m, from, o, os);
      PrintedMore(m, from, o, os[0], os[1..]);
      WalkOne(m, from, end, os[0]);
      WalkPasses(m, from + |OptionBytes(os[0])|, end, o, os[1..]);
    }
  }

  lemma {:induction false} FirstAllowed(m: Payload, from: nat, o: nat, os: seq<TcpOption>)
    requires Printed(m, from, o, os) && os != []
    ensures from < o <= PAYLOAD_SIZE && Allowed(os[0])
  {
    assert |m[from..o]| == |OptionsBytes(os)| > 0;
  }

  lemma {:induction false} WalkGoesOn(m: Payload, from: nat, end: nat)
    requires end <= 122 && Walk(m, from, end).Found? && m[from] != 2
    ensures m[from] != 0 && from < end
    ensures if m[from] == 1 then Walk(m, from + 1, end) == Walk(m, from, end)
            else m[from + 1] >= 2 && Walk(m, from + m[from + 1], end) == Walk(m, from, end)
  {
  }

  lemma {:induction false} OptionPassed(m: Payload, from: nat, end: nat) returns (first: TcpOption)
    requires end <= 122 && Walk(m, from, end).Found? && m[from] != 2
    ensures Allowed(first)
    ensures var next := from + |OptionBytes(first)|;
            && from < next <= PAYLOAD_SIZE && m[from..next] == OptionBytes(first)
            && Walk(m, next, end) == Walk(m, from, end)
  {
    hide Walk;
    WalkGoesOn(m, from, end);
    if m[from] == 1 {
      first := Nop;
    } else {
      var n := m[from + 1];
      var data := m[from + 2..from + n];
      first := Other(m[from], data);
      assert OptionBytes(first) == [m[from], n] + data;
      assert m[from..from + n] == [m[from], n] + data;
    }
  }

  /** What it has passed over can be printed. */
  lemma {:induction false} WalkPassed(m: Payload, from: nat, end: nat) returns (os: seq<TcpOption>)
    requires end <= 122 && Walk(m, from, end).Found?
    ensures Printed(m, from, Walk(m, from, end).at, os)
    decreases end - from
  {
    var o := Walk(m, from, end).at;
    if m[from] == 2 {
      os := [];
    } else {
      hide Printed, Walk, OptionBytes;
      var first := OptionPassed(m, from, end);
      var more := WalkPassed(m, from + |OptionBytes(first)|, end);
      os := [first] + more;
      PrintedMore(m, from, o, first, more);
    }
  }

  lemma {:induction false} WalkFindsFirst(m: Payload, from: nat, end: nat, o: nat)
    requires end <= 122
    ensures Walk(m, from, end) == Found(o) <==> FirstMss(m, from, end, o)
  {
    hide OptionsBytes, AllAllowed;
    if FirstMss(m, from, end, o) {
      var os :| Printed(m, from, o, os);
      WalkPasses(m, from, end, o, os);
    }
    if Walk(m, from, end) == Found(o) {
      var os := WalkPassed(m, from, end);
      MssFound(m, from, end);
    }
  }

  lemma {:induction false} MssFound(m: Payload, from: nat, end: nat)
    requires end <= 122 && Walk(m, from, end).Found?
    ensures var o := Walk(m, from, end).at; m[o] == 2 && m[o + 1] == 4
    decreases end - from
  {
    if m[from] != 2 { MssFound(m, if m[from] == 1 then from + 1 else from + m[from + 1], end); }
  }

  lemma {:induction false} EditFinds(m: Payload, len: nat, clampMss: nat, ip: nat, o: nat)
    requires ChecksumReadable(m, len)
    ensures TooLarge(m, len, clampMss, ip, o) <==>
            Edit(m, len, clampMss) == Found(o) && Classify(m, len).Syn? && Classify(m, len).ip == ip
  {
    hide HostChecksum, Covered, Walk, Classify, FirstMss, SumsToOnes, Readable, LengthFits, TcpSyn;
    ClassifySyn(m, len, ip);
    if TcpSyn(m, len, ip) {
      SynAt(m, len, ip);
      ReadableHere(m, len, ip);
      var tcp := ip + m[ip] % 16 * 4;
      SumIsChecksum(m, ip, tcp);
      WalkFindsFirst(m, tcp + 20, OptionsEnd(m, tcp), o);
    }
  }

  lemma {:induction false} SynAt(m: Payload, len: nat, ip: nat)
    requires TcpSyn(m, len, ip)
    ensures 1 <= ip <= 2 && m[ip + 9] == 6
  {
  }

  lemma {:induction false} EditLowers(m: Payload, len: nat, clampMss: nat, ip: nat, o: nat)
    requires ChecksumReadable(m, len) && TooLarge(m, len, clampMss, ip, o)
    ensures ip <= 2 && o < 122 && Lowered(m, Clamp(m, len, clampMss), clampMss, ip, o)
    ensures Clamp(m, len, clampMss) != m
  {
    hide HostChecksum, Covered, Walk, Classify, TooLarge, Rewrite, Edit, Clamp;
    EditFinds(m, len, clampMss, ip, o);
    ClassifySyn(m, len, ip);
    LargeSyn(m, len, clampMss, ip, o);
    OnlyMssAndChecksumChange(m, len, clampMss);
  }

  lemma {:induction false} LargeSyn(m: Payload, len: nat, clampMss: nat, ip: nat, o: nat)
    requires TooLarge(m, len, clampMss, ip, o)
    ensures TcpSyn(m, len, ip)
  {
  }

  /** A packet is changed exactly when it is a good SYN with too large an MSS, and then by lowering it. */
  lemma {:induction false} ChangedExactly(m: Payload, len: nat, clampMss: nat)
    requires ChecksumReadable(m, len)
    ensures Clamp(m, len, clampMss) != m <==> exists ip, o :: TooLarge(m, len, clampMss, ip, o)
    ensures forall ip, o :: TooLarge(m, len, clampMss, ip, o) ==>
              ip <= 2 && o < 122 && Lowered(m, Clamp(m, len, clampMss), clampMss, ip, o)
  {
    hide ChecksumReadable, TooLarge, Edit, Clamp, Lowered;
    forall ip: nat, o: nat | TooLarge(m, len, clampMss, ip, o)
      ensures ip <= 2 && o < 122 && Lowered(m, Clamp(m, len, clampMss), clampMss, ip, o)
      ensures Clamp(m, len, clampMss) != m
    {
      EditLowers(m, len, clampMss, ip, o);
    }
    if Edit(m, len, clampMss).Found? {
      EditFinds(m, len, clampMss, Classify(m, len).ip, Edit(m, len, clampMss).at);
      assert TooLarge(m, len, clampMss, Classify(m, len).ip, Edit(m, len, clampMss).at);
    } else {
      NothingFound(m, len, clampMss);
    }
  }

  lemma {:induction false} NothingFound(m: Payload, len: nat, clampMss: nat)
    requires ChecksumReadable(m, len) && !Edit(m, len, clampMss).Found?
    ensures Clamp(m, len, clampMss) == m
  {
  }

  // ----- the program

  /** The option walk; mssopt in the source is the offset returned in Found. */
  method FindMss(m: Payload, tcp: nat) returns (s: Search)
    requires tcp <= 62
    ensures s == Walk(m, tcp + 20, OptionsEnd(m, tcp))
  {
    var end := tcp + m[tcp + 12] / 16 * 4;
    var opt := tcp + 20;
    while opt < end && m[opt] != 0
      invariant Walk(m, opt, end) == Walk(m, tcp + 20, end)
      decreases end - opt
    {
      if m[opt] == 1 {
        opt := opt + 1;
      } else if m[opt] == 2 {
        if m[opt + 1] != 4 { return Bogus; }
        return Found(opt);
      } else {
        if m[opt + 1] < 2 { return Bogus; }
        opt := opt + m[opt + 1];
      }
    }
    return Absent;
  }

  /** The tests in front of the checksum: protocol, length, version, fragment, TCP, SYN. */
  method FindSyn(payload: array<byte>, len: nat) returns (t: Target)
    requires payload.Length == PAYLOAD_SIZE
    ensures t == Classify(payload[..], len)
  {
    var ip, minlen;
    if payload[0] % 2 == 1 {
      if payload[0] != 0x21 { return Ignore; }
      ip, minlen := 1, 41;
    } else {
      if payload[0] != 0 || payload[1] != 0x21 { return Ignore; }
      ip, minlen := 2, 42;
    }
    if len < minlen { return Ignore; }
    if payload[ip] / 16 != 4 { return Ignore; }
    if payload[ip + 6] % 32 != 0 || payload[ip + 7] != 0 { return Ignore; }
    if payload[ip + 9] != 6 { return Ignore; }
    var tcp := ip + payload[ip] % 16 * 4;
    if payload[tcp + 13] / 2 % 2 == 0 { return Ignore; }
    return Syn(ip, tcp);
  }

  /** clampMSS on any packet.  `overread` reports that the checksum loop leaves the 1500-byte payload and
      reads on in memory; what the program does after that is not determined by the packet. */
  method ClampInPlace(payload: array<byte>, len: nat, clampMss: nat) returns (overread: bool)
    requires payload.Length == PAYLOAD_SIZE
    modifies payload
    ensures overread <==> !ChecksumReadable(old(payload[..]), len)
    ensures overread <==> exists ip :: TcpSyn(old(payload[..]), len, ip) && !LengthFits(old(payload[..]), ip)
    ensures !overread ==> payload[..] == Clamp(old(payload[..]), len, clampMss)
    ensures !overread ==>
              && (payload[..] != old(payload[..]) <==> exists ip, o :: TooLarge(old(payload[..]), len, clampMss, ip, o))
              && forall ip, o :: TooLarge(old(payload[..]), len, clampMss, ip, o) ==>
                   ip <= 2 && o < 122 && Lowered(old(payload[..]), payload[..], clampMss, ip, o)
  {
    Outcome(payload[..], len, clampMss);
    overread := ClampSyn(payload, len, clampMss);
  }

  /** The two readings of its outcome. */
  lemma {:induction false} Outcome(m: Payload, len: nat, clampMss: nat)
    ensures ChecksumReadable(m, len) <==> !exists ip :: TcpSyn(m, len, ip) && !LengthFits(m, ip)
    ensures ChecksumReadable(m, len) ==>
              && (Clamp(m, len, clampMss) != m <==> exists ip, o :: TooLarge(m, len, clampMss, ip, o))
              && forall ip, o :: TooLarge(m, len, clampMss, ip, o) ==>
                   ip <= 2 && o < 122 && Lowered(m, Clamp(m, len, clampMss), clampMss, ip, o)
  {
    hide TooLarge, Clamp, LengthFits, Readable, Classify, Lowered, TcpSyn;
    forall ip: nat
      ensures TcpSyn(m, len, ip) <==> Classify(m, len).Syn? && Classify(m, len).ip == ip
      ensures TcpSyn(m, len, ip) ==> ip <= 2 && (ChecksumReadable(m, len) <==> LengthFits(m, ip))
    {
      ClassifySyn(m, len, ip);
      if TcpSyn(m, len, ip) { SynAt(m, len, ip); ReadableHere(m, len, ip); }
    }
    if Classify(m, len).Syn? { assert TcpSyn(m, len, Classify(m, len).ip); }
    if ChecksumReadable(m, len) { ChangedExactly(m, len, clampMss); }
  }

  method ClampSyn(payload: array<byte>, len: nat, clampMss: nat) returns (overread: bool)
    requires payload.Length == PAYLOAD_SIZE
    modifies payload
    ensures overread <==> !ChecksumReadable(old(payload[..]), len)
    ensures !overread ==> payload[..] == Clamp(old(payload[..]), len, clampMss)
  {
    hide HostChecksum, Covered, Walk, Classify, Rewrite, HeaderLength, U16;
    overread := false;
    var t := FindSyn(payload, len);
    if t.Ignore? { return; }
    var ip, tcp := t.ip, t.tcp;
    var count := (U16(payload[ip + 2], payload[ip + 3]) - HeaderLength(payload[..], ip)) % 0x1_0000;
    assert count == SegmentLength(payload[..], ip);
    if tcp + count > PAYLOAD_SIZE { return true; }
    var csum := ComputeTcpChecksum(payload[..], ip, tcp);
    if csum != 0 { return; }
    var mssopt := FindMss(payload[..], tcp);
    if !mssopt.Found? { return; }
    var o := mssopt.at;
    if U16(payload[o + 2], payload[o + 3]) <= clampMss { return; }
    assert Edit(payload[..], len, clampMss) == mssopt;
    Lower(payload, ip, tcp, o, clampMss);
  }

  /** The edit itself: new MSS, zeroed checksum field, recomputed checksum. */
  method Lower(payload: array<byte>, ip: nat, tcp: nat, o: nat, clampMss: nat)
    requires payload.Length == PAYLOAD_SIZE && clampMss < 0x1_0000
    requires 1 <= ip <= 2 && ip <= tcp <= 62 && tcp + 20 <= o < 122
    requires Readable(payload[..], ip, tcp)
    modifies payload
    ensures payload[..] == Rewrite(old(payload[..]), ip, tcp, o, clampMss)
  {
    hide HostChecksum, Covered;
    ghost var m: Payload := payload[..];
    payload[o + 2] := clampMss / 256 % 256;
    payload[o + 3] := clampMss % 256;
    payload[tcp + 16] := 0;
    payload[tcp + 17] := 0;
    assert payload[..] == m[o + 2 := Hi(clampMss)][o + 3 := Lo(clampMss)][tcp + 16 := 0][tcp + 17 := 0];
    ghost var z: Payload := payload[..];
    var csum := ComputeTcpChecksum(payload[..], ip, tcp);
    payload[tcp + 16] := csum % 256;
    payload[tcp + 17] := csum / 256;
    assert payload[..] == z[tcp + 16 := Lo(csum)][tcp + 17 := Hi(csum)];
  }

  // ----- what it guarantees

  /** Nothing but the two MSS bytes and the two checksum bytes can change; the MSS only goes
      down, and to exactly the clamp value. */
  lemma {:induction false} OnlyMssAndChecksumChange(m: Payload, len: nat, clampMss: nat)
    requires ChecksumReadable(m, len)
    ensures var r, s := Clamp(m, len, clampMss), Edit(m, len, clampMss);
            if s.Found? then
              var tcp := Classify(m, len).tcp;
              && MssAt(r, s.at) == clampMss < MssAt(m, s.at)
              && forall i :: 0 <= i < PAYLOAD_SIZE && i !in {s.at + 2, s.at + 3, tcp + 16, tcp + 17} ==> r[i] == m[i]
            else r == m
  {
    hide HostChecksum, Covered, Walk, Classify;
  }

  lemma {:induction false} WalkStable(m: Payload, r: Payload, opt: nat, end: nat)
    requires end <= 122 && Walk(m, opt, end).Found?
    requires forall i :: opt <= i < Walk(m, opt, end).at + 2 ==> r[i] == m[i]
    ensures Walk(r, opt, end) == Walk(m, opt, end)
    decreases end - opt
  {
    if m[opt] == 1 {
      WalkStable(m, r, opt + 1, end);
    } else if m[opt] != 2 {
      WalkStable(m, r, opt + m[opt + 1], end);
    }
  }

  lemma {:induction false} HeadersKept(m: Payload, r: Payload, len: nat)
    requires ChecksumReadable(m, len) && Classify(m, len).Syn?
    requires forall i :: 0 <= i < Classify(m, len).tcp + 16 ==> r[i] == m[i]
    ensures Classify(r, len) == Classify(m, len)
    ensures ChecksumReadable(r, len)
  {
    hide HostChecksum, Covered;
    var t := Classify(m, len);
    assert IpOffset(r) == t.ip;
  }

  /** A second application changes nothing, on every packet. */
  lemma {:induction false} ClampIdempotent(m: Payload, len: nat, clampMss: nat)
    requires ChecksumReadable(m, len)
    ensures ChecksumReadable(Clamp(m, len, clampMss), len)
    ensures Clamp(Clamp(m, len, clampMss), len, clampMss) == Clamp(m, len, clampMss)
  {
    hide HostChecksum, Covered, Walk, Classify, Rewrite, SegmentLength, U16;
    var r := Clamp(m, len, clampMss);
    var s := Edit(m, len, clampMss);
    if s.Found? {
      var t := Classify(m, len);
      OnlyMssAndChecksumChange(m, len, clampMss);
      HeadersKept(m, r, len);
      assert OptionsEnd(r, t.tcp) == OptionsEnd(m, t.tcp);
      WalkStable(m, r, t.tcp + 20, OptionsEnd(m, t.tcp));
    }
  }

  /** In the fields of the IP header: the checksum stays in the payload exactly when the total length
      covers the header and ends inside it. */
  lemma {:induction false} ReadableFields(m: Payload, ip: nat)
    requires ip <= 2
    ensures Readable(m, ip, ip + HeaderLength(m, ip))
       <==> HeaderLength(m, ip) <= U16(m[ip + 2], m[ip + 3]) <= PAYLOAD_SIZE - ip
  {
    var total, header := U16(m[ip + 2], m[ip + 3]), HeaderLength(m, ip);
    if total < header {
      WrapsBelow(total, header);
    }
  }

  lemma {:induction false} WrapsBelow(total: nat, header: nat)
    requires total < header <= 60
    ensures (total - header) % 0x1_0000 == 0x1_0000 + total - header
  {
  }

  /** What a caller must check of a packet before it can call clampMSS. */
  lemma {:induction false} SafeToClamp(m: Payload, len: nat)
    ensures ChecksumReadable(m, len) <==>
            Classify(m, len).Ignore? ||
            var ip := Classify(m, len).ip;
            HeaderLength(m, ip) <= U16(m[ip + 2], m[ip + 3]) <= PAYLOAD_SIZE - ip
  {
    var t := Classify(m, len);
    if t.Syn? { ReadableFields(m, t.ip); }
  }

  /** A SYN in an IPv4 packet of 20 header bytes that states a total length of zero. */
  const ZeroLengthSyn: Payload :=
    seq(PAYLOAD_SIZE, i =>
      if i == 0 then 0x21 else if i == 1 then 0x45 else if i == 10 then 6 else if i == 34 then 2 else 0)

  /** The 16-bit count wraps, and the checksum loop reads 65516 bytes behind a 1500-byte payload. */
  lemma {:induction false} ZeroLengthOverreads(len: nat)
    requires len >= 41
    ensures Classify(ZeroLengthSyn, len) == Syn(1, 21) && SegmentLength(ZeroLengthSyn, 1) == 65516
    ensures !ChecksumReadable(ZeroLengthSyn, len)
  {
    var m := ZeroLengthSyn;
    assert m[0] == 0x21 && m[1] == 0x45 && m[3] == m[4] == 0 && m[7] == m[8] == 0 && m[10] == 6 && m[34] == 2;
    WrapsBelow(0, 20);
  }

  /** Well-formed: a full IP header, and a TCP segment long enough to hold its checksum. */
  predicate WellFormed(m: Payload, ip: nat)
    requires ip <= 2
  {
    HeaderLength(m, ip) >= 20 && SegmentLength(m, ip) >= 18
  }

  lemma {:induction false} CoveredSplit(m: Payload, ip: nat, tcp: nat)
    requires ip <= 2 && Readable(m, ip, tcp) && SegmentLength(m, ip) >= 18
    ensures Covered(m, ip, tcp) ==
            (PseudoHeader(m, ip) + m[tcp..tcp + 16]) + [m[tcp + 16], m[tcp + 17]]
            + m[tcp + 18..tcp + SegmentLength(m, ip)]
  {
    hide PseudoHeader, SegmentLength;
    var n := SegmentLength(m, ip);
    assert m[tcp..tcp + n] == m[tcp..tcp + 16] + [m[tcp + 16], m[tcp + 17]] + m[tcp + 18..tcp + n];
  }

  /** Changes behind the first 16 bytes of the segment leave length and pseudo-header alone. */
  lemma {:induction false} HeaderUntouched(m: Payload, r: Payload, ip: nat)
    requires ip <= 2 && forall i :: 0 <= i < ip + 20 ==> r[i] == m[i]
    ensures SegmentLength(r, ip) == SegmentLength(m, ip) && PseudoHeader(r, ip) == PseudoHeader(m, ip)
  {
    hide U16;
    assert r[ip + 12..ip + 20] == m[ip + 12..ip + 20];
  }

  lemma {:induction false} ChecksumRepaired(m: Payload, ip: nat, tcp: nat, o: nat, mss: nat)
    requires 1 <= ip <= 2 && tcp == ip + HeaderLength(m, ip) && tcp + 20 <= o < 122 && mss < 0x1_0000
    requires Readable(m, ip, tcp) && WellFormed(m, ip)
    ensures var r := Rewrite(m, ip, tcp, o, mss);
            Readable(r, ip, tcp) && HostChecksum(Covered(r, ip, tcp)) == 0
  {
    hide HostChecksum, Covered, SegmentLength, PseudoHeader;
    var z: Payload := m[o + 2 := Hi(mss)][o + 3 := Lo(mss)][tcp + 16 := 0][tcp + 17 := 0];
    HeaderUntouched(m, z, ip);
    ChecksumStored(z, ip, tcp);
  }

  /** Filling the zeroed checksum field makes the segment sum to zero. */
  lemma {:induction false} ChecksumStored(z: Payload, ip: nat, tcp: nat)
    requires ip <= 2 && ip + 20 <= tcp <= 62 && Readable(z, ip, tcp) && SegmentLength(z, ip) >= 18
    requires z[tcp + 16] == 0 && z[tcp + 17] == 0
    ensures var c := HostChecksum(Covered(z, ip, tcp));
            var r: Payload := z[tcp + 16 := Lo(c)][tcp + 17 := Hi(c)];
            Readable(r, ip, tcp) && HostChecksum(Covered(r, ip, tcp)) == 0
  {
    hide HostChecksum, Covered, SegmentLength, PseudoHeader;
    var c := HostChecksum(Covered(z, ip, tcp));
    var r: Payload := z[tcp + 16 := Lo(c)][tcp + 17 := Hi(c)];
    HeaderUntouched(z, r, ip);
    var n := SegmentLength(z, ip);
    var a, b := PseudoHeader(z, ip) + z[tcp..tcp + 16], z[tcp + 18..tcp + n];
    assert r[tcp..tcp + 16] == z[tcp..tcp + 16] && r[tcp + 18..tcp + n] == b;
    CoveredSplit(z, ip, tcp);
    CoveredSplit(r, ip, tcp);
    StoredChecksumVerifies(a, b);
  }

  /** A changed well-formed packet carries a correct checksum: the receiver's sum is all ones. */
  lemma {:induction false} ClampedPacketVerifies(m: Payload, len: nat, clampMss: nat, ip: nat, o: nat)
    requires ChecksumReadable(m, len) && TooLarge(m, len, clampMss, ip, o) && ip <= 2 && WellFormed(m, ip)
    ensures var r := Clamp(m, len, clampMss); TcpSyn(r, len, ip) && LengthFits(r, ip) && SumsToOnes(r, ip)
  {
    hide HostChecksum, Covered, Rewrite, Walk, TooLarge, Classify, SumsToOnes, TcpSyn, LengthFits, SegmentLength;
    EditFinds(m, len, clampMss, ip, o);
    ClassifySyn(m, len, ip);
    var t, r := Classify(m, len), Clamp(m, len, clampMss);
    ChecksumRepaired(m, t.ip, t.tcp, o, clampMss);
    OnlyMssAndChecksumChange(m, len, clampMss);
    HeadersKept(m, r, len);
    ClassifySyn(r, len, ip);
    ReadableHere(r, len, ip);
    SynAt(r, len, ip);
    SumIsChecksum(r, ip, t.tcp);
  }
}
