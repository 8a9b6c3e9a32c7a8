/** computeTCPChecksum: a checksum summed in host (little-endian) order, proved to store the same
    two bytes as the network-order ones' complement checksum of RFC 1071. */
module TcpChecksum {
  import opened Bytes

  // ----- the reference: RFC 1071 in network byte order, with end-around carry at each addition

  function CarryAdd(a: nat, b: nat): (s: nat)
    requires a < 0x1_0000 && b < 0x1_0000
    ensures s < 0x1_0000
  {
    if a + b >= 0x1_0000 then a + b - 0xffff else a + b
  }

  function NetworkSum(s: seq<byte>): (n: nat)
    ensures n < 0x1_0000
  {
    if s == [] then 0
    else if |s| == 1 then U16(s[0], 0)
    else CarryAdd(U16(s[0], s[1]), NetworkSum(s[2..]))
  }

  /** The checksum field as it appears on the wire. */
  function WireChecksum(s: seq<byte>): seq<byte> {
    var c := 0xffff - NetworkSum(s);
    [Hi(c), Lo(c)]
  }

  // ----- what the program adds up

  function HostSum(s: seq<byte>): nat {
    if s == [] then 0
    else if |s| == 1 then s[0]
    else U16(s[1], s[0]) + HostSum(s[2..])
  }

  function Fold(sum: nat): (n: nat)
    ensures n < 0x1_0000
    decreases sum
  {
    if sum < 0x1_0000 then sum else Fold(sum % 0x1_0000 + sum / 0x1_0000)
  }

  function HostChecksum(s: seq<byte>): (n: nat)
    ensures n < 0x1_0000
  {
    0xffff - Fold(HostSum(s))
  }

  /** A 16-bit value as a little-endian host stores it. */
  function HostStore(n: nat): seq<byte>
    requires n < 0x1_0000
  {
    [Lo(n), Hi(n)]
  }

  // ----- arithmetic of the residues modulo 65535

  /** The representative in 1..65535 of a positive number's residue. */
  function Canon(n: nat): (c: nat)
    ensures c < 0x1_0000
    ensures n > 0 ==> c > 0
  {
    if n == 0 then 0 else (n - 1) % 0xffff + 1
  }

  lemma {:induction false} AddMultiple(y: nat, k: nat)
    ensures (y + 0xffff * k) % 0xffff == y % 0xffff
    decreases k
  {
    if k > 0 {
      AddMultiple(y, k - 1);
      AddOnce(y + 0xffff * (k - 1));
    }
  }

  lemma {:induction false} AddOnce(z: nat)
    ensures (z + 0xffff) % 0xffff == z % 0xffff
  {}

  lemma {:induction false} CanonSame(a: nat, b: nat, k: int)
    requires a > 0 && b > 0 && a == b + 0xffff * k
    ensures Canon(a) == Canon(b)
  {
    if k >= 0 { AddMultiple(b - 1, k); } else { AddMultiple(a - 1, -k); }
  }

  lemma {:induction false} CanonSmall(n: nat)
    requires n < 0x1_0000
    ensures Canon(n) == n
  {}

  lemma {:induction false} FoldIsCanon(sum: nat)
    ensures Fold(sum) == Canon(sum)
    decreases sum
  {
    if sum < 0x1_0000 {
      CanonSmall(sum);
    } else {
      var next := sum % 0x1_0000 + sum / 0x1_0000;
      assert sum == next + 0xffff * (sum / 0x1_0000);
      CanonSame(sum, next, sum / 0x1_0000);
      FoldIsCanon(next);
    }
  }

  /** Sum of the network-order words, without folding, and the bytes that carry. */
  function PlainSum(s: seq<byte>): nat {
    if s == [] then 0
    else if |s| == 1 then U16(s[0], 0)
    else U16(s[0], s[1]) + PlainSum(s[2..])
  }

  function OddBytes(s: seq<byte>): nat {
    if |s| < 2 then 0 else s[1] + OddBytes(s[2..])
  }

  lemma {:induction false} SumsRelated(s: seq<byte>)
    ensures 256 * HostSum(s) == PlainSum(s) + 0xffff * OddBytes(s)
    ensures PlainSum(s) == 0 ==> HostSum(s) == 0
    decreases |s|
  {
    if |s| >= 2 { SumsRelated(s[2..]); }
  }

  lemma {:induction false} CanonStep(w: nat, x: nat)
    requires w < 0x1_0000
    ensures CarryAdd(w, Canon(x)) == Canon(w + x)
  {
    if x > 0 {
      var k := (x - 1) / 0xffff;
      assert x == Canon(x) + 0xffff * k;
      CanonSame(w + x, w + Canon(x), k);
      var t := w + Canon(x);
      if t >= 0x1_0000 { CanonSame(t, t - 0xffff, 1); CanonSmall(t - 0xffff); } else { CanonSmall(t); }
    } else {
      CanonSmall(w);
    }
  }

  lemma {:induction false} NetworkSumIsCanon(s: seq<byte>)
    ensures NetworkSum(s) == Canon(PlainSum(s))
    decreases |s|
  {
    if |s| == 1 {
      CanonSmall(U16(s[0], 0));
    } else if |s| >= 2 {
      NetworkSumIsCanon(s[2..]);
      CanonStep(U16(s[0], s[1]), PlainSum(s[2..]));
    }
  }

  function Swap(y: nat): (z: nat)
    requires y < 0x1_0000
    ensures z < 0x1_0000 && z == 256 * y - 0xffff * (y / 256)
  {
    (y % 256) * 256 + y / 256
  }

  lemma {:induction false} SwapsCanon(h: nat, p: nat, odd: nat)
    requires p > 0 && 256 * h == p + 0xffff * odd
    ensures Canon(p) == Swap(Canon(h))
  {
    var y := Canon(h);
    var k := (h - 1) / 0xffff;
    assert h == y + 0xffff * k;
    CanonSame(Swap(y), p, odd - 256 * k - y / 256);
    CanonSmall(Swap(y));
  }

  lemma {:induction false} Digits(hi: nat, lo: nat)
    requires hi < 256 && lo < 256
    ensures (256 * hi + lo) / 256 == hi && (256 * hi + lo) % 256 == lo
  {}

  lemma {:induction false} ComplementSwaps(y: nat)
    requires y < 0x1_0000
    ensures HostStore(0xffff - y) == [Hi(0xffff - Swap(y)), Lo(0xffff - Swap(y))]
  {
    var hi, lo := y / 256, y % 256;
    assert y == 256 * hi + lo && hi < 256;
    Complement(hi, lo);
  }

  lemma {:induction false} Complement(hi: nat, lo: nat)
    requires hi < 256 && lo < 256
    ensures var y := 256 * hi + lo; HostStore(0xffff - y) == [Hi(0xffff - Swap(y)), Lo(0xffff - Swap(y))]
  {
    var y := 256 * hi + lo;
    Digits(hi, lo);
    assert Swap(y) == 256 * lo + hi;
    Digits(255 - hi, 255 - lo);
    Digits(255 - lo, 255 - hi);
    assert 0xffff - y == 256 * (255 - hi) + (255 - lo);
    assert 0xffff - Swap(y) == 256 * (255 - lo) + (255 - hi);
  }

  /** Byte order does not matter: the host-order sum, stored by the host, is the wire checksum. */
  lemma {:induction false} HostStoresWireChecksum(s: seq<byte>)
    ensures HostStore(HostChecksum(s)) == WireChecksum(s)
  {
    hide Canon, HostStore, Swap, Fold, NetworkSum, HostSum, PlainSum, OddBytes, Hi, Lo;
    SumsRelated(s);
    NetworkSumIsCanon(s);
    FoldIsCanon(HostSum(s));
    ComplementSwaps(Canon(HostSum(s)));
    if PlainSum(s) > 0 {
      SwapsCanon(HostSum(s), PlainSum(s), OddBytes(s));
    } else {
      CanonSmall(0);
    }
  }

  lemma {:induction false} HostSumConcat(a: seq<byte>, b: seq<byte>)
    requires |a| % 2 == 0
    ensures HostSum(a + b) == HostSum(a) + HostSum(b)
    decreases |a|
  {
    if a == [] {
      assert a + b == b;
    } else {
      assert (a + b)[2..] == a[2..] + b;
      HostSumConcat(a[2..], b);
    }
  }

  /** A segment whose checksum field holds the checksum of the rest verifies to zero. */
  lemma {:induction false} StoredChecksumVerifies(a: seq<byte>, b: seq<byte>)
    requires |a| % 2 == 0
    ensures HostChecksum(a + HostStore(HostChecksum(a + [0, 0] + b)) + b) == 0
  {
    hide HostSum, Fold, HostStore, Canon;
    var c := HostChecksum(a + [0, 0] + b);
    FieldSum(a, 0, b);
    FieldSum(a, c, b);
    StoredZero();
    Completes(HostSum(a) + HostSum(b));
  }

  lemma {:induction false} StoredZero()
    ensures HostStore(0) == [0, 0]
  {}

  /** A stored word contributes its value. */
  lemma {:induction false} FieldSum(a: seq<byte>, c: nat, b: seq<byte>)
    requires |a| % 2 == 0 && c < 0x1_0000
    ensures HostSum(a + HostStore(c) + b) == HostSum(a) + c + HostSum(b)
  {
    var w := HostStore(c) + b;
    assert a + HostStore(c) + b == a + w;
    HostSumConcat(a, w);
    assert w[2..] == b && w[0] == Lo(c) && w[1] == Hi(c);
  }

  /** A sum and the complement of its fold make all ones. */
  lemma {:induction false} Completes(s0: nat)
    ensures Fold(s0 + (0xffff - Fold(s0))) == 0xffff
  {
    hide Fold;
    FoldIsCanon(s0);
    var c := 0xffff - Fold(s0);
    FoldIsCanon(s0 + c);
    if s0 > 0 {
      var k := (s0 - 1) / 0xffff;
      assert s0 == Canon(s0) + 0xffff * k;
      CanonSame(s0 + c, 0xffff, k);
    }
    CanonSmall(0xffff);
  }

  // ----- the program's view of a packet in memory: `ip` and `tcp` are the header offsets

  function HeaderLength(m: seq<byte>, ip: nat): nat
    requires ip + 20 <= |m|
  {
    m[ip] % 16 * 4
  }

  /** UINT16_t arithmetic: the subtraction wraps. */
  function SegmentLength(m: seq<byte>, ip: nat): (n: nat)
    requires ip + 20 <= |m|
    ensures n < 0x1_0000
  {
    (U16(m[ip + 2], m[ip + 3]) - HeaderLength(m, ip)) % 0x1_0000
  }

  /** The pseudo-header of section 3.1 of RFC 793: addresses, zero, protocol, TCP length. */
  function PseudoHeader(m: seq<byte>, ip: nat): (p: seq<byte>)
    requires ip + 20 <= |m|
    ensures |p| == 12
  {
    var n := SegmentLength(m, ip);
    m[ip + 12..ip + 20] + [0, m[ip + 9], Hi(n), Lo(n)]
  }

  predicate Readable(m: seq<byte>, ip: nat, tcp: nat) {
    ip + 20 <= |m| && tcp + SegmentLength(m, ip) <= |m|
  }

  function Covered(m: seq<byte>, ip: nat, tcp: nat): seq<byte>
    requires Readable(m, ip, tcp)
  {
    PseudoHeader(m, ip) + m[tcp..tcp + SegmentLength(m, ip)]
  }

  lemma {:induction false} HostSumBound(s: seq<byte>)
    ensures HostSum(s) <= 0xffff * ((|s| + 1) / 2)
    decreases |s|
  {
    if |s| >= 2 { HostSumBound(s[2..]); }
  }

  lemma {:induction false} HostSumWord(s: seq<byte>, i: nat)
    requires i % 2 == 0 && i + 2 <= |s|
    requires |s| < 0x1_0000
    ensures HostSum(s[..i + 2]) == HostSum(s[..i]) + U16(s[i + 1], s[i]) <= 0x8000_0000
  {
    assert s[..i + 2] == s[..i] + [s[i], s[i + 1]];
    HostSumConcat(s[..i], [s[i], s[i + 1]]);
    assert [s[i], s[i + 1]][2..] == [];
    HostSumBound(s[..i + 2]);
  }

  /** The pseudo-header's six words. */
  method AddPseudo(p: seq<byte>) returns (sum: nat)
    requires |p| == 12
    ensures sum == HostSum(p) <= 6 * 0xffff
  {
    sum := 0;
    for i := 0 to 6
      invariant sum == HostSum(p[..2 * i])
    {
      HostSumWord(p, 2 * i);
      sum := (sum + U16(p[2 * i + 1], p[2 * i])) % 0x1_0000_0000;
    }
    assert p[..12] == p;
    HostSumBound(p);
  }

  /** The segment's words and its trailing odd byte: the 32-bit accumulator never wraps. */
  method AddSegment(base: nat, seg: seq<byte>) returns (sum: nat)
    requires base <= 6 * 0xffff && |seg| < 0x1_0000
    ensures sum == base + HostSum(seg) < 0x1_0000_0000
  {
    hide U16;
    sum := base;
    var addr: nat, count: nat := 0, |seg|;
    while count > 1
      invariant addr + count == |seg| && addr % 2 == 0
      invariant sum == base + HostSum(seg[..addr])
    {
      HostSumWord(seg, addr);
      sum := (sum + U16(seg[addr + 1], seg[addr])) % 0x1_0000_0000;
      addr := addr + 2;
      count := count - 2;
    }
    HostSumBound(seg);
    if count > 0 {
      assert seg == seg[..addr] + [seg[addr]];
      HostSumConcat(seg[..addr], [seg[addr]]);
      sum := (sum + seg[addr]) % 0x1_0000_0000;
    } else {
      assert seg == seg[..addr];
    }
  }

  /** computeTCPChecksum: for every segment length, storing the returned value in host order
      writes the RFC 1071 checksum of pseudo-header and segment. */
  method ComputeTcpChecksum(m: seq<byte>, ip: nat, tcp: nat) returns (csum: nat)
    requires Readable(m, ip, tcp)
    ensures csum < 0x1_0000 && csum == HostChecksum(Covered(m, ip, tcp))
    ensures HostStore(csum) == WireChecksum(Covered(m, ip, tcp))
  {
    var count := (U16(m[ip + 2], m[ip + 3]) - m[ip] % 16 * 4) % 0x1_0000;
    var pseudo := m[ip + 12..ip + 20] + [0, m[ip + 9], Hi(count), Lo(count)];
    HostSumConcat(pseudo, m[tcp..tcp + count]);
    var sum := AddPseudo(pseudo);
    sum := AddSegment(sum, m[tcp..tcp + count]);
    ghost var total := sum;
    while sum / 0x1_0000 != 0
      invariant Fold(sum) == Fold(total)
      decreases sum
    {
      sum := sum % 0x1_0000 + sum / 0x1_0000;
    }
    csum := 0xffff - sum;
    HostStoresWireChecksum(Covered(m, ip, tcp));
  }
}
