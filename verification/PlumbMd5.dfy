/** The MD5 of the PPPoE package: a 64-byte buffer that is compressed as soon as it is full.  Proved
    to compute the digest of RFC 1321, and so to agree with the GNU version, for every split. */
module PlumbMd5 {
  import opened Chunks
  import opened Md5Spec
  import GnuMd5

  function F1(x: Word, y: Word, z: Word): (r: Word)
    ensures r == WordF(x, y, z)
  {
    hide F;
    CheaperF(x.v, y.v, z.v);
    W(z.v ^ (x.v & (y.v ^ z.v)))
  }

  /** F1 (z, x, y) */
  function F2(x: Word, y: Word, z: Word): (r: Word)
    ensures r == WordG(x, y, z)
  {
    hide G;
    CheaperG(x.v, y.v, z.v);
    W(y.v ^ (z.v & (x.v ^ y.v)))
  }

  function F3(x: Word, y: Word, z: Word): (r: Word)
    ensures r == WordH(x, y, z)
  {
    hide H;
    PlainH(x.v, y.v, z.v);
    W(x.v ^ y.v ^ z.v)
  }

  function F4(x: Word, y: Word, z: Word): (r: Word)
    ensures r == WordI(x, y, z)
  {
    W(y.v ^ (x.v | !z.v))
  }

  lemma {:induction false} Sums(w: bv32, f: bv32, data: bv32, t: bv32)
    ensures w + (f + (data + t)) == w + f + data + t
  {}

  /** MD5STEP: w += f + data, where data is the input word plus its constant; rotate; w += x. */
  function Op(w: Word, x: Word, f: Word, data: Word, s: nat, t: Word): (r: Word)
    requires 0 < s < 32
    ensures r == Mix(w, x, f, data, s, t)
  {
    Sums(w.v, f.v, data.v, t.v);
    W(Rotate(W(w.v + (f.v + (data.v + t.v))), s).v + x.v)
  }

  method Round1(s0: State, x: seq<Word>) returns (s: State)
    requires |x| == 16
    ensures s == Operations(16, s0, x)
  {
    hide WordF, WordG, WordH, WordI, Mix, Operations, Op, F1;
    var a, b, c, d := s0.a, s0.b, s0.c, s0.d;
    NoOperations(s0, x);
    Quad(0, 0, s0, x, State(a, b, c, d));
    a := Op(a, b, F1(b, c, d), x[0], 7, W(0xd76aa478));
    d := Op(d, a, F1(a, b, c), x[1], 12, W(0xe8c7b756));
    c := Op(c, d, F1(d, a, b), x[2], 17, W(0x242070db));
    b := Op(b, c, F1(c, d, a), x[3], 22, W(0xc1bdceee));
    assert State(a, b, c, d) == Operations(4, s0, x);
    Quad(0, 4, s0, x, State(a, b, c, d));
    a := Op(a, b, F1(b, c, d), x[4], 7, W(0xf57c0faf));
    d := Op(d, a, F1(a, b, c), x[5], 12, W(0x4787c62a));
    c := Op(c, d, F1(d, a, b), x[6], 17, W(0xa8304613));
    b := Op(b, c, F1(c, d, a), x[7], 22, W(0xfd469501));
    assert State(a, b, c, d) == Operations(8, s0, x);
    Quad(0, 8, s0, x, State(a, b, c, d));
    a := Op(a, b, F1(b, c, d), x[8], 7, W(0x698098d8));
    d := Op(d, a, F1(a, b, c), x[9], 12, W(0x8b44f7af));
    c := Op(c, d, F1(d, a, b), x[10], 17, W(0xffff5bb1));
    b := Op(b, c, F1(c, d, a), x[11], 22, W(0x895cd7be));
    assert State(a, b, c, d) == Operations(12, s0, x);
    Quad(0, 12, s0, x, State(a, b, c, d));
    a := Op(a, b, F1(b, c, d), x[12], 7, W(0x6b901122));
    d := Op(d, a, F1(a, b, c), x[13], 12, W(0xfd987193));
    c := Op(c, d, F1(d, a, b), x[14], 17, W(0xa679438e));
    b := Op(b, c, F1(c, d, a), x[15], 22, W(0x49b40821));
    return State(a, b, c, d);
  }

  method Round2(s0: State, x: seq<Word>, s1: State) returns (s: State)
    requires |x| == 16 && s1 == Operations(16, s0, x)
    ensures s == Operations(32, s0, x)
  {
    hide WordF, WordG, WordH, WordI, Mix, Operations, Op, F2;
    var a, b, c, d := s1.a, s1.b, s1.c, s1.d;
    Quad(1, 0, s0, x, State(a, b, c, d));
    a := Op(a, b, F2(b, c, d), x[1], 5, W(0xf61e2562));
    d := Op(d, a, F2(a, b, c), x[6], 9, W(0xc040b340));
    c := Op(c, d, F2(d, a, b), x[11], 14, W(0x265e5a51));
    b := Op(b, c, F2(c, d, a), x[0], 20, W(0xe9b6c7aa));
    assert State(a, b, c, d) == Operations(20, s0, x);
    Quad(1, 4, s0, x, State(a, b, c, d));
    a := Op(a, b, F2(b, c, d), x[5], 5, W(0xd62f105d));
    d := Op(d, a, F2(a, b, c), x[10], 9, W(0x02441453));
    c := Op(c, d, F2(d, a, b), x[15], 14, W(0xd8a1e681));
    b := Op(b, c, F2(c, d, a), x[4], 20, W(0xe7d3fbc8));
    s := Round2Rest(s0, x, State(a, b, c, d));
  }

  /** Its second half. */
  method Round2Rest(s0: State, x: seq<Word>, s1: State) returns (s: State)
    requires |x| == 16 && s1 == Operations(24, s0, x)
    ensures s == Operations(32, s0, x)
  {
    hide WordF, WordG, WordH, WordI, Mix, Operations, Op, F2;
    var a, b, c, d := s1.a, s1.b, s1.c, s1.d;
    Quad(1, 8, s0, x, State(a, b, c, d));
    a := Op(a, b, F2(b, c, d), x[9], 5, W(0x21e1cde6));
    d := Op(d, a, F2(a, b, c), x[14], 9, W(0xc33707d6));
    c := Op(c, d, F2(d, a, b), x[3], 14, W(0xf4d50d87));
    b := Op(b, c, F2(c, d, a), x[8], 20, W(0x455a14ed));
    assert State(a, b, c, d) == Operations(28, s0, x);
    Quad(1, 12, s0, x, State(a, b, c, d));
    a := Op(a, b, F2(b, c, d), x[13], 5, W(0xa9e3e905));
    d := Op(d, a, F2(a, b, c), x[2], 9, W(0xfcefa3f8));
    c := Op(c, d, F2(d, a, b), x[7], 14, W(0x676f02d9));
    b := Op(b, c, F2(c, d, a), x[12], 20, W(0x8d2a4c8a));
    return State(a, b, c, d);
  }

  method Round3(s0: State, x: seq<Word>, s1: State) returns (s: State)
    requires |x| == 16 && s1 == Operations(32, s0, x)
    ensures s == Operations(48, s0, x)
  {
    hide WordF, WordG, WordH, WordI, Mix, Operations, Op, F3;
    var a, b, c, d := s1.a, s1.b, s1.c, s1.d;
    Quad(2, 0, s0, x, State(a, b, c, d));
    a := Op(a, b, F3(b, c, d), x[5], 4, W(0xfffa3942));
    d := Op(d, a, F3(a, b, c), x[8], 11, W(0x8771f681));
    c := Op(c, d, F3(d, a, b), x[11], 16, W(0x6d9d6122));
    b := Op(b, c, F3(c, d, a), x[14], 23, W(0xfde5380c));
    assert State(a, b, c, d) == Operations(36, s0, x);
    Quad(2, 4, s0, x, State(a, b, c, d));
    a := Op(a, b, F3(b, c, d), x[1], 4, W(0xa4beea44));
    d := Op(d, a, F3(a, b, c), x[4], 11, W(0x4bdecfa9));
    c := Op(c, d, F3(d, a, b), x[7], 16, W(0xf6bb4b60));
    b := Op(b, c, F3(c, d, a), x[10], 23, W(0xbebfbc70));
    s := Round3Rest(s0, x, State(a, b, c, d));
  }

  /** Its second half. */
  method Round3Rest(s0: State, x: seq<Word>, s1: State) returns (s: State)
    requires |x| == 16 && s1 == Operations(40, s0, x)
    ensures s == Operations(48, s0, x)
  {
    hide WordF, WordG, WordH, WordI, Mix, Operations, Op, F3;
    var a, b, c, d := s1.a, s1.b, s1.c, s1.d;
    Quad(2, 8, s0, x, State(a, b, c, d));
    a := Op(a, b, F3(b, c, d), x[13], 4, W(0x289b7ec6));
    d := Op(d, a, F3(a, b, c), x[0], 11, W(0xeaa127fa));
    c := Op(c, d, F3(d, a, b), x[3], 16, W(0xd4ef3085));
    b := Op(b, c, F3(c, d, a), x[6], 23, W(0x04881d05));
    assert State(a, b, c, d) == Operations(44, s0, x);
    Quad(2, 12, s0, x, State(a, b, c, d));
    a := Op(a, b, F3(b, c, d), x[9], 4, W(0xd9d4d039));
    d := Op(d, a, F3(a, b, c), x[12], 11, W(0xe6db99e5));
    c := Op(c, d, F3(d, a, b), x[15], 16, W(0x1fa27cf8));
    b := Op(b, c, F3(c, d, a), x[2], 23, W(0xc4ac5665));
    return State(a, b, c, d);
  }

  method Round4(s0: State, x: seq<Word>, s1: State) returns (s: State)
    requires |x| == 16 && s1 == Operations(48, s0, x)
    ensures s == Operations(64, s0, x)
  {
    hide WordF, WordG, WordH, WordI, Mix, Operations, Op, F4;
    var a, b, c, d := s1.a, s1.b, s1.c, s1.d;
    Quad(3, 0, s0, x, State(a, b, c, d));
    a := Op(a, b, F4(b, c, d), x[0], 6, W(0xf4292244));
    d := Op(d, a, F4(a, b, c), x[7], 10, W(0x432aff97));
    c := Op(c, d, F4(d, a, b), x[14], 15, W(0xab9423a7));
    b := Op(b, c, F4(c, d, a), x[5], 21, W(0xfc93a039));
    assert State(a, b, c, d) == Operations(52, s0, x);
    Quad(3, 4, s0, x, State(a, b, c, d));
    a := Op(a, b, F4(b, c, d), x[12], 6, W(0x655b59c3));
    d := Op(d, a, F4(a, b, c), x[3], 10, W(0x8f0ccc92));
    c := Op(c, d, F4(d, a, b), x[10], 15, W(0xffeff47d));
    b := Op(b, c, F4(c, d, a), x[1], 21, W(0x85845dd1));
    s := Round4Rest(s0, x, State(a, b, c, d));
  }

  /** Its second half. */
  method Round4Rest(s0: State, x: seq<Word>, s1: State) returns (s: State)
    requires |x| == 16 && s1 == Operations(56, s0, x)
    ensures s == Operations(64, s0, x)
  {
    hide WordF, WordG, WordH, WordI, Mix, Operations, Op, F4;
    var a, b, c, d := s1.a, s1.b, s1.c, s1.d;
    Quad(3, 8, s0, x, State(a, b, c, d));
    a := Op(a, b, F4(b, c, d), x[8], 6, W(0x6fa87e4f));
    d := Op(d, a, F4(a, b, c), x[15], 10, W(0xfe2ce6e0));
    c := Op(c, d, F4(d, a, b), x[6], 15, W(0xa3014314));
    b := Op(b, c, F4(c, d, a), x[13], 21, W(0x4e0811a1));
    assert State(a, b, c, d) == Operations(60, s0, x);
    Quad(3, 12, s0, x, State(a, b, c, d));
    a := Op(a, b, F4(b, c, d), x[4], 6, W(0xf7537e82));
    d := Op(d, a, F4(a, b, c), x[11], 10, W(0xbd3af235));
    c := Op(c, d, F4(d, a, b), x[2], 15, W(0x2ad7d2bb));
    b := Op(b, c, F4(c, d, a), x[9], 21, W(0xeb86d391));
    return State(a, b, c, d);
  }

  /** MD5Transform */
  method Transform(s: State, block: seq<bv8>) returns (t: State)
    requires |block| == 64
    ensures t == Compress(s, block)
  {
    hide Operations;
    var x := Words(block);
    var r := Round1(s, x);
    r := Round2(s, x, r);
    r := Round3(s, x, r);
    r := Round4(s, x, r);
    t := Add(s, r);
  }

  lemma {:induction false} RawOctets(x0: bv32, x1: bv32, x2: bv32, x3: bv32)
    requires x0 < 0x100 && x1 < 0x100 && x2 < 0x100 && x3 < 0x100
    ensures var v := (((x3 << 8) | x2) << 16) | ((x1 << 8) | x0);
            v & 0xff == x0 && (v >> 8) & 0xff == x1 && (v >> 16) & 0xff == x2 && (v >> 24) & 0xff == x3
  {}

  lemma {:induction false} SameOctet(x: bv32, b: bv8)
    requires x & 0xff == b as bv32
    ensures Octet(x) == b
  {}

  lemma {:induction false} FirstOctet(b0: bv8, b1: bv8, b2: bv8, b3: bv8)
    ensures var v := FromBytes(b0, b1, b2, b3).v; Octet(v) == b0
  {
    hide Octet;
    var v := FromBytes(b0, b1, b2, b3).v;
    RawOctets(b0 as bv32, b1 as bv32, b2 as bv32, b3 as bv32);
    SameOctet(v, b0);
  }

  lemma {:induction false} SecondOctet(b0: bv8, b1: bv8, b2: bv8, b3: bv8)
    ensures var v := FromBytes(b0, b1, b2, b3).v; Octet(v >> 8) == b1
  {
    hide Octet;
    var v := FromBytes(b0, b1, b2, b3).v;
    RawOctets(b0 as bv32, b1 as bv32, b2 as bv32, b3 as bv32);
    SameOctet(v >> 8, b1);
  }

  lemma {:induction false} ThirdOctet(b0: bv8, b1: bv8, b2: bv8, b3: bv8)
    ensures var v := FromBytes(b0, b1, b2, b3).v; Octet(v >> 16) == b2
  {
    hide Octet;
    var v := FromBytes(b0, b1, b2, b3).v;
    RawOctets(b0 as bv32, b1 as bv32, b2 as bv32, b3 as bv32);
    SameOctet(v >> 16, b2);
  }

  lemma {:induction false} FourthOctet(b0: bv8, b1: bv8, b2: bv8, b3: bv8)
    ensures var v := FromBytes(b0, b1, b2, b3).v; Octet(v >> 24) == b3
  {
    hide Octet;
    var v := FromBytes(b0, b1, b2, b3).v;
    RawOctets(b0 as bv32, b1 as bv32, b2 as bv32, b3 as bv32);
    SameOctet(v >> 24, b3);
  }

  /** A word rebuilt from four bytes and stored by a little-endian host gives the same bytes. */
  lemma {:induction false} ByteReverseHarmless(b0: bv8, b1: bv8, b2: bv8, b3: bv8)
    ensures WordBytes(FromBytes(b0, b1, b2, b3)) == [b0, b1, b2, b3]
  {
    hide Octet, FromBytes;
    FirstOctet(b0, b1, b2, b3);
    SecondOctet(b0, b1, b2, b3);
    ThirdOctet(b0, b1, b2, b3);
    FourthOctet(b0, b1, b2, b3);
  }

  /** byteReverse: harmless, as its comment says, on little-endian machines. */
  method ByteReverse(buf: array<bv8>, longs: nat)
    requires 4 * longs <= buf.Length
    modifies buf
    ensures buf[..] == old(buf[..])
  {
    for i := 0 to longs
      invariant buf[..] == old(buf[..])
    {
      hide WordBytes, FromBytes;
      var w := FromBytes(buf[4 * i], buf[4 * i + 1], buf[4 * i + 2], buf[4 * i + 3]);
      ByteReverseHarmless(buf[4 * i], buf[4 * i + 1], buf[4 * i + 2], buf[4 * i + 3]);
      var t := WordBytes(w);
      buf[4 * i], buf[4 * i + 1], buf[4 * i + 2], buf[4 * i + 3] := t[0], t[1], t[2], t[3];
    }
  }

  /** The bit counter's update: low word with carry, then the bits shifted out of it. */
  method AddBits(bits0: nat, bits1: nat, len: nat) returns (low: nat, high: nat)
    requires bits0 < TWO32 && bits1 < TWO32 && len < TWO32
    ensures low < TWO32 && high < TWO32
    ensures Count(low, high) == Wrap64(Count(bits0, bits1) + 8 * len)
  {
    hide Wrap32, Wrap64;
    var over := len / 0x2000_0000;
    ghost var kept := len % 0x2000_0000 * 8;
    assert len * 8 == over * TWO32 + kept;
    Split32(over, kept);
    CarryInto(bits0, bits1, kept, over);
    low := Wrap32(bits0 + Wrap32(len * 8));
    high := bits1;
    if low < bits0 {
      high := Wrap32(high + 1);
      WrapTwice(bits1 + 1, over);
    }
    high := Wrap32(high + over);
  }

  lemma {:induction false} WrapTwice(a: nat, b: nat)
    ensures Wrap32(Wrap32(a) + b) == Wrap32(a + b)
  {}

  /** (bits0 >> 3) & 0x3f is the number of bytes waiting. */
  lemma {:induction false} BytesWaiting(low: nat, high: nat, n: nat)
    requires low < TWO32 && high < TWO32 && Count(low, high) == Wrap64(8 * n)
    ensures low / 8 % 64 == n % 64
  {
    hide Count, Wrap64, Wrap32;
    CountWords(low, high, 8 * n);
    var l, k := n % 0x2000_0000, n / 0x2000_0000;
    assert 8 * n == k * TWO32 + 8 * l;
    Split32(k, 8 * l);
    assert n == 64 * (k * 0x80_0000) + l;
    Mod64(k * 0x80_0000, l);
  }

  lemma {:induction false} Mod64(k: nat, l: nat)
    ensures (64 * k + l) % 64 == l % 64
  {}

  lemma {:induction false} WaitingAfter(low: nat, high: nat, done: nat, more: nat)
    requires low < TWO32 && high < TWO32 && done % 64 == 0
    requires Count(low, high) == Wrap64(8 * (done + more))
    ensures low / 8 % 64 == more % 64
  {
    hide Count, Wrap64;
    BytesWaiting(low, high, done + more);
    Mod64(done / 64, more);
  }

  lemma {:induction false} BitSum(n: nat, len: nat)
    ensures Wrap64(Wrap64(8 * n) + 8 * len) == Wrap64(8 * (n + len))
  {
    hide Wrap64;
    SumMod(8 * n, 8 * len);
    assert 8 * (n + len) == 8 * n + 8 * len;
  }

  lemma {:induction false} ZerosConcat(a: nat, b: nat)
    ensures Zeros(a) + Zeros(b) == Zeros(a + b)
  {}

  class Context {
    var state: State
    var bits0: nat
    var bits1: nat
    const input: array<bv8>
    ghost var done: seq<bv8>

    /** `done` has been compressed into the state. */
    ghost predicate Chained()
      reads this
    {
      input.Length == 64 && |done| % 64 == 0 && state == Fold(IV, done)
    }

    ghost predicate Counted(n: nat)
      reads this
    {
      bits0 < TWO32 && bits1 < TWO32 && Count(bits0, bits1) == Wrap64(8 * n)
    }

    ghost predicate Valid()
      reads this
    {
      Chained() && Counted(|done| + bits0 / 8 % 64)
    }

    /** The message so far. */
    ghost function Msg(): seq<bv8>
      reads this, input
      requires Valid()
    {
      done + input[..bits0 / 8 % 64]
    }

    /** MD5Init */
    constructor ()
      ensures Valid() && Msg() == [] && fresh(input)
    {
      NoBlocks(IV);
      state, bits0, bits1 := IV, 0, 0;
      input := new bv8[64];
      done := [];
    }

    /** memcpy into the context's buffer. */
    method Copy(at: nat, data: seq<bv8>)
      requires input.Length == 64 && at + |data| <= 64
      modifies input
      ensures input[..at + |data|] == old(input[..at]) + data
      ensures input[at + |data|..] == old(input[at + |data|..])
    {
      forall i | 0 <= i < |data| { input[at + i] := data[i]; }
      assert input[..at + |data|] == input[..at] + input[at..at + |data|];
    }

    /** byteReverse and MD5Transform on the full buffer. */
    method CompressInput()
      requires Chained()
      modifies this`state, this`done, input
      ensures Chained() && done == old(done + input[..]) && input[..] == old(input[..])
    {
      hide Fold, Compress;
      ByteReverse(input, 16);
      FoldConcat(IV, done, input[..]);
      FoldBlock(state, input[..]);
      state := Transform(state, input[..]);
      done := done + input[..];
    }

    /** The chunk loop of MD5Update and the copy of what remains. */
    method Chunks(data: seq<bv8>)
      requires Chained()
      modifies this`state, this`done, input
      ensures Chained()
      ensures done + input[..|data| % 64] == old(done) + data
    {
      hide Fold;
      var i := 0;
      while |data| - i >= 64
        invariant Chained() && i <= |data| && i % 64 == 0
        invariant done == old(done) + data[..i]
      {
        Copy(0, data[i..i + 64]);
        assert input[..] == data[i..i + 64];
        CompressInput();
        assert data[..i] + data[i..i + 64] == data[..i + 64];
        i := i + 64;
      }
      Copy(0, data[i..]);
      assert |data| % 64 == |data| - i;
      assert data[..i] + data[i..] == data;
    }

    /** The data part of MD5Update, with t bytes already waiting. */
    method Place(t: nat, data: seq<bv8>)
      requires Chained() && t < 64
      modifies this`state, this`done, input
      ensures Chained()
      ensures done + input[..(t + |data|) % 64] == old(done + input[..t]) + data
    {
      hide Fold;
      ghost var held := input[..t];
      var rest := data;
      if t != 0 {
        if |data| < 64 - t {
          assert (t + |data|) % 64 == t + |data|;
          Copy(t, data);
          return;
        }
        Copy(t, data[..64 - t]);
        assert input[..] == input[..64];
        CompressInput();
        rest := data[64 - t..];
        assert data == data[..64 - t] + rest;
        assert (t + |data|) % 64 == |rest| % 64;
      }
      assert done + rest == old(done) + held + data;
      Chunks(rest);
    }

    /** MD5Update */
    method Update(data: seq<bv8>)
      requires Valid() && |data| < TWO32
      modifies this, input
      ensures Valid() && Msg() == old(Msg()) + data
    {
      hide Fold, Count, Wrap64;
      var t := bits0 / 8 % 64;
      CountMore(t, |data|);
      bits0, bits1 := AddBits(bits0, bits1, |data|);
      ghost var n := |done| + t + |data|;
      WaitingAfter(bits0, bits1, |done|, t + |data|);
      Place(t, data);
      assert |done| + (t + |data|) % 64 == n;
    }

    lemma CountMore(t: nat, len: nat)
      requires Counted(|done| + t)
      ensures Wrap64(Count(bits0, bits1) + 8 * len) == Wrap64(8 * (|done| + t + len))
    {
      hide Wrap64;
      BitSum(|done| + t, len);
    }

    /** The start of MD5Final: the one bit and the zeros up to 56 bytes of the last block. */
    method PadTo56(count: nat)
      requires Chained() && count < 64
      modifies this`state, this`done, input
      ensures Chained()
      ensures done + input[..56]
           == old(done + input[..count]) + [0x80] + Zeros(if count >= 56 then 119 - count else 55 - count)
    {
      hide Fold, Zeros;
      Copy(count, [0x80]);
      if 63 - count < 8 {
        Copy(count + 1, Zeros(63 - count));
        ZerosConcat(63 - count, 56);
        assert input[..] == input[..64];
        CompressInput();
        Copy(0, Zeros(56));
      } else {
        Copy(count + 1, Zeros(55 - count));
      }
      ByteReverse(input, 14);
    }

    /** Its end: the bit count in the last two words, and the last transform. */
    method AppendLength()
      requires Chained()
      modifies this`state, this`done, input
      ensures Chained()
      ensures done == old(done + input[..56]) + (LowFirst(bits0) + LowFirst(bits1))
    {
      hide Fold, LowFirst;
      Copy(56, LowFirst(bits0));
      Copy(60, LowFirst(bits1));
      assert input[..] == input[..64];
      CompressInput();
    }

    /** MD5Final */
    method Final() returns (digest: seq<bv8>)
      requires Valid()
      modifies this, input
      ensures digest == Digest(old(Msg()))
    {
      hide Fold, Count, LowFirst, StateBytes, Zeros, Wrap64, LengthField;
      ghost var m := Msg();
      var count := bits0 / 8 % 64;
      LengthIs(bits0, bits1, |m|);
      PadLength(|m|, count);
      PadTo56(count);
      AppendLength();
      assert done == m + [0x80] + Zeros((55 - |m|) % 64) + LengthField(|m|) == m + Padding(|m|);
      digest := StateBytes(state);
    }
  }

  /** For every split of the message into update calls the result is the RFC 1321 digest. */
  method DigestOf(chunks: seq<seq<bv8>>) returns (digest: seq<bv8>)
    requires forall c :: c in chunks ==> |c| < TWO32
    ensures digest == Digest(Flatten(chunks))
  {
    hide Digest;
    var ctx := new Context();
    for i := 0 to |chunks|
      invariant fresh(ctx) && fresh(ctx.input) && ctx.Valid()
      invariant ctx.Msg() == Flatten(chunks[..i])
    {
      ctx.Update(chunks[i]);
      assert chunks[..i + 1][..i] == chunks[..i];
    }
    assert chunks[..|chunks|] == chunks;
    digest := ctx.Final();
  }

  /** The two implementations agree on every message, however each splits it. */
  method ImplementationsAgree(a: seq<seq<bv8>>, b: seq<seq<bv8>>) returns (gnu: seq<bv8>, plumb: seq<bv8>)
    requires forall c :: c in a ==> |c| < TWO32
    requires forall c :: c in b ==> |c| < TWO32
    requires Flatten(a) == Flatten(b)
    ensures gnu == plumb && |gnu| == 16
  {
    gnu := GnuMd5.DigestOf(a);
    plumb := DigestOf(b);
  }
}
