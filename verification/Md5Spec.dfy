/** MD5 as section 3 of RFC 1321 defines it: the reference that both implementations refine. */
module Md5Spec {

  /** A 32-bit machine word. */
  datatype Word = W(v: bv32)


  // ----- section 3.4: the four auxiliary functions, as the RFC writes them

  function F(x: bv32, y: bv32, z: bv32): bv32 { (x & y) | (!x & z) }
  function G(x: bv32, y: bv32, z: bv32): bv32 { (x & z) | (y & !z) }
  function H(x: bv32, y: bv32, z: bv32): bv32 { x ^ y ^ z }
  function I(x: bv32, y: bv32, z: bv32): bv32 { y ^ (x | !z) }

  function WordF(x: Word, y: Word, z: Word): Word { W(F(x.v, y.v, z.v)) }
  function WordG(x: Word, y: Word, z: Word): Word { W(G(x.v, y.v, z.v)) }
  function WordH(x: Word, y: Word, z: Word): Word { W(H(x.v, y.v, z.v)) }
  function WordI(x: Word, y: Word, z: Word): Word { W(I(x.v, y.v, z.v)) }

  /** The function of round r, counting rounds from zero. */
  function Aux(r: nat, x: Word, y: Word, z: Word): Word {
    if r == 0 then WordF(x, y, z) else if r == 1 then WordG(x, y, z)
    else if r == 2 then WordH(x, y, z) else WordI(x, y, z)
  }

  function Pick(j: nat, a: Word, b: Word, c: Word, d: Word): Word {
    if j == 0 then a else if j == 1 then b else if j == 2 then c else d
  }

  /** T[i+1], the integer part of 4294967296 times abs(sin(i+1)): four rows for each round. */
  function FirstSines(j: nat): Word {
    if j < 4 then Pick(j % 4, W(0xd76aa478), W(0xe8c7b756), W(0x242070db), W(0xc1bdceee))
    else if j < 8 then Pick(j % 4, W(0xf57c0faf), W(0x4787c62a), W(0xa8304613), W(0xfd469501))
    else if j < 12 then Pick(j % 4, W(0x698098d8), W(0x8b44f7af), W(0xffff5bb1), W(0x895cd7be))
    else Pick(j % 4, W(0x6b901122), W(0xfd987193), W(0xa679438e), W(0x49b40821))
  }

  function SecondSines(j: nat): Word {
    if j < 4 then Pick(j % 4, W(0xf61e2562), W(0xc040b340), W(0x265e5a51), W(0xe9b6c7aa))
    else if j < 8 then Pick(j % 4, W(0xd62f105d), W(0x02441453), W(0xd8a1e681), W(0xe7d3fbc8))
    else if j < 12 then Pick(j % 4, W(0x21e1cde6), W(0xc33707d6), W(0xf4d50d87), W(0x455a14ed))
    else Pick(j % 4, W(0xa9e3e905), W(0xfcefa3f8), W(0x676f02d9), W(0x8d2a4c8a))
  }

  function ThirdSines(j: nat): Word {
    if j < 4 then Pick(j % 4, W(0xfffa3942), W(0x8771f681), W(0x6d9d6122), W(0xfde5380c))
    else if j < 8 then Pick(j % 4, W(0xa4beea44), W(0x4bdecfa9), W(0xf6bb4b60), W(0xbebfbc70))
    else if j < 12 then Pick(j % 4, W(0x289b7ec6), W(0xeaa127fa), W(0xd4ef3085), W(0x04881d05))
    else Pick(j % 4, W(0xd9d4d039), W(0xe6db99e5), W(0x1fa27cf8), W(0xc4ac5665))
  }

  function FourthSines(j: nat): Word {
    if j < 4 then Pick(j % 4, W(0xf4292244), W(0x432aff97), W(0xab9423a7), W(0xfc93a039))
    else if j < 8 then Pick(j % 4, W(0x655b59c3), W(0x8f0ccc92), W(0xffeff47d), W(0x85845dd1))
    else if j < 12 then Pick(j % 4, W(0x6fa87e4f), W(0xfe2ce6e0), W(0xa3014314), W(0x4e0811a1))
    else Pick(j % 4, W(0xf7537e82), W(0xbd3af235), W(0x2ad7d2bb), W(0xeb86d391))
  }

  function Sine(r: nat, j: nat): Word {
    if r == 0 then FirstSines(j) else if r == 1 then SecondSines(j)
    else if r == 2 then ThirdSines(j) else FourthSines(j)
  }

  /** The message word used by operation j of round r, and its rotation. */
  function Index(r: nat, j: nat): (k: nat)
    requires j < 16
    ensures k < 16
  {
    if r == 0 then j else if r == 1 then (5 * j + 1) % 16
    else if r == 2 then (3 * j + 5) % 16 else 7 * j % 16
  }

  function PickShift(j: nat, a: nat, b: nat, c: nat, d: nat): nat {
    if j == 0 then a else if j == 1 then b else if j == 2 then c else d
  }

  function Shift(r: nat, j: nat): (s: nat)
    ensures 0 < s < 32
  {
    if r == 0 then PickShift(j % 4, 7, 12, 17, 22) else if r == 1 then PickShift(j % 4, 5, 9, 14, 20)
    else if r == 2 then PickShift(j % 4, 4, 11, 16, 23) else PickShift(j % 4, 6, 10, 15, 21)
  }

  function Rotate(x: Word, s: nat): Word
    requires 0 < s < 32
  {
    W((x.v << s) | (x.v >> (32 - s)))
  }

  datatype State = State(a: Word, b: Word, c: Word, d: Word)

  const IV := State(W(0x67452301), W(0xefcdab89), W(0x98badcfe), W(0x10325476))

  /** b + ((a + f + w + t) <<< s) */
  function Mix(a: Word, b: Word, f: Word, w: Word, s: nat, t: Word): Word
    requires 0 < s < 32
  {
    W(b.v + Rotate(W(a.v + f.v + w.v + t.v), s).v)
  }

  /** The register written by operation j of round r. */
  function NewValue(r: nat, j: nat, a: Word, b: Word, c: Word, d: Word, x: seq<Word>): Word
    requires |x| == 16 && j < 16
  {
    Mix(a, b, Aux(r, b, c, d), x[Index(r, j)], Shift(r, j), Sine(r, j))
  }

  /** a = b + ((a + f(b,c,d) + X[k] + T[i]) <<< s), after which the registers move one place. */
  function Operation(r: nat, j: nat, s: State, x: seq<Word>): State
    requires |x| == 16 && j < 16
  {
    State(s.d, NewValue(r, j, s.a, s.b, s.c, s.d, x), s.b, s.c)
  }

  function Operations(n: nat, s: State, x: seq<Word>): State
    requires |x| == 16
    decreases n
  {
    if n == 0 then s else Operation((n - 1) / 16, (n - 1) % 16, Operations(n - 1, s, x), x)
  }

  // ----- blocks of bytes

  function FromBytes(b0: bv8, b1: bv8, b2: bv8, b3: bv8): Word {
    W(((((b3 as bv32) << 8) | (b2 as bv32)) << 16) | (((b1 as bv32) << 8) | (b0 as bv32)))
  }

  function Words(block: seq<bv8>): (x: seq<Word>)
    requires |block| == 64
    ensures |x| == 16
  {
    seq(16, j requires 0 <= j < 16 => FromBytes(block[4 * j], block[4 * j + 1], block[4 * j + 2], block[4 * j + 3]))
  }

  function Add(s: State, t: State): State {
    State(W(s.a.v + t.a.v), W(s.b.v + t.b.v), W(s.c.v + t.c.v), W(s.d.v + t.d.v))
  }

  function Compress(s: State, block: seq<bv8>): State
    requires |block| == 64
  {
    var x := Words(block);
    Add(s, Operations(4 * |x|, s, x))
  }

  /** The state after every whole block of data. */
  function Fold(s: State, data: seq<bv8>): State
    decreases |data|
  {
    if |data| < 64 then s else Fold(Compress(s, data[..64]), data[64..])
  }

  // ----- sections 3.1, 3.2 and 3.5: padding, length and output

  /** A number below 2^32 as four bytes, low-order byte first. */
  function LowFirst(n: nat): (s: seq<bv8>)
    ensures |s| == 4
  {
    [(n % 256) as bv8, (n / 0x100 % 256) as bv8, (n / 0x1_0000 % 256) as bv8, (n / 0x100_0000 % 256) as bv8]
  }

  function Zeros(n: nat): (s: seq<bv8>)
    ensures |s| == n
  {
    seq(n, i => 0)
  }

  const TWO32 := 0x1_0000_0000
  const TWO64 := 0x1_0000_0000_0000_0000

  function Wrap32(n: nat): (r: nat)
    ensures r < TWO32
  {
    n % TWO32
  }

  function Wrap64(n: nat): (r: nat)
    ensures r < TWO64
  {
    n % TWO64
  }

  /** The length in bits, modulo 2^64, as two words with the low-order word first. */
  function LengthField(n: nat): (s: seq<bv8>)
    ensures |s| == 8
  {
    LowFirst(Wrap32(8 * n)) + LowFirst(Wrap64(8 * n) / TWO32)
  }

  lemma {:induction false} PaddingFills(n: nat)
    ensures (n + (1 + (55 - n) % 64 + 8)) % 64 == 0
  {}

  /** What is appended after n message bytes: a one bit, zeros up to 56 modulo 64, and the
      length. */
  function Padding(n: nat): (p: seq<bv8>)
    ensures (n + |p|) % 64 == 0
  {
    hide LengthField, Zeros;
    PaddingFills(n);
    [0x80] + Zeros((55 - n) % 64) + LengthField(n)
  }

  function Octet(x: bv32): (b: bv8)
    ensures b as bv32 == x & 0xff
  {
    (x & 0xff) as bv8
  }

  function WordBytes(w: Word): (s: seq<bv8>)
    ensures |s| == 4
  {
    [Octet(w.v), Octet(w.v >> 8), Octet(w.v >> 16), Octet(w.v >> 24)]
  }

  function StateBytes(s: State): (d: seq<bv8>)
    ensures |d| == 16
  {
    WordBytes(s.a) + WordBytes(s.b) + WordBytes(s.c) + WordBytes(s.d)
  }

  function Digest(m: seq<bv8>): (d: seq<bv8>)
    ensures |d| == 16
  {
    StateBytes(Fold(IV, m + Padding(|m|)))
  }

  // ----- facts shared by the two implementations

  /** The cheaper way to write F and G that both implementations use. */
  lemma {:induction false} CheaperF(x: bv32, y: bv32, z: bv32)
    ensures F(x, y, z) == z ^ (x & (y ^ z))
  {
    assert (x & y) | (!x & z) == z ^ (x & (y ^ z));
  }

  lemma {:induction false} CheaperG(x: bv32, y: bv32, z: bv32)
    ensures G(x, y, z) == y ^ (z & (x ^ y))
  {
    assert (x & z) | (y & !z) == y ^ (z & (x ^ y));
  }

  lemma {:induction false} PlainH(x: bv32, y: bv32, z: bv32)
    ensures H(x, y, z) == x ^ y ^ z
  {}

  lemma {:induction false} NoOperations(s: State, x: seq<Word>)
    requires |x| == 16
    ensures Operations(0, s, x) == s
  {}

  lemma {:induction false} FoldConcat(s: State, a: seq<bv8>, b: seq<bv8>)
    requires |a| % 64 == 0
    ensures Fold(s, a + b) == Fold(Fold(s, a), b)
    decreases |a|
  {
    hide Compress;
    if a == [] {
      assert a + b == b;
    } else {
      assert (a + b)[..64] == a[..64] && (a + b)[64..] == a[64..] + b;
      assert |a[64..]| % 64 == 0;
      FoldConcat(Compress(s, a[..64]), a[64..], b);
    }
  }

  lemma {:induction false} NoBlocks(s: State)
    ensures Fold(s, []) == s
  {}

  lemma {:induction false} FoldBlock(s: State, block: seq<bv8>)
    requires |block| == 64
    ensures Fold(s, block) == Compress(s, block)
  {
    hide Compress;
    assert block[..64] == block && block[64..] == [];
  }

  lemma {:induction false} Position(r: nat, j: nat)
    requires j < 16
    ensures (16 * r + j) / 16 == r && (16 * r + j) % 16 == j
  {}

  /** Four operations bring every register back to its own place. */
  lemma {:induction false} Quad(r: nat, j: nat, s0: State, x: seq<Word>, s: State)
    requires |x| == 16 && j <= 12 && s == Operations(16 * r + j, s0, x)
    ensures var a := NewValue(r, j, s.a, s.b, s.c, s.d, x);
            var d := NewValue(r, j + 1, s.d, a, s.b, s.c, x);
            var c := NewValue(r, j + 2, s.c, d, a, s.b, x);
            var b := NewValue(r, j + 3, s.b, c, d, a, x);
            Operations(16 * r + j + 4, s0, x) == State(a, b, c, d)
  {
    hide NewValue;
    var i := 16 * r + j;
    Position(r, j);
    Position(r, j + 1);
    Position(r, j + 2);
    Position(r, j + 3);
    assert Operations(i + 2, s0, x) == Operation(r, j + 1, Operation(r, j, s, x), x);
    assert Operations(i + 4, s0, x) == Operation(r, j + 3, Operation(r, j + 2, Operations(i + 2, s0, x), x), x);
  }

  // ----- counters kept as two 32-bit words

  function Count(low: nat, high: nat): nat {
    high * TWO32 + low
  }

  lemma {:induction false} SumMod(a: nat, b: nat)
    ensures Wrap64(Wrap64(a) + b) == Wrap64(a + b)
  {}

  lemma {:induction false} Split32(q: nat, r: nat)
    requires r < TWO32
    ensures Wrap32(q * TWO32 + r) == r && (q * TWO32 + r) / TWO32 == q
  {}

  lemma {:induction false} Split64(q: nat, r: nat)
    requires r < TWO64
    ensures Wrap64(q * TWO64 + r) == r
  {}

  lemma {:induction false} Carry(x: nat)
    requires x < 2 * TWO32
    ensures Wrap32(x) == if x >= TWO32 then x - TWO32 else x
  {}

  /** Adding to the low word and carrying into the high one, modulo 2^64. */
  lemma {:induction false} CarryInto(low0: nat, high0: nat, add: nat, over: nat)
    requires low0 < TWO32 && high0 < TWO32 && add < TWO32 && over + 1 < TWO32
    ensures var carry := if Wrap32(low0 + add) < low0 then 1 else 0;
            Count(Wrap32(low0 + add), Wrap32(high0 + carry + over))
            == Wrap64(Count(low0, high0) + over * TWO32 + add)
  {
    hide Wrap32, Wrap64;
    Carry(low0 + add);
    var carry := if Wrap32(low0 + add) < low0 then 1 else 0;
    Carry(high0 + carry + over);
    var wrapped := if high0 + carry + over >= TWO32 then 1 else 0;
    var c := Count(Wrap32(low0 + add), Wrap32(high0 + carry + over));
    assert Count(low0, high0) + over * TWO32 + add == wrapped * TWO64 + c;
    Split64(wrapped, c);
  }

  lemma {:induction false} CountWords(low: nat, high: nat, n: nat)
    requires low < TWO32 && high < TWO32 && Count(low, high) == Wrap64(n)
    ensures low == Wrap32(n) && high == Wrap64(n) / TWO32
  {
    var q := n / TWO64;
    assert n == (q * TWO32 + high) * TWO32 + low;
    Split32(q * TWO32 + high, low);
    Split32(high, low);
  }

  lemma {:induction false} LengthIs(low: nat, high: nat, n: nat)
    requires low < TWO32 && high < TWO32 && Count(low, high) == Wrap64(8 * n)
    ensures LengthField(n) == LowFirst(low) + LowFirst(high)
  {
    hide Wrap32, Wrap64, LowFirst;
    CountWords(low, high, 8 * n);
  }

  lemma {:induction false} PadLength(n: nat, bytes: nat)
    requires bytes <= 64 && bytes <= n && (n - bytes) % 64 == 0
    ensures (55 - n) % 64 == if bytes >= 56 then 119 - bytes else 55 - bytes
  {}
}
