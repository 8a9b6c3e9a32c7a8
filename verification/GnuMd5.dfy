/** The GNU MD5 of ez-ipupdate: input is buffered lazily, so that up to a whole block may wait in a
    128-byte buffer.  Proved to compute the digest of RFC 1321 for every split of the input. */
module GnuMd5 {
  import opened Chunks
  import opened Md5Spec

  function FF(b: Word, c: Word, d: Word): (r: Word)
    ensures r == WordF(b, c, d)
  {
    hide F;
    CheaperF(b.v, c.v, d.v);
    W(d.v ^ (b.v & (c.v ^ d.v)))
  }

  /** FF (d, b, c) */
  function FG(b: Word, c: Word, d: Word): (r: Word)
    ensures r == WordG(b, c, d)
  {
    hide G;
    CheaperG(b.v, c.v, d.v);
    W(c.v ^ (d.v & (b.v ^ c.v)))
  }

  function FH(b: Word, c: Word, d: Word): (r: Word)
    ensures r == WordH(b, c, d)
  {
    hide H;
    PlainH(b.v, c.v, d.v);
    W(b.v ^ c.v ^ d.v)
  }

  function FI(b: Word, c: Word, d: Word): (r: Word)
    ensures r == WordI(b, c, d)
  {
    W(c.v ^ (b.v | !d.v))
  }

  lemma {:induction false} Sums(a: bv32, f: bv32, w: bv32, t: bv32)
    ensures a + (f + w + t) == a + f + w + t
  {}

  /** One OP of the source: a += f + w + T; CYCLIC (a, s); a += b. */
  function Op(a: Word, b: Word, f: Word, w: Word, s: nat, t: Word): (r: Word)
    requires 0 < s < 32
    ensures r == Mix(a, b, f, w, s, t)
  {
    Sums(a.v, f.v, w.v, t.v);
    W(Rotate(W(a.v + (f.v + w.v + t.v)), s).v + b.v)
  }

  method Round1(s0: State, x: seq<Word>) returns (s: State)
    requires |x| == 16
    ensures s == Operations(16, s0, x)
  {
    hide WordF, WordG, WordH, WordI, Mix, Operations, Op, FF;
    var a, b, c, d := s0.a, s0.b, s0.c, s0.d;
    NoOperations(s0, x);
    Quad(0, 0, s0, x, State(a, b, c, d));
    a := Op(a, b, FF(b, c, d), x[0], 7, W(0xd76aa478));
    d := Op(d, a, FF(a, b, c), x[1], 12, W(0xe8c7b756));
    c := Op(c, d, FF(d, a, b), x[2], 17, W(0x242070db));
    b := Op(b, c, FF(c, d, a), x[3], 22, W(0xc1bdceee));
    assert State(a, b, c, d) == Operations(4, s0, x);
    Quad(0, 4, s0, x, State(a, b, c, d));
    a := Op(a, b, FF(b, c, d), x[4], 7, W(0xf57c0faf));
    d := Op(d, a, FF(a, b, c), x[5], 12, W(0x4787c62a));
    c := Op(c, d, FF(d, a, b), x[6], 17, W(0xa8304613));
    b := Op(b, c, FF(c, d, a), x[7], 22, W(0xfd469501));
    assert State(a, b, c, d) == Operations(8, s0, x);
    Quad(0, 8, s0, x, State(a, b, c, d));
    a := Op(a, b, FF(b, c, d), x[8], 7, W(0x698098d8));
    d := Op(d, a, FF(a, b, c), x[9], 12, W(0x8b44f7af));
    c := Op(c, d, FF(d, a, b), x[10], 17, W(0xffff5bb1));
    b := Op(b, c, FF(c, d, a), x[11], 22, W(0x895cd7be));
    assert State(a, b, c, d) == Operations(12, s0, x);
    Quad(0, 12, s0, x, State(a, b, c, d));
    a := Op(a, b, FF(b, c, d), x[12], 7, W(0x6b901122));
    d := Op(d, a, FF(a, b, c), x[13], 12, W(0xfd987193));
    c := Op(c, d, FF(d, a, b), x[14], 17, W(0xa679438e));
    b := Op(b, c, FF(c, d, a), x[15], 22, W(0x49b40821));
    return State(a, b, c, d);
  }

  method Round2(s0: State, x: seq<Word>, s1: State) returns (s: State)
    requires |x| == 16 && s1 == Operations(16, s0, x)
    ensures s == Operations(32, s0, x)
  {
    hide WordF, WordG, WordH, WordI, Mix, Operations, Op, FG;
    var a, b, c, d := s1.a, s1.b, s1.c, s1.d;
    Quad(1, 0, s0, x, State(a, b, c, d));
    a := Op(a, b, FG(b, c, d), x[1], 5, W(0xf61e2562));
    d := Op(d, a, FG(a, b, c), x[6], 9, W(0xc040b340));
    c := Op(c, d, FG(d, a, b), x[11], 14, W(0x265e5a51));
    b := Op(b, c, FG(c, d, a), x[0], 20, W(0xe9b6c7aa));
    assert State(a, b, c, d) == Operations(20, s0, x);
    Quad(1, 4, s0, x, State(a, b, c, d));
    a := Op(a, b, FG(b, c, d), x[5], 5, W(0xd62f105d));
    d := Op(d, a, FG(a, b, c), x[10], 9, W(0x02441453));
    c := Op(c, d, FG(d, a, b), x[15], 14, W(0xd8a1e681));
    b := Op(b, c, FG(c, d, a), x[4], 20, W(0xe7d3fbc8));
    s := Round2Rest(s0, x, State(a, b, c, d));
  }

  /** Its second half. */
  method Round2Rest(s0: State, x: seq<Word>, s1: State) returns (s: State)
    requires |x| == 16 && s1 == Operations(24, s0, x)
    ensures s == Operations(32, s0, x)
  {
    hide WordF, WordG, WordH, WordI, Mix, Operations, Op, FG;
    var a, b, c, d := s1.a, s1.b, s1.c, s1.d;
    Quad(1, 8, s0, x, State(a, b, c, d));
    a := Op(a, b, FG(b, c, d), x[9], 5, W(0x21e1cde6));
    d := Op(d, a, FG(a, b, c), x[14], 9, W(0xc33707d6));
    c := Op(c, d, FG(d, a, b), x[3], 14, W(0xf4d50d87));
    b := Op(b, c, FG(c, d, a), x[8], 20, W(0x455a14ed));
    assert State(a, b, c, d) == Operations(28, s0, x);
    Quad(1, 12, s0, x, State(a, b, c, d));
    a := Op(a, b, FG(b, c, d), x[13], 5, W(0xa9e3e905));
    d := Op(d, a, FG(a, b, c), x[2], 9, W(0xfcefa3f8));
    c := Op(c, d, FG(d, a, b), x[7], 14, W(0x676f02d9));
    b := Op(b, c, FG(c, d, a), x[12], 20, W(0x8d2a4c8a));
    return State(a, b, c, d);
  }

  method Round3(s0: State, x: seq<Word>, s1: State) returns (s: State)
    requires |x| == 16 && s1 == Operations(32, s0, x)
    ensures s == Operations(48, s0, x)
  {
    hide WordF, WordG, WordH, WordI, Mix, Operations, Op, FH;
    var a, b, c, d := s1.a, s1.b, s1.c, s1.d;
    Quad(2, 0, s0, x, State(a, b, c, d));
    a := Op(a, b, FH(b, c, d), x[5], 4, W(0xfffa3942));
    d := Op(d, a, FH(a, b, c), x[8], 11, W(0x8771f681));
    c := Op(c, d, FH(d, a, b), x[11], 16, W(0x6d9d6122));
    b := Op(b, c, FH(c, d, a), x[14], 23, W(0xfde5380c));
    assert State(a, b, c, d) == Operations(36, s0, x);
    Quad(2, 4, s0, x, State(a, b, c, d));
    a := Op(a, b, FH(b, c, d), x[1], 4, W(0xa4beea44));
    d := Op(d, a, FH(a, b, c), x[4], 11, W(0x4bdecfa9));
    c := Op(c, d, FH(d, a, b), x[7], 16, W(0xf6bb4b60));
    b := Op(b, c, FH(c, d, a), x[10], 23, W(0xbebfbc70));
    s := Round3Rest(s0, x, State(a, b, c, d));
  }

  /** Its second half. */
  method Round3Rest(s0: State, x: seq<Word>, s1: State) returns (s: State)
    requires |x| == 16 && s1 == Operations(40, s0, x)
    ensures s == Operations(48, s0, x)
  {
    hide WordF, WordG, WordH, WordI, Mix, Operations, Op, FH;
    var a, b, c, d := s1.a, s1.b, s1.c, s1.d;
    Quad(2, 8, s0, x, State(a, b, c, d));
    a := Op(a, b, FH(b, c, d), x[13], 4, W(0x289b7ec6));
    d := Op(d, a, FH(a, b, c), x[0], 11, W(0xeaa127fa));
    c := Op(c, d, FH(d, a, b), x[3], 16, W(0xd4ef3085));
    b := Op(b, c, FH(c, d, a), x[6], 23, W(0x04881d05));
    assert State(a, b, c, d) == Operations(44, s0, x);
    Quad(2, 12, s0, x, State(a, b, c, d));
    a := Op(a, b, FH(b, c, d), x[9], 4, W(0xd9d4d039));
    d := Op(d, a, FH(a, b, c), x[12], 11, W(0xe6db99e5));
    c := Op(c, d, FH(d, a, b), x[15], 16, W(0x1fa27cf8));
    b := Op(b, c, FH(c, d, a), x[2], 23, W(0xc4ac5665));
    return State(a, b, c, d);
  }

  method Round4(s0: State, x: seq<Word>, s1: State) returns (s: State)
    requires |x| == 16 && s1 == Operations(48, s0, x)
    ensures s == Operations(64, s0, x)
  {
    hide WordF, WordG, WordH, WordI, Mix, Operations, Op, FI;
    var a, b, c, d := s1.a, s1.b, s1.c, s1.d;
    Quad(3, 0, s0, x, State(a, b, c, d));
    a := Op(a, b, FI(b, c, d), x[0], 6, W(0xf4292244));
    d := Op(d, a, FI(a, b, c), x[7], 10, W(0x432aff97));
    c := Op(c, d, FI(d, a, b), x[14], 15, W(0xab9423a7));
    b := Op(b, c, FI(c, d, a), x[5], 21, W(0xfc93a039));
    assert State(a, b, c, d) == Operations(52, s0, x);
    Quad(3, 4, s0, x, State(a, b, c, d));
    a := Op(a, b, FI(b, c, d), x[12], 6, W(0x655b59c3));
    d := Op(d, a, FI(a, b, c), x[3], 10, W(0x8f0ccc92));
    c := Op(c, d, FI(d, a, b), x[10], 15, W(0xffeff47d));
    b := Op(b, c, FI(c, d, a), x[1], 21, W(0x85845dd1));
    s := Round4Rest(s0, x, State(a, b, c, d));
  }

  /** Its second half. */
  method Round4Rest(s0: State, x: seq<Word>, s1: State) returns (s: State)
    requires |x| == 16 && s1 == Operations(56, s0, x)
    ensures s == Operations(64, s0, x)
  {
    hide WordF, WordG, WordH, WordI, Mix, Operations, Op, FI;
    var a, b, c, d := s1.a, s1.b, s1.c, s1.d;
    Quad(3, 8, s0, x, State(a, b, c, d));
    a := Op(a, b, FI(b, c, d), x[8], 6, W(0x6fa87e4f));
    d := Op(d, a, FI(a, b, c), x[15], 10, W(0xfe2ce6e0));
    c := Op(c, d, FI(d, a, b), x[6], 15, W(0xa3014314));
    b := Op(b, c, FI(c, d, a), x[13], 21, W(0x4e0811a1));
    assert State(a, b, c, d) == Operations(60, s0, x);
    Quad(3, 12, s0, x, State(a, b, c, d));
    a := Op(a, b, FI(b, c, d), x[4], 6, W(0xf7537e82));
    d := Op(d, a, FI(a, b, c), x[11], 10, W(0xbd3af235));
    c := Op(c, d, FI(d, a, b), x[2], 15, W(0x2ad7d2bb));
    b := Op(b, c, FI(c, d, a), x[9], 21, W(0xeb86d391));
    return State(a, b, c, d);
  }

  /** The body of the block loop: four rounds, then the starting values added back. */
  method OneBlock(s: State, block: seq<bv8>) returns (t: State)
    requires |block| == 64
    ensures t == Compress(s, block)
  {
    hide Operations;
    var x := Words(block);
    var r := Round1(s, x);
    r := Round2(s, x, r);
    r := Round3(s, x, r);
    r := Round4(s, x, r);
    t := Add(s, r);
  }

  method FoldBlocks(s0: State, data: seq<bv8>) returns (s: State)
    requires |data| % 64 == 0
    ensures s == Fold(s0, data)
  {
    hide Compress, Fold;
    var i := 0;
    s := s0;
    NoBlocks(s);
    while i < |data|
      invariant i <= |data| && i % 64 == 0
      invariant s == Fold(s0, data[..i])
    {
      ghost var before := s;
      s := OneBlock(s, data[i..i + 64]);
      assert data[..i + 64] == data[..i] + data[i..i + 64];
      FoldConcat(s0, data[..i], data[i..i + 64]);
      FoldBlock(before, data[i..i + 64]);
      i := i + 64;
    }
    assert data[..i] == data;
  }

  method AddToTotal(total0: nat, total1: nat, len: nat) returns (low: nat, high: nat)
    requires total0 < TWO32 && total1 < TWO32 && len < TWO32
    ensures low < TWO32 && high < TWO32
    ensures Count(low, high) == Wrap64(Count(total0, total1) + len)
  {
    hide Wrap32, Wrap64;
    CarryInto(len, total1, total0, 0);
    low := Wrap32(total0 + len);
    high := total1;
    if low < len {
      high := Wrap32(high + 1);
    } else {
      Carry(high);
    }
  }

  /** The chaining state and byte count after compressing `done`. */
  ghost predicate Compressed(s: State, count: nat, done: seq<bv8>) {
    |done| % 64 == 0 && s == Fold(IV, done) && count == Wrap64(|done|)
  }

  lemma {:induction false} CompressMore(s: State, count: nat, done: seq<bv8>, data: seq<bv8>)
    requires Compressed(s, count, done) && |data| % 64 == 0
    ensures Compressed(Fold(s, data), Wrap64(count + |data|), done + data)
  {
    hide Fold, Wrap64;
    FoldConcat(IV, done, data);
    SumMod(|done|, |data|);
  }

  /** The two words stored at the end of the buffer are the length in bits. */
  lemma {:induction false} BitLength(low: nat, high: nat, n: nat)
    requires low < TWO32 && high < TWO32 && Count(low, high) == Wrap64(n)
    ensures LengthField(n) == LowFirst(Wrap32(low * 8)) + LowFirst(Wrap32(high * 8) + low / 0x2000_0000)
  {
    hide Wrap32, LowFirst;
    var q := n / TWO64;
    var rest, top := low % 0x2000_0000, low / 0x2000_0000;
    var hrest, htop := high % 0x2000_0000, high / 0x2000_0000;
    var word := hrest * 8 + top;
    assert low * 8 == top * TWO32 + rest * 8;
    assert high * 8 == htop * TWO32 + hrest * 8;
    assert 8 * n == (8 * q + htop) * TWO64 + (word * TWO32 + rest * 8);
    Split32(top, rest * 8);
    Split32(htop, hrest * 8);
    Split64(8 * q + htop, word * TWO32 + rest * 8);
    LengthIs(rest * 8, word, n);
  }

  /** n & ~63 */
  function WholeBlocks(n: nat): (whole: nat)
    ensures whole <= n && whole % 64 == 0 && n % 64 == n - whole
  {
    n / 64 * 64
  }

  class Context {
    var state: State
    var total0: nat
    var total1: nat
    var buflen: nat
    const buffer: array<bv8>
    ghost var done: seq<bv8>

    /** `done` has been compressed and at most one block waits in the buffer. */
    ghost predicate Valid()
      reads this, buffer
    {
      && buffer.Length == 128 && buflen <= 64
      && total0 < TWO32 && total1 < TWO32
      && Compressed(state, Count(total0, total1), done)
    }

    /** The message so far. */
    ghost function Msg(): seq<bv8>
      reads this, buffer
      requires Valid()
    {
      done + buffer[..buflen]
    }

    /** md5_init_ctx */
    constructor ()
      ensures Valid() && Msg() == [] && fresh(buffer)
    {
      NoBlocks(IV);
      state, total0, total1, buflen := IV, 0, 0, 0;
      buffer := new bv8[128];
      done := [];
    }

    /** md5_process_block, on whole blocks that follow the compressed part. */
    method ProcessBlock(data: seq<bv8>)
      requires |data| % 64 == 0 && |data| < TWO32
      requires total0 < TWO32 && total1 < TWO32
      requires Compressed(state, Count(total0, total1), done)
      modifies this`state, this`total0, this`total1, this`done
      ensures total0 < TWO32 && total1 < TWO32
      ensures Compressed(state, Count(total0, total1), done)
      ensures done == old(done) + data
    {
      hide Count, Compressed, Fold, Wrap64;
      CompressMore(state, Count(total0, total1), done, data);
      state := FoldBlocks(state, data);
      total0, total1 := AddToTotal(total0, total1, |data|);
      done := done + data;
    }

    /** memcpy into the context's buffer. */
    method Copy(at: nat, data: seq<bv8>)
      requires at + |data| <= buffer.Length
      modifies buffer
      ensures buffer[..at + |data|] == old(buffer[..at]) + data
    {
      forall i | 0 <= i < |data| { buffer[at + i] := data[i]; }
      assert buffer[..at + |data|] == buffer[..at] + buffer[at..at + |data|];
    }

    /** Compress the whole blocks among the first n buffered bytes and move the rest down. */
    method Drain(n: nat)
      requires buffer.Length == 128 && 64 < n <= 128
      requires total0 < TWO32 && total1 < TWO32 && Compressed(state, Count(total0, total1), done)
      modifies this, buffer
      ensures Valid() && buflen == n % 64
      ensures Msg() == old(done + buffer[..n])
    {
      hide Compressed, Count, Wrap64, WholeBlocks;
      var whole := WholeBlocks(n);
      assert n - whole < 64;
      var block, tail := buffer[..whole], buffer[whole..n];
      ghost var want := done + buffer[..n];
      assert want == done + block + tail;
      ProcessBlock(block);
      Copy(0, tail);
      buflen := n - whole;
      assert done + buffer[..buflen] == want by {
        assert buffer[..0 + |tail|] == tail;
      }
    }

    /** The first part of md5_process_bytes: top up a partly filled buffer and compress what is
        complete.  Anything left over finds the buffer empty. */
    method TopUp(data: seq<bv8>) returns (rest: seq<bv8>)
      requires Valid() && buflen != 0 && |data| < TWO32
      modifies this, buffer
      ensures Valid() && Msg() + rest == old(Msg()) + data
      ensures |rest| <= |data| && (rest != [] ==> buflen == 0)
    {
      hide Compressed, Count, Wrap64;
      var leftOver := buflen;
      var add := if 128 - leftOver > |data| then |data| else 128 - leftOver;
      Copy(leftOver, data[..add]);
      buflen := leftOver + add;
      rest := data[add..];
      assert data == data[..add] + rest;
      assert done + buffer[..leftOver + add] + rest == old(Msg()) + data;
      if leftOver + add > 64 {
        Drain(leftOver + add);
      }
    }

    /** Its second part: compress the whole blocks of a longer piece straight from the input. */
    method Absorb(data: seq<bv8>) returns (rest: seq<bv8>)
      requires Valid() && buflen == 0 && 64 < |data| < TWO32
      modifies this
      ensures Valid() && buflen == 0
      ensures Msg() + rest == old(Msg()) + data && |rest| < 64
    {
      hide Compressed, Count, Wrap64, WholeBlocks;
      var whole := WholeBlocks(|data|);
      assert data == data[..whole] + data[whole..];
      assert buffer[..0] == [];
      ProcessBlock(data[..whole]);
      rest := data[whole..];
    }

    /** md5_process_bytes */
    method ProcessBytes(data: seq<bv8>)
      requires Valid() && |data| < TWO32
      modifies this, buffer
      ensures Valid() && Msg() == old(Msg()) + data
    {
      hide Compressed, Count, Wrap64;
      ghost var want := Msg() + data;
      var rest := data;
      if buflen != 0 {
        rest := TopUp(data);
      }
      if |rest| > 64 {
        rest := Absorb(rest);
      }
      assert Msg() + rest == want;
      if |rest| > 0 {
        assert buffer[..0] == [];
        Copy(0, rest);
        buflen := |rest|;
      }
    }

    /** md5_finish_ctx: the padding and length always fit the 128-byte buffer. */
    method Finish() returns (digest: seq<bv8>)
      requires Valid()
      modifies this, buffer
      ensures digest == Digest(old(Msg()))
    {
      hide Count, Fold, LowFirst, StateBytes, Zeros, Wrap32, Wrap64, LengthField;
      ghost var m := Msg();
      var bytes := buflen;
      PadLength(|m|, bytes);
      total0, total1 := AddToTotal(total0, total1, bytes);
      SumMod(|done|, bytes);
      BitLength(total0, total1, |m|);
      var pad := if bytes >= 56 then 64 + 56 - bytes else 56 - bytes;
      var low, high := Wrap32(total0 * 8), Wrap32(total1 * 8) + total0 / 0x2000_0000;
      Copy(bytes, [0x80] + Zeros(pad - 1));
      Copy(bytes + pad, LowFirst(low));
      Copy(bytes + pad + 4, LowFirst(high));
      var last := buffer[..bytes + pad + 8];
      assert done + last == m + Padding(|m|);
      FoldConcat(IV, done, last);
      state := FoldBlocks(state, last);
      digest := StateBytes(state);
    }
  }

  /** For every split of the message into update calls the result is the RFC 1321 digest. */
  method DigestOf(chunks: seq<seq<bv8>>) returns (digest: seq<bv8>)
    requires forall c :: c in chunks ==> |c| < TWO32
    ensures digest == Digest(Flatten(chunks))
  {
    hide Compressed, Digest;
    var ctx := new Context();
    for i := 0 to |chunks|
      invariant fresh(ctx) && fresh(ctx.buffer) && ctx.Valid()
      invariant ctx.Msg() == Flatten(chunks[..i])
    {
      ctx.ProcessBytes(chunks[i]);
      assert chunks[..i + 1][..i] == chunks[..i];
    }
    assert chunks[..|chunks|] == chunks;
    digest := ctx.Finish();
  }
}
