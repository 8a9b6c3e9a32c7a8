/** The reference against the test suite of RFC 1321 (appendix A.5): the digest of "abc". */
module Md5TestSuite {
  import opened Md5Spec

  const ABC: seq<bv8> := [0x61, 0x62, 0x63]

  function AbcWord(i: nat): Word { if i == 0 then W(0x80636261) else if i == 14 then W(24) else W(0) }

  /** The sixteen words of its one padded block. */
  predicate AbcWords(x: seq<Word>) {
    |x| == 16 && forall i :: 0 <= i < 16 ==> x[i] == AbcWord(i)
  }

  function Q(a: bv32, b: bv32, c: bv32, d: bv32): State { State(W(a), W(b), W(c), W(d)) }

  /** The registers after n operations. */
  ghost predicate At(n: nat, x: seq<Word>, s: State) { |x| == 16 && Operations(n, IV, x) == s }

  /** One operation with its numbers: the message word, the rotation, the sine and the new value. */
  lemma {:induction false} Op(r: nat, j: nat, k: nat, x: seq<Word>,
                                a: bv32, b: bv32, c: bv32, d: bv32, f: bv32, w: bv32, sh: nat, t: bv32, v: bv32)
    requires AbcWords(x) && At(16 * r + j, x, Q(a, b, c, d)) && j < 16 && 0 < sh < 32
    requires Index(r, j) == k && W(w) == AbcWord(k)
    requires Shift(r, j) == sh && Sine(r, j) == W(t)
    requires f == if r == 0 then F(b, c, d) else if r == 1 then G(b, c, d)
                  else if r == 2 then H(b, c, d) else I(b, c, d)
    requires Mix(W(a), W(b), W(f), W(w), sh, W(t)) == W(v)
    ensures At(16 * r + j + 1, x, Q(d, v, b, c))
  {
    hide Mix, Sine, Index, Shift, F, G, H, I;
    assert (16 * r + j) / 16 == r && (16 * r + j) % 16 == j;
    assert Aux(r, W(b), W(c), W(d)) == W(f);
  }

  lemma {:induction false} Operations8(x: seq<Word>)
    requires AbcWords(x)
    ensures At(8, x, Q(0xc73741ef, 0x928d99f6, 0x207dc67b, 0x8bac3051))
  {
    hide At, AbcWords;
    NoneYet(x);
    Op(0, 0, 0, x, 0x67452301, 0xefcdab89, 0x98badcfe, 0x10325476, 0x98badcfe, 0x80636261, 7, 0xd76aa478, 0xd6d117b4);
    Op(0, 1, 1, x, 0x10325476, 0xd6d117b4, 0xefcdab89, 0x98badcfe, 0xceebcbca, 0, 12, 0xe8c7b756, 0x344a8432);
    Op(0, 2, 2, x, 0x98badcfe, 0x344a8432, 0xd6d117b4, 0xefcdab89, 0xdfc52fb9, 0, 17, 0x242070db, 0x2f6fbd72);
    Op(0, 3, 3, x, 0xefcdab89, 0x2f6fbd72, 0x344a8432, 0xd6d117b4, 0xf4da86b6, 0, 22, 0xc1bdceee, 0x7ad956f2);
    Op(0, 4, 4, x, 0xd6d117b4, 0x7ad956f2, 0x2f6fbd72, 0x344a8432, 0x2e4b9472, 0, 7, 0xf57c0faf, 0xc73741ef);
    Op(0, 5, 5, x, 0x344a8432, 0xc73741ef, 0x7ad956f2, 0x2f6fbd72, 0x6a59fcf2, 0, 12, 0x4787c62a, 0x8bac3051);
    Op(0, 6, 6, x, 0x2f6fbd72, 0x8bac3051, 0xc73741ef, 0x7ad956f2, 0xf37546e3, 0, 17, 0xa8304613, 0x207dc67b);
    Op(0, 7, 7, x, 0x7ad956f2, 0x207dc67b, 0x8bac3051, 0xc73741ef, 0xc72e01d5, 0, 22, 0xfd469501, 0x928d99f6);
  }

  lemma {:induction false} Operations16(x: seq<Word>)
    requires AbcWords(x)
    ensures At(16, x, Q(0xdda9b9a6, 0x72aff2e0, 0xe396856b, 0xa1051895))
  {
    hide At, AbcWords;
    Operations8(x);
    Op(0, 8, 8, x, 0xc73741ef, 0x928d99f6, 0x207dc67b, 0x8bac3051, 0x092da073, 0, 7, 0x698098d8, 0x854b3712);
    Op(0, 9, 9, x, 0x8bac3051, 0x854b3712, 0x928d99f6, 0x207dc67b, 0xa03dd17b, 0, 12, 0x8b44f7af, 0x74e2f284);
    Op(0, 10, 10, x, 0x207dc67b, 0x74e2f284, 0x854b3712, 0x928d99f6, 0x864f3b72, 0, 17, 0xffff5bb1, 0x3020401c);
    Op(0, 11, 11, x, 0x928d99f6, 0x3020401c, 0x74e2f284, 0x854b3712, 0xb56b7706, 0, 22, 0x895cd7be, 0x5ed49596);
    Op(0, 12, 12, x, 0x854b3712, 0x5ed49596, 0x3020401c, 0x74e2f284, 0x30226214, 0, 7, 0x6b901122, 0xdda9b9a6);
    Op(0, 13, 13, x, 0x74e2f284, 0xdda9b9a6, 0x5ed49596, 0x3020401c, 0x7c80d19e, 0, 12, 0xfd987193, 0xa1051895);
    Op(0, 14, 14, x, 0x3020401c, 0xa1051895, 0xdda9b9a6, 0x5ed49596, 0xdfd19d86, 24, 17, 0xa679438e, 0xe396856b);
    Op(0, 15, 15, x, 0x5ed49596, 0xe396856b, 0xa1051895, 0xdda9b9a6, 0xbd2d3885, 0, 22, 0x49b40821, 0x72aff2e0);
  }

  lemma {:induction false} Operations24(x: seq<Word>)
    requires AbcWords(x)
    ensures At(24, x, Q(0x59a8ffda, 0x47092c07, 0xabfc7920, 0x6d002f1e))
  {
    hide At, AbcWords;
    Operations16(x);
    Op(1, 0, 1, x, 0xdda9b9a6, 0x72aff2e0, 0xe396856b, 0xa1051895, 0x629795ea, 0, 5, 0xf61e2562, 0x3e9e9126);
    Op(1, 1, 6, x, 0xa1051895, 0x3e9e9126, 0x72aff2e0, 0xe396856b, 0x32bff3a2, 0, 9, 0xc040b340, 0x4a1d804e);
    Op(1, 2, 11, x, 0xe396856b, 0x4a1d804e, 0x3e9e9126, 0x72aff2e0, 0x4e1d8146, 0, 14, 0x265e5a51, 0xe25e1652);
    Op(1, 3, 0, x, 0x72aff2e0, 0xe25e1652, 0x4a1d804e, 0x3e9e9126, 0x621f104a, 0x80636261, 20, 0xe9b6c7aa, 0xb5b204e4);
    Op(1, 4, 5, x, 0x3e9e9126, 0xb5b204e4, 0xe25e1652, 0x4a1d804e, 0xa0521654, 0, 5, 0xd62f105d, 0x59a8ffda);
    Op(1, 5, 10, x, 0x4a1d804e, 0x59a8ffda, 0xb5b204e4, 0xe25e1652, 0x55a816f6, 0, 9, 0x02441453, 0x6d002f1e);
    Op(1, 6, 15, x, 0xe25e1652, 0x6d002f1e, 0x59a8ffda, 0xb5b204e4, 0x6d08ff1e, 0, 14, 0xd8a1e681, 0xabfc7920);
    Op(1, 7, 4, x, 0xb5b204e4, 0xabfc7920, 0x6d002f1e, 0x59a8ffda, 0x2da87904, 0, 20, 0xe7d3fbc8, 0x47092c07);
  }

  lemma {:induction false} Operations32(x: seq<Word>)
    requires AbcWords(x)
    ensures At(32, x, Q(0x790a77fb, 0x726342d3, 0xa62884aa, 0x9f47e4f8))
  {
    hide At, AbcWords;
    Operations24(x);
    Op(1, 8, 9, x, 0x59a8ffda, 0x47092c07, 0xabfc7920, 0x6d002f1e, 0xc7fc7c26, 0, 5, 0x21e1cde6, 0xb7f268cf);
    Op(1, 9, 14, x, 0x6d002f1e, 0xb7f268cf, 0x47092c07, 0xabfc7920, 0xe7f16c07, 24, 9, 0xc33707d6, 0x09388eff);
    Op(1, 10, 3, x, 0xabfc7920, 0x09388eff, 0xb7f268cf, 0x47092c07, 0xb1fa4ccf, 0, 14, 0xf4d50d87, 0xfe1623b1);
    Op(1, 11, 8, x, 0x47092c07, 0xfe1623b1, 0x09388eff, 0xb7f268cf, 0xbe1aa6b1, 0, 20, 0x455a14ed, 0x786acb8f);
    Op(1, 12, 13, x, 0xb7f268cf, 0x786acb8f, 0xfe1623b1, 0x09388eff, 0xfe2eab8f, 0, 5, 0xa9e3e905, 0x790a77fb);
    Op(1, 13, 2, x, 0x09388eff, 0x790a77fb, 0x786acb8f, 0xfe1623b1, 0x786aebbf, 0, 9, 0xfcefa3f8, 0x9f47e4f8);
    Op(1, 14, 7, x, 0xfe1623b1, 0x9f47e4f8, 0x790a77fb, 0x786acb8f, 0x1942f4f8, 0, 14, 0x676f02d9, 0xa62884aa);
    Op(1, 15, 12, x, 0x786acb8f, 0xa62884aa, 0x9f47e4f8, 0x790a77fb, 0xa64d84aa, 0, 20, 0x8d2a4c8a, 0x726342d3);
  }

  lemma {:induction false} Operations40(x: seq<Word>)
    requires AbcWords(x)
    ensures At(40, x, Q(0x21b117b9, 0x5a2f5ea5, 0x3575227e, 0x6e7429d5))
  {
    hide At, AbcWords;
    Operations32(x);
    Op(2, 0, 5, x, 0x790a77fb, 0x726342d3, 0xa62884aa, 0x9f47e4f8, 0x4b0c2281, 0, 4, 0xfffa3942, 0xb3707ebf);
    Op(2, 1, 8, x, 0x9f47e4f8, 0xb3707ebf, 0x726342d3, 0xa62884aa, 0x673bb8c6, 0, 11, 0x8771f681, 0x60127b2e);
    Op(2, 2, 11, x, 0xa62884aa, 0x60127b2e, 0xb3707ebf, 0x726342d3, 0xa1014742, 0, 16, 0x6d9d6122, 0x8d212ff5);
    Op(2, 3, 14, x, 0x726342d3, 0x8d212ff5, 0x60127b2e, 0xb3707ebf, 0x5e432a64, 24, 23, 0xfde5380c, 0x3b0875c7);
    Op(2, 4, 1, x, 0xb3707ebf, 0x3b0875c7, 0x8d212ff5, 0x60127b2e, 0xd63b211c, 0, 4, 0xa4beea44, 0x21b117b9);
    Op(2, 5, 4, x, 0x60127b2e, 0x21b117b9, 0x3b0875c7, 0x8d212ff5, 0x97984d8b, 0, 11, 0x4bdecfa9, 0x6e7429d5);
    Op(2, 6, 7, x, 0x8d212ff5, 0x6e7429d5, 0x21b117b9, 0x3b0875c7, 0x74cd4bab, 0, 16, 0xf6bb4b60, 0x3575227e);
    Op(2, 7, 10, x, 0x3b0875c7, 0x3575227e, 0x6e7429d5, 0x21b117b9, 0x7ab01c12, 0, 23, 0xbebfbc70, 0x5a2f5ea5);
  }

  lemma {:induction false} Operations48(x: seq<Word>)
    requires AbcWords(x)
    ensures At(48, x, Q(0x7f2e507b, 0x7beb9700, 0x8fae6399, 0x99d9679d))
  {
    hide At, AbcWords;
    Operations40(x);
    Op(2, 8, 13, x, 0x21b117b9, 0x5a2f5ea5, 0x3575227e, 0x6e7429d5, 0x012e550e, 0, 4, 0x289b7ec6, 0x11de1779);
    Op(2, 9, 0, x, 0x6e7429d5, 0x11de1779, 0x5a2f5ea5, 0x3575227e, 0x7e846ba2, 0x80636261, 11, 0xeaa127fa, 0xfadcaa38);
    Op(2, 10, 3, x, 0x3575227e, 0xfadcaa38, 0x11de1779, 0x5a2f5ea5, 0xb12de3e4, 0, 16, 0xd4ef3085, 0x31c465ca);
    Op(2, 11, 6, x, 0x5a2f5ea5, 0x31c465ca, 0xfadcaa38, 0x11de1779, 0xdac6d88b, 0, 23, 0x04881d05, 0x4c6124f4);
    Op(2, 12, 9, x, 0x11de1779, 0x4c6124f4, 0x31c465ca, 0xfadcaa38, 0x8779eb06, 0, 4, 0xd9d4d039, 0x7f2e507b);
    Op(2, 13, 12, x, 0xfadcaa38, 0x7f2e507b, 0x4c6124f4, 0x31c465ca, 0x028b1145, 0, 11, 0xe6db99e5, 0x99d9679d);
    Op(2, 14, 15, x, 0x31c465ca, 0x99d9679d, 0x7f2e507b, 0x4c6124f4, 0xaa961312, 0, 16, 0x1fa27cf8, 0x8fae6399);
    Op(2, 15, 2, x, 0x4c6124f4, 0x8fae6399, 0x99d9679d, 0x7f2e507b, 0x6959547f, 0, 23, 0xc4ac5665, 0x7beb9700);
  }

  lemma {:induction false} Operations56(x: seq<Word>)
    requires AbcWords(x)
    ensures At(56, x, Q(0x06cc5e8a, 0x3bfa2c27, 0x7d632dd0, 0x5b0d97aa))
  {
    hide At, AbcWords;
    Operations48(x);
    Op(3, 0, 0, x, 0x7f2e507b, 0x7beb9700, 0x8fae6399, 0x99d9679d, 0xf041fcfb, 0x80636261, 6, 0xf4292244, 0x7b201df8);
    Op(3, 1, 7, x, 0x99d9679d, 0x7b201df8, 0x7beb9700, 0x8fae6399, 0x009a0afe, 0, 10, 0x432aff97, 0xf4e8e96e);
    Op(3, 2, 14, x, 0x8fae6399, 0xf4e8e96e, 0x7b201df8, 0x7beb9700, 0x8fdcf407, 24, 15, 0xab9423a7, 0xb298cefd);
    Op(3, 3, 5, x, 0x7beb9700, 0xb298cefd, 0xf4e8e96e, 0x7b201df8, 0x42370791, 0, 21, 0xfc93a039, 0x8bf025c4);
    Op(3, 4, 12, x, 0x7b201df8, 0x8bf025c4, 0xb298cefd, 0xf4e8e96e, 0x396ff928, 0, 6, 0x655b59c3, 0x06cc5e8a);
    Op(3, 5, 3, x, 0xf4e8e96e, 0x06cc5e8a, 0x8bf025c4, 0xb298cefd, 0xc41f5a4e, 0, 10, 0x8f0ccc92, 0x5b0d97aa);
    Op(3, 6, 10, x, 0xb298cefd, 0x5b0d97aa, 0x06cc5e8a, 0x8bf025c4, 0x79c38131, 0, 15, 0xffeff47d, 0x7d632dd0);
    Op(3, 7, 1, x, 0x8bf025c4, 0x7d632dd0, 0x5b0d97aa, 0x06cc5e8a, 0xa67e3a5f, 0, 21, 0x85845dd1, 0x3bfa2c27);
  }

  lemma {:induction false} Operations64(x: seq<Word>)
    requires AbcWords(x)
    ensures At(64, x, Q(0x310ade8f, 0xc08226b3, 0xe484b9d8, 0x624d8cb2))
  {
    hide At, AbcWords;
    Operations56(x);
    Op(3, 8, 8, x, 0x06cc5e8a, 0x3bfa2c27, 0x7d632dd0, 0x5b0d97aa, 0xc29941a7, 0, 6, 0x6fa87e4f, 0x7f81cc35);
    Op(3, 9, 15, x, 0x5b0d97aa, 0x7f81cc35, 0x3bfa2c27, 0x7d632dd0, 0xc467f218, 0, 10, 0xfe2ce6e0, 0x094454ab);
    Op(3, 10, 6, x, 0x7d632dd0, 0x094454ab, 0x7f81cc35, 0x3bfa2c27, 0xb2c41bce, 0, 15, 0xa3014314, 0x4f9dbe3f);
    Op(3, 11, 13, x, 0x3bfa2c27, 0x4f9dbe3f, 0x094454ab, 0x7f81cc35, 0xc6bbeb54, 0, 21, 0x4e0811a1, 0x7327d604);
    Op(3, 12, 4, x, 0x7f81cc35, 0x7327d604, 0x4f9dbe3f, 0x094454ab, 0xb822416b, 0, 6, 0xf7537e82, 0x310ade8f);
    Op(3, 13, 11, x, 0x094454ab, 0x310ade8f, 0x7327d604, 0x4f9dbe3f, 0xc24d09cb, 0, 10, 0xbd3af235, 0x624d8cb2);
    Op(3, 14, 2, x, 0x4f9dbe3f, 0x624d8cb2, 0x310ade8f, 0x7327d604, 0xdfd77374, 0, 15, 0x2ad7d2bb, 0xe484b9d8);
    Op(3, 15, 9, x, 0x7327d604, 0xe484b9d8, 0x624d8cb2, 0x310ade8f, 0x8cb8354a, 0, 21, 0xeb86d391, 0xc08226b3);
  }

  lemma {:induction false} NoneYet(x: seq<Word>)
    requires AbcWords(x)
    ensures At(0, x, IV)
  {
    NoOperations(IV, x);
  }

  /** The one block: three bytes, a one bit, zeros, and the length of 24 bits. */
  predicate AbcBytes(block: seq<bv8>) {
    && |block| == 64 && block[0] == 0x61 && block[1] == 0x62 && block[2] == 0x63 && block[3] == 0x80
    && block[56] == 24 && forall i :: 4 <= i < 64 && i != 56 ==> block[i] == 0
  }

  lemma {:induction false} AbcBlock()
    ensures AbcBytes(ABC + Padding(3))
  {
    AbcLength();
    ZerosAre(52);
    hide LengthField, Zeros, AbcBytes;
    Assembled(Zeros(52), LengthField(3));
  }

  lemma {:induction false} Assembled(zeros: seq<bv8>, length: seq<bv8>)
    requires |zeros| == 52 && (forall i :: 0 <= i < 52 ==> zeros[i] == 0)
    requires |length| == 8 && length[0] == 24 && forall i :: 1 <= i < 8 ==> length[i] == 0
    ensures AbcBytes(ABC + ([0x80] + zeros + length))
  {
    var block := ABC + ([0x80] + zeros + length);
    assert forall i :: 4 <= i < 56 ==> block[i] == zeros[i - 4];
    assert forall i :: 56 <= i < 64 ==> block[i] == length[i - 56];
  }

  lemma {:induction false} ZerosAre(n: nat)
    ensures forall i :: 0 <= i < n ==> Zeros(n)[i] == 0
  {
  }

  lemma {:induction false} AbcLength()
    ensures LengthField(3)[0] == 24 && forall i :: 1 <= i < 8 ==> LengthField(3)[i] == 0
  {
    LowBytes();
    hide LowFirst;
    assert Wrap32(24) == 24 && Wrap64(24) / TWO32 == 0;
    var a, b := LowFirst(24), LowFirst(0);
    assert LengthField(3) == a + b;
  }

  lemma {:induction false} LowBytes()
    ensures LowFirst(24) == [24, 0, 0, 0] && LowFirst(0) == [0, 0, 0, 0]
  {
  }

  lemma {:induction false} AbcBlockWords(block: seq<bv8>)
    requires AbcBytes(block)
    ensures AbcWords(Words(block))
  {
    var x := Words(block);
    assert x[0] == FromBytes(0x61, 0x62, 0x63, 0x80);
    assert x[14] == FromBytes(24, 0, 0, 0);
    assert FromBytes(0, 0, 0, 0) == W(0);
    forall i | 1 <= i < 16 && i != 14 ensures x[i] == W(0) {
      assert x[i] == FromBytes(block[4 * i], block[4 * i + 1], block[4 * i + 2], block[4 * i + 3]);
    }
  }

  lemma {:induction false} AbcState(block: seq<bv8>)
    requires AbcBytes(block)
    ensures Fold(IV, block) == Q(0x98500190, 0xb04fd23c, 0x7d3f96d6, 0x727fe128)
  {
    hide Operations, Words, At, AbcWords;
    var x := Words(block);
    AbcBlockWords(block);
    Operations64(x);
    Reached(64, x, Q(0x310ade8f, 0xc08226b3, 0xe484b9d8, 0x624d8cb2));
    assert block[..64] == block && block[64..] == [];
    assert Compress(IV, block) == Q(0x98500190, 0xb04fd23c, 0x7d3f96d6, 0x727fe128);
  }

  lemma {:induction false} Reached(n: nat, x: seq<Word>, s: State)
    requires At(n, x, s)
    ensures |x| == 16 && Operations(n, IV, x) == s
  {
  }

  lemma {:induction false} AbcDigest()
    ensures Digest(ABC) == [0x90, 0x01, 0x50, 0x98, 0x3c, 0xd2, 0x4f, 0xb0,
                            0xd6, 0x96, 0x3f, 0x7d, 0x28, 0xe1, 0x7f, 0x72]
  {
    hide Fold, Padding, Words;
    AbcBlock();
    AbcState(ABC + Padding(3));
  }
}
