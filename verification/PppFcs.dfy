/** The 16-bit frame check sequence of PPP (appendix C of RFC 1662).
    The program computes it with a 256-entry table; here the table is proved to be the
    bit-serial reflected CRC, and the frames the program builds are proved to leave the
    constant residue that a receiver tests for. */
module PppFcs {

  const INIT_FCS: bv16 := 0xffff
  const GOOD_FCS: bv16 := 0xf0b8

  // ----- the independent definition: one bit at a time, polynomial 0x8408

  /** Eight steps, one for each bit: shift right, and on a one shifted out add the polynomial. */
  function EightBits(x: bv16): bv16 {
    var a := (x >> 1) ^ (if x & 1 == 1 then 0x8408 else 0);
    var b := (a >> 1) ^ (if a & 1 == 1 then 0x8408 else 0);
    var c := (b >> 1) ^ (if b & 1 == 1 then 0x8408 else 0);
    var d := (c >> 1) ^ (if c & 1 == 1 then 0x8408 else 0);
    var e := (d >> 1) ^ (if d & 1 == 1 then 0x8408 else 0);
    var f := (e >> 1) ^ (if e & 1 == 1 then 0x8408 else 0);
    var g := (f >> 1) ^ (if f & 1 == 1 then 0x8408 else 0);
    (g >> 1) ^ (if g & 1 == 1 then 0x8408 else 0)
  }

  function CrcByte(fcs: bv16, c: bv8): bv16 {
    EightBits(fcs ^ c as bv16)
  }

  function Crc(fcs: bv16, data: seq<bv8>): bv16
    decreases |data|
  {
    if data == [] then fcs else Crc(CrcByte(fcs, data[0]), data[1..])
  }

  // ----- the table, one row of eight entries per line of the source

  function Entry(col: bv16, t0: bv16, t1: bv16, t2: bv16, t3: bv16,
                 t4: bv16, t5: bv16, t6: bv16, t7: bv16): bv16
  {
    if col == 0 then t0 else if col == 1 then t1 else if col == 2 then t2 else if col == 3 then t3
    else if col == 4 then t4 else if col == 5 then t5 else if col == 6 then t6 else t7
  }

  function FcsTab(b: bv16): bv16 {
    var row, col := b >> 3, b & 7;
    if row == 0 then Entry(col, 0x0000, 0x1189, 0x2312, 0x329b, 0x4624, 0x57ad, 0x6536, 0x74bf)
    else if row == 1 then Entry(col, 0x8c48, 0x9dc1, 0xaf5a, 0xbed3, 0xca6c, 0xdbe5, 0xe97e, 0xf8f7)
    else if row == 2 then Entry(col, 0x1081, 0x0108, 0x3393, 0x221a, 0x56a5, 0x472c, 0x75b7, 0x643e)
    else if row == 3 then Entry(col, 0x9cc9, 0x8d40, 0xbfdb, 0xae52, 0xdaed, 0xcb64, 0xf9ff, 0xe876)
    else if row == 4 then Entry(col, 0x2102, 0x308b, 0x0210, 0x1399, 0x6726, 0x76af, 0x4434, 0x55bd)
    else if row == 5 then Entry(col, 0xad4a, 0xbcc3, 0x8e58, 0x9fd1, 0xeb6e, 0xfae7, 0xc87c, 0xd9f5)
    else if row == 6 then Entry(col, 0x3183, 0x200a, 0x1291, 0x0318, 0x77a7, 0x662e, 0x54b5, 0x453c)
    else if row == 7 then Entry(col, 0xbdcb, 0xac42, 0x9ed9, 0x8f50, 0xfbef, 0xea66, 0xd8fd, 0xc974)
    else if row == 8 then Entry(col, 0x4204, 0x538d, 0x6116, 0x709f, 0x0420, 0x15a9, 0x2732, 0x36bb)
    else if row == 9 then Entry(col, 0xce4c, 0xdfc5, 0xed5e, 0xfcd7, 0x8868, 0x99e1, 0xab7a, 0xbaf3)
    else if row == 10 then Entry(col, 0x5285, 0x430c, 0x7197, 0x601e, 0x14a1, 0x0528, 0x37b3, 0x263a)
    else if row == 11 then Entry(col, 0xdecd, 0xcf44, 0xfddf, 0xec56, 0x98e9, 0x8960, 0xbbfb, 0xaa72)
    else if row == 12 then Entry(col, 0x6306, 0x728f, 0x4014, 0x519d, 0x2522, 0x34ab, 0x0630, 0x17b9)
    else if row == 13 then Entry(col, 0xef4e, 0xfec7, 0xcc5c, 0xddd5, 0xa96a, 0xb8e3, 0x8a78, 0x9bf1)
    else if row == 14 then Entry(col, 0x7387, 0x620e, 0x5095, 0x411c, 0x35a3, 0x242a, 0x16b1, 0x0738)
    else if row == 15 then Entry(col, 0xffcf, 0xee46, 0xdcdd, 0xcd54, 0xb9eb, 0xa862, 0x9af9, 0x8b70)
    else if row == 16 then Entry(col, 0x8408, 0x9581, 0xa71a, 0xb693, 0xc22c, 0xd3a5, 0xe13e, 0xf0b7)
    else if row == 17 then Entry(col, 0x0840, 0x19c9, 0x2b52, 0x3adb, 0x4e64, 0x5fed, 0x6d76, 0x7cff)
    else if row == 18 then Entry(col, 0x9489, 0x8500, 0xb79b, 0xa612, 0xd2ad, 0xc324, 0xf1bf, 0xe036)
    else if row == 19 then Entry(col, 0x18c1, 0x0948, 0x3bd3, 0x2a5a, 0x5ee5, 0x4f6c, 0x7df7, 0x6c7e)
    else if row == 20 then Entry(col, 0xa50a, 0xb483, 0x8618, 0x9791, 0xe32e, 0xf2a7, 0xc03c, 0xd1b5)
    else if row == 21 then Entry(col, 0x2942, 0x38cb, 0x0a50, 0x1bd9, 0x6f66, 0x7eef, 0x4c74, 0x5dfd)
    else if row == 22 then Entry(col, 0xb58b, 0xa402, 0x9699, 0x8710, 0xf3af, 0xe226, 0xd0bd, 0xc134)
    else if row == 23 then Entry(col, 0x39c3, 0x284a, 0x1ad1, 0x0b58, 0x7fe7, 0x6e6e, 0x5cf5, 0x4d7c)
    else if row == 24 then Entry(col, 0xc60c, 0xd785, 0xe51e, 0xf497, 0x8028, 0x91a1, 0xa33a, 0xb2b3)
    else if row == 25 then Entry(col, 0x4a44, 0x5bcd, 0x6956, 0x78df, 0x0c60, 0x1de9, 0x2f72, 0x3efb)
    else if row == 26 then Entry(col, 0xd68d, 0xc704, 0xf59f, 0xe416, 0x90a9, 0x8120, 0xb3bb, 0xa232)
    else if row == 27 then Entry(col, 0x5ac5, 0x4b4c, 0x79d7, 0x685e, 0x1ce1, 0x0d68, 0x3ff3, 0x2e7a)
    else if row == 28 then Entry(col, 0xe70e, 0xf687, 0xc41c, 0xd595, 0xa12a, 0xb0a3, 0x8238, 0x93b1)
    else if row == 29 then Entry(col, 0x6b46, 0x7acf, 0x4854, 0x59dd, 0x2d62, 0x3ceb, 0x0e70, 0x1ff9)
    else if row == 30 then Entry(col, 0xf78f, 0xe606, 0xd49d, 0xc514, 0xb1ab, 0xa022, 0x92b9, 0x8330)
    else Entry(col, 0x7bc7, 0x6a4e, 0x58d5, 0x495c, 0x3de3, 0x2c6a, 0x1ef1, 0x0f78)
  }

  /** The body of the source's loop. */
  function Lookup(high: bv16, x: bv16): bv16 {
    high ^ FcsTab(x & 0xff)
  }

  function TableByte(fcs: bv16, c: bv8): bv16 {
    Lookup(fcs >> 8, fcs ^ c as bv16)
  }

  lemma {:induction false} FirstQuarter(b: bv16)
    requires b < 0x40
    ensures FcsTab(b) == EightBits(b)
  {}

  lemma {:induction false} SecondQuarter(b: bv16)
    requires 0x40 <= b < 0x80
    ensures FcsTab(b) == EightBits(b)
  {}

  lemma {:induction false} ThirdQuarter(b: bv16)
    requires 0x80 <= b < 0xc0
    ensures FcsTab(b) == EightBits(b)
  {}

  lemma {:induction false} FourthQuarter(b: bv16)
    requires 0xc0 <= b < 0x100
    ensures FcsTab(b) == EightBits(b)
  {}

  /** Every table entry is eight bit-serial steps from its index. */
  lemma {:induction false} TableIsCrc(b: bv16)
    requires b < 0x100
    ensures FcsTab(b) == EightBits(b)
  {
    hide FcsTab, EightBits;
    if b < 0x40 {
      FirstQuarter(b);
    } else if b < 0x80 {
      SecondQuarter(b);
    } else if b < 0xc0 {
      ThirdQuarter(b);
    } else {
      FourthQuarter(b);
    }
  }

  /** Eight steps only mix the low byte; the high byte is shifted down unchanged. */
  lemma {:induction false} EightBitsSplit(x: bv16)
    ensures EightBits(x) == (x >> 8) ^ EightBits(x & 0xff)
  {}

  function LowByte(x: bv16): (b: bv8)
    ensures b as bv16 == x & 0xff
  {
    (x & 0xff) as bv8
  }

  lemma {:induction false} XorHigh(fcs: bv16, c: bv8)
    ensures (fcs ^ c as bv16) >> 8 == fcs >> 8
  {}

  lemma {:induction false} LookupSteps(x: bv16)
    ensures Lookup(x >> 8, x) == EightBits(x)
  {
    hide FcsTab, EightBits;
    TableIsCrc(x & 0xff);
    EightBitsSplit(x);
  }

  /** One table step equals eight bit steps, for every running value and byte. */
  lemma {:induction false} TableStep(fcs: bv16, c: bv8)
    ensures TableByte(fcs, c) == CrcByte(fcs, c)
  {
    hide Lookup, EightBits;
    XorHigh(fcs, c);
    LookupSteps(fcs ^ c as bv16);
  }

  /** pppFCS16: the table-driven loop computes the bit-serial CRC. */
  method PppFcs16(fcs0: bv16, cp: seq<bv8>) returns (fcs: bv16)
    ensures fcs == Crc(fcs0, cp)
  {
    hide TableByte, CrcByte;
    fcs := fcs0;
    var i := 0;
    while i < |cp|
      invariant i <= |cp|
      invariant Crc(fcs, cp[i..]) == Crc(fcs0, cp)
    {
      TableStep(fcs, cp[i]);
      assert cp[i..][1..] == cp[i + 1..];
      fcs := TableByte(fcs, cp[i]);
      i := i + 1;
    }
  }

  /** The FCS of a concatenation continues the FCS of its first part. */
  lemma {:induction false} CrcConcat(fcs: bv16, a: seq<bv8>, b: seq<bv8>)
    ensures Crc(fcs, a + b) == Crc(Crc(fcs, a), b)
    decreases |a|
  {
    if a == [] {
      assert a + b == b;
    } else {
      assert (a + b)[1..] == a[1..] + b;
      CrcConcat(CrcByte(fcs, a[0]), a[1..], b);
    }
  }

  /** The two bytes appended to a frame: the complemented FCS, low byte first. */
  function Tail(fcs: bv16): seq<bv8> {
    var x := fcs ^ 0xffff;
    [LowByte(x), LowByte(x >> 8)]
  }

  lemma {:induction false} TailBytes(f: bv16)
    ensures CrcByte(CrcByte(f, Tail(f)[0]), Tail(f)[1]) == GOOD_FCS
  {
    hide LowByte;
    assert EightBits(f ^ ((f ^ 0xffff) & 0xff)) == (f >> 8) ^ 0x0f78;
    assert EightBits(((f >> 8) ^ 0x0f78) ^ (((f ^ 0xffff) >> 8) & 0xff)) == GOOD_FCS;
  }

  /** Running the FCS over any data followed by its own tail leaves 0xF0B8. */
  lemma {:induction false} GoodResidue(fcs: bv16, data: seq<bv8>)
    ensures Crc(fcs, data + Tail(Crc(fcs, data))) == GOOD_FCS
  {
    hide CrcByte, LowByte;
    var f := Crc(fcs, data);
    var t := Tail(f);
    CrcConcat(fcs, data, t);
    TailBytes(f);
    assert t[1..] == [t[1]] && [t[1]][1..] == [];
    assert Crc(f, t) == Crc(CrcByte(f, t[0]), [t[1]]);
  }
}
