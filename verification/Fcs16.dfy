/**
 * FCS-16 of RFC 1662, appendix C: generator x**0 + x**5 + x**12 + x**16.
 * The bit-serial register is the reference; the lookup table, the loop over it, the residue
 * and the detection of bursts are proved against it.
 */
module Fcs16 {
  import opened Folds

  /** The lookup table, one row per high nibble of the index. */
  function FcsTab(i: bv8): bv16 {
    var lo := i & 0x0f;
    match i >> 4
    case 0  => Pick(lo, 0x0000, 0x1189, 0x2312, 0x329b, 0x4624, 0x57ad, 0x6536, 0x74bf,
                        0x8c48, 0x9dc1, 0xaf5a, 0xbed3, 0xca6c, 0xdbe5, 0xe97e, 0xf8f7)
    case 1  => Pick(lo, 0x1081, 0x0108, 0x3393, 0x221a, 0x56a5, 0x472c, 0x75b7, 0x643e,
                        0x9cc9, 0x8d40, 0xbfdb, 0xae52, 0xdaed, 0xcb64, 0xf9ff, 0xe876)
    case 2  => Pick(lo, 0x2102, 0x308b, 0x0210, 0x1399, 0x6726, 0x76af, 0x4434, 0x55bd,
                        0xad4a, 0xbcc3, 0x8e58, 0x9fd1, 0xeb6e, 0xfae7, 0xc87c, 0xd9f5)
    case 3  => Pick(lo, 0x3183, 0x200a, 0x1291, 0x0318, 0x77a7, 0x662e, 0x54b5, 0x453c,
                        0xbdcb, 0xac42, 0x9ed9, 0x8f50, 0xfbef, 0xea66, 0xd8fd, 0xc974)
    case 4  => Pick(lo, 0x4204, 0x538d, 0x6116, 0x709f, 0x0420, 0x15a9, 0x2732, 0x36bb,
                        0xce4c, 0xdfc5, 0xed5e, 0xfcd7, 0x8868, 0x99e1, 0xab7a, 0xbaf3)
    case 5  => Pick(lo, 0x5285, 0x430c, 0x7197, 0x601e, 0x14a1, 0x0528, 0x37b3, 0x263a,
                        0xdecd, 0xcf44, 0xfddf, 0xec56, 0x98e9, 0x8960, 0xbbfb, 0xaa72)
    case 6  => Pick(lo, 0x6306, 0x728f, 0x4014, 0x519d, 0x2522, 0x34ab, 0x0630, 0x17b9,
                        0xef4e, 0xfec7, 0xcc5c, 0xddd5, 0xa96a, 0xb8e3, 0x8a78, 0x9bf1)
    case 7  => Pick(lo, 0x7387, 0x620e, 0x5095, 0x411c, 0x35a3, 0x242a, 0x16b1, 0x0738,
                        0xffcf, 0xee46, 0xdcdd, 0xcd54, 0xb9eb, 0xa862, 0x9af9, 0x8b70)
    case 8  => Pick(lo, 0x8408, 0x9581, 0xa71a, 0xb693, 0xc22c, 0xd3a5, 0xe13e, 0xf0b7,
                        0x0840, 0x19c9, 0x2b52, 0x3adb, 0x4e64, 0x5fed, 0x6d76, 0x7cff)
    case 9  => Pick(lo, 0x9489, 0x8500, 0xb79b, 0xa612, 0xd2ad, 0xc324, 0xf1bf, 0xe036,
                        0x18c1, 0x0948, 0x3bd3, 0x2a5a, 0x5ee5, 0x4f6c, 0x7df7, 0x6c7e)
    case 10 => Pick(lo, 0xa50a, 0xb483, 0x8618, 0x9791, 0xe32e, 0xf2a7, 0xc03c, 0xd1b5,
                        0x2942, 0x38cb, 0x0a50, 0x1bd9, 0x6f66, 0x7eef, 0x4c74, 0x5dfd)
    case 11 => Pick(lo, 0xb58b, 0xa402, 0x9699, 0x8710, 0xf3af, 0xe226, 0xd0bd, 0xc134,
                        0x39c3, 0x284a, 0x1ad1, 0x0b58, 0x7fe7, 0x6e6e, 0x5cf5, 0x4d7c)
    case 12 => Pick(lo, 0xc60c, 0xd785, 0xe51e, 0xf497, 0x8028, 0x91a1, 0xa33a, 0xb2b3,
                        0x4a44, 0x5bcd, 0x6956, 0x78df, 0x0c60, 0x1de9, 0x2f72, 0x3efb)
    case 13 => Pick(lo, 0xd68d, 0xc704, 0xf59f, 0xe416, 0x90a9, 0x8120, 0xb3bb, 0xa232,
                        0x5ac5, 0x4b4c, 0x79d7, 0x685e, 0x1ce1, 0x0d68, 0x3ff3, 0x2e7a)
    case 14 => Pick(lo, 0xe70e, 0xf687, 0xc41c, 0xd595, 0xa12a, 0xb0a3, 0x8238, 0x93b1,
                        0x6b46, 0x7acf, 0x4854, 0x59dd, 0x2d62, 0x3ceb, 0x0e70, 0x1ff9)
    case _  => Pick(lo, 0xf78f, 0xe606, 0xd49d, 0xc514, 0xb1ab, 0xa022, 0x92b9, 0x8330,
                        0x7bc7, 0x6a4e, 0x58d5, 0x495c, 0x3de3, 0x2c6a, 0x1ef1, 0x0f78)
  }

  function Pick(lo: bv8, e0: bv16, e1: bv16, e2: bv16, e3: bv16, e4: bv16, e5: bv16, e6: bv16, e7: bv16,
                  e8: bv16, e9: bv16, ea: bv16, eb: bv16, ec: bv16, ed: bv16, ee: bv16, ef: bv16): bv16 {
    match lo
    case 0 => e0 case 1 => e1 case 2 => e2 case 3 => e3 case 4 => e4 case 5 => e5 case 6 => e6 case 7 => e7
    case 8 => e8 case 9 => e9 case 10 => ea case 11 => eb case 12 => ec case 13 => ed case 14 => ee case _ => ef
  }

  // ------------------------------------------------------------------ the reference

  /** One bit of the polynomial division, as RFC 1662 appendix C writes it. */
  function BitStep(c: bv16): bv16 { if c & 1 == 1 then (c >> 1) ^ 0x8408 else c >> 1 }

  function Plus(v: bv16, w: bv16): bv16 { v ^ w }
  function Embed(b: bv8): bv16 { b as bv16 }
  function Up(c: bv16): bv16 { c << 8 }

  /** One byte of the bit-serial register: fold the byte in, then eight bit steps. */
  function ByteStep(c: bv16, b: bv8): bv16 { Iter(BitStep, Plus(c, Embed(b)), 8) }

  /** The bit-serial register after a byte string. */
  function Register(c: bv16, data: seq<bv8>): bv16 { Fold(ByteStep, c, data) }

  /** The frame check sequence: the ones complement of the register. */
  function Fcs(c: bv16, data: seq<bv8>): bv16 { Register(c, data) ^ 0xffff }

  // ------------------------------------------------------------------ one bit step

  /** The bit step without a branch. */
  function Shift(c: bv16): bv16 { (c >> 1) ^ (0x8408 & (0 - (c & 1))) }

  lemma BranchFree(c: bv16)
    ensures Shift(c) == BitStep(c)
  {
    if c & 1 == 1 {
      assert 0x8408 & (0 - (c & 1)) == 0x8408;
    } else {
      assert c & 1 == 0;
      assert 0x8408 & (0 - (c & 1)) == 0;
    }
  }

  lemma LinearEvenEven(v: bv16, w: bv16)
    requires v & 1 == 0 && w & 1 == 0
    ensures BitStep(v ^ w) == BitStep(v) ^ BitStep(w)
  {
  }

  lemma LinearEvenOdd(v: bv16, w: bv16)
    requires v & 1 == 0 && w & 1 == 1
    ensures BitStep(v ^ w) == BitStep(v) ^ BitStep(w)
  {
  }

  lemma LinearOddOdd(v: bv16, w: bv16)
    requires v & 1 == 1 && w & 1 == 1
    ensures BitStep(v ^ w) == BitStep(v) ^ BitStep(w)
  {
  }

  lemma BitStepLinear(v: bv16, w: bv16)
    ensures BitStep(v ^ w) == BitStep(v) ^ BitStep(w)
  {
    if v & 1 == 0 {
      if w & 1 == 0 { LinearEvenEven(v, w); } else { LinearEvenOdd(v, w); }
    } else if w & 1 == 0 {
      LinearEvenOdd(w, v);
    } else {
      LinearOddOdd(v, w);
    }
  }

  lemma BitStepInjective(v: bv16, w: bv16)
    requires BitStep(v) == BitStep(w)
    ensures v == w
  {
  }

  // ------------------------------------------------------------------ many bit steps

  lemma BitsLinear(v: bv16, w: bv16, n: nat)
    ensures Iter(BitStep, Plus(v, w), n) == Plus(Iter(BitStep, v, n), Iter(BitStep, w, n))
  {
    forall a: bv16, b: bv16
      ensures BitStep(Plus(a, b)) == Plus(BitStep(a), BitStep(b))
    {
      BitStepLinear(a, b);
    }
    IterLinear(BitStep, Plus, v, w, n);
  }

  lemma BitsInjective(v: bv16, w: bv16, n: nat)
    requires Iter(BitStep, v, n) == Iter(BitStep, w, n)
    ensures v == w
  {
    forall a: bv16, b: bv16 | BitStep(a) == BitStep(b)
      ensures a == b
    {
      BitStepInjective(a, b);
    }
    IterInjective(BitStep, v, w, n);
  }

  /** Bits above the low eight pass through eight steps unchanged. */
  lemma HighBits(w: bv16, up: bv16)
    requires w & 0xff00 == 0 && up == w << 8
    ensures Iter(BitStep, up, 8) == w
  {
    HighNibble(w << 4, up);
    HighNibble(w, w << 4);
    IterSplit(BitStep, up, 4, 4);
  }

  lemma HighNibble(w: bv16, up: bv16)
    requires w & 0xf000 == 0 && up == w << 4
    ensures Iter(BitStep, up, 4) == w
  {
    HighPair(w << 2, up);
    HighPair(w, w << 2);
    IterSplit(BitStep, up, 2, 2);
  }

  lemma HighPair(w: bv16, up: bv16)
    requires w & 0xc000 == 0 && up == w << 2
    ensures Iter(BitStep, up, 2) == w
  {
    HighBit(w << 1, up);
    HighBit(w, w << 1);
  }

  lemma HighBit(w: bv16, up: bv16)
    requires w & 0x8000 == 0 && up == w << 1
    ensures BitStep(up) == w
  {
  }

  /** Eight steps of a register with `w` folded in above its low byte. */
  lemma PreloadAt(v: bv16, w: bv16, up: bv16)
    requires w & 0xff00 == 0 && up == w << 8
    ensures Iter(BitStep, Plus(v, up), 8) == Plus(Iter(BitStep, v, 8), w)
  {
    BitsLinear(v, up, 8);
    HighBits(w, up);
  }

  lemma Preload(v: bv16, w: bv16)
    requires w & 0xff00 == 0
    ensures Iter(BitStep, Plus(v, Up(w)), 8) == Plus(Iter(BitStep, v, 8), w)
  {
    PreloadAt(v, w, Up(w));
  }

  // ------------------------------------------------------------------ the table

  function Shiftx2(c: bv16): bv16 { Shift(Shift(c)) }
  function Shiftx4(c: bv16): bv16 { Shiftx2(Shiftx2(c)) }
  function Shiftx8(c: bv16): bv16 { Shiftx4(Shiftx4(c)) }

  lemma FourBits(c: bv16)
    ensures Iter(BitStep, c, 4) == Shiftx4(c)
  {
    BranchFree(c);
    BranchFree(Shift(c));
    BranchFree(Shiftx2(c));
    BranchFree(Shift(Shiftx2(c)));
    assert Iter(BitStep, c, 4) == Iter(BitStep, Shiftx2(c), 2);
  }

  lemma EightBits(c: bv16)
    ensures Iter(BitStep, c, 8) == Shiftx8(c)
  {
    FourBits(c);
    FourBits(Shiftx4(c));
    IterSplit(BitStep, c, 4, 4);
  }

  lemma RowZeroLow(i: bv8)
    requires i < 8
    ensures FcsTab(i) == Shiftx8(i as bv16)
  {
  }

  lemma RowZeroHigh(i: bv8)
    requires 8 <= i < 16
    ensures FcsTab(i) == Shiftx8(i as bv16)
  {
  }

  lemma RowOne(i: bv8)
    requires 16 <= i < 32
    ensures FcsTab(i) == Shiftx8(i as bv16)
  {
  }

  lemma RowsTwoThree(i: bv8)
    requires 32 <= i < 64
    ensures FcsTab(i) == Shiftx8(i as bv16)
  {
  }

  lemma RowsFourFive(i: bv8)
    requires 64 <= i < 96
    ensures FcsTab(i) == Shiftx8(i as bv16)
  {
  }

  lemma RowsSixSeven(i: bv8)
    requires 96 <= i < 128
    ensures FcsTab(i) == Shiftx8(i as bv16)
  {
  }

  lemma RowsEightNine(i: bv8)
    requires 128 <= i < 160
    ensures FcsTab(i) == Shiftx8(i as bv16)
  {
  }

  lemma RowsTenEleven(i: bv8)
    requires 160 <= i < 192
    ensures FcsTab(i) == Shiftx8(i as bv16)
  {
  }

  lemma RowsTwelveThirteen(i: bv8)
    requires 192 <= i < 224
    ensures FcsTab(i) == Shiftx8(i as bv16)
  {
  }

  lemma RowsFourteenFifteen(i: bv8)
    requires 224 <= i
    ensures FcsTab(i) == Shiftx8(i as bv16)
  {
  }

  /** Every table entry is its index after eight bit steps. */
  lemma Table(i: bv8)
    ensures FcsTab(i) == Iter(BitStep, i as bv16, 8)
  {
    EightBits(i as bv16);
    if i < 8 { RowZeroLow(i); } else if i < 16 { RowZeroHigh(i); } else if i < 32 { RowOne(i); }
    else if i < 64 { RowsTwoThree(i); } else if i < 96 { RowsFourFive(i); } else if i < 128 { RowsSixSeven(i); }
    else if i < 160 { RowsEightNine(i); } else if i < 192 { RowsTenEleven(i); }
    else if i < 224 { RowsTwelveThirteen(i); } else { RowsFourteenFifteen(i); }
  }

  /** One table step, as `crc16_byte` takes it, is one bit-serial byte step. */
  function CrcByte(c: bv16, b: bv8): (r: bv16)
    ensures r == ByteStep(c, b)
  {
    assert (c >> 8) ^ FcsTab(((c ^ (b as bv16)) & 0xff) as bv8) == ByteStep(c, b) by { TableStep(c, b); }
    (c >> 8) ^ FcsTab(((c ^ (b as bv16)) & 0xff) as bv8)
  }

  lemma TableStep(c: bv16, b: bv8)
    ensures (c >> 8) ^ FcsTab(((c ^ (b as bv16)) & 0xff) as bv8) == ByteStep(c, b)
  {
    var i := ((c ^ (b as bv16)) & 0xff) as bv8;
    Table(i);
    ByteStepRaw(c, b);
    LowByte(c, b, c ^ (b as bv16), i, c >> 8, FcsTab(i));
  }

  lemma ByteStepRaw(c: bv16, b: bv8)
    ensures ByteStep(c, b) == Iter(BitStep, c ^ (b as bv16), 8)
  {
  }

  lemma LowByte(c: bv16, b: bv8, x: bv16, i: bv8, hi: bv16, entry: bv16)
    requires x == c ^ (b as bv16) && i == (x & 0xff) as bv8 && hi == c >> 8
    requires entry == Iter(BitStep, i as bv16, 8)
    ensures Iter(BitStep, x, 8) == hi ^ entry
  {
    SplitLow(c, b, x, i, hi, hi << 8);
    PreloadAt(i as bv16, hi, hi << 8);
  }

  lemma SplitLow(c: bv16, b: bv8, x: bv16, i: bv8, hi: bv16, up: bv16)
    requires x == c ^ (b as bv16) && i == (x & 0xff) as bv8 && hi == c >> 8 && up == hi << 8
    ensures x == Plus(i as bv16, up)
    ensures hi & 0xff00 == 0
  {
  }

  /** `tiny_crc16`: the table loop computes the bit-serial check sequence. */
  method TinyCrc(start: bv16, data: seq<bv8>) returns (crc: bv16)
    ensures crc == Fcs(start, data)
  {
    crc := start;
    var i := 0;
    while i < |data|
      invariant 0 <= i <= |data|
      invariant crc == Register(start, data[..i])
    {
      assert data[..i + 1][..i] == data[..i];
      crc := CrcByte(crc, data[i]);
      i := i + 1;
    }
    assert data[..i] == data;
    crc := crc ^ 0xffff;
  }

  // ------------------------------------------------------------------ 2 bytes at once

  /** 2 bytes as one word, the first byte lowest. */
  function Pack(d: seq<bv8>): bv16 { if d == [] then 0 else Plus(Embed(d[0]), Up(Pack(d[1..]))) }

  lemma {:induction false} PackBound(d: seq<bv8>)
    requires |d| < 2
    ensures Pack(d) & 0xff00 == 0
  {
    if d != [] { assert d[1..] == []; }
  }

  /** Feeding the bytes of a word one by one is folding in the whole word first. */
  lemma {:induction false} WordStep(c: bv16, d: seq<bv8>)
    requires |d| <= 2
    ensures Register(c, d) == Iter(BitStep, Plus(c, Pack(d)), 8 * |d|)
    decreases |d|
  {
    if d != [] {
      PackPeel(c, d);
      PackThrough(Plus(c, Embed(d[0])), d[1..]);
      WordStep(ByteStep(c, d[0]), d[1..]);
      FoldWord(BitStep, ByteStep, c, Plus(c, Pack(d)), d, 8, 8 * |d[1..]|);
    } else {
      assert Plus(c, 0) == c;
    }
  }

  lemma PackPeel(v: bv16, e: seq<bv8>)
    requires e != []
    ensures Plus(v, Pack(e)) == Plus(Plus(v, Embed(e[0])), Up(Pack(e[1..])))
  {
    Assoc(v, Embed(e[0]), Up(Pack(e[1..])));
  }

  lemma PackThrough(v: bv16, e: seq<bv8>)
    requires |e| < 2
    ensures Iter(BitStep, Plus(v, Up(Pack(e))), 8) == Plus(Iter(BitStep, v, 8), Pack(e))
  {
    PackBound(e);
    Preload(v, Pack(e));
  }

  lemma Assoc(a: bv16, b: bv16, c: bv16)
    ensures Plus(Plus(a, b), c) == Plus(a, Plus(b, c))
  {
  }

  lemma PackInjective(d: seq<bv8>, e: seq<bv8>)
    requires |d| == |e| <= 2
    requires Pack(d) == Pack(e)
    ensures d == e
  {
    forall x: seq<bv8>, y: seq<bv8> | 0 < |x| == |y| <= 2 && Pack(x) == Pack(y)
      ensures x[0] == y[0] && Pack(x[1..]) == Pack(y[1..])
    {
      PackBound(x[1..]);
      PackBound(y[1..]);
      Unpack(x[0], y[0], Pack(x[1..]), Pack(y[1..]));
    }
    WordInjective(Pack, 2, d, e);
  }

  lemma Unpack(a: bv8, b: bv8, u: bv16, v: bv16)
    requires u & 0xff00 == 0 && v & 0xff00 == 0
    requires Plus(Embed(a), Up(u)) == Plus(Embed(b), Up(v))
    ensures a == b && u == v
  {
  }

  /** The bytes of a word as they go on the wire, least significant first. */
  function Bytes(c: bv16): (d: seq<bv8>)
    ensures |d| == 2
  {
    [(c & 0xff) as bv8, ((c >> 8) & 0xff) as bv8]
  }

  lemma BytesPack(c: bv16)
    ensures Pack(Bytes(c)) == c
  {
    var d := Bytes(c);
    assert d[1..] == [d[1]] && d[1..][1..] == [];
  }

  // ------------------------------------------------------------------ residue and error detection

  lemma SameStart(c: bv16, u: bv16, v: bv16)
    requires Plus(c, u) == Plus(c, v)
    ensures u == v
  {
  }

  /** From one register, two different words of 2 bytes at most never meet again. */
  lemma WordDetected(c: bv16, d: seq<bv8>, e: seq<bv8>)
    requires |d| == |e| <= 2
    requires Register(c, d) == Register(c, e)
    ensures d == e
  {
    WordStep(c, d);
    WordStep(c, e);
    BitsInjective(Plus(c, Pack(d)), Plus(c, Pack(e)), 8 * |d|);
    SameStart(c, Pack(d), Pack(e));
    PackInjective(d, e);
  }

  /** Two registers that differ still differ after the same bytes. */
  lemma TailKeeps(c: bv16, e: bv16, data: seq<bv8>)
    requires Register(c, data) == Register(e, data)
    ensures c == e
  {
    forall v: bv16, w: bv16, b: bv8 | ByteStep(v, b) == ByteStep(w, b)
      ensures v == w
    {
      BitsInjective(Plus(v, Embed(b)), Plus(w, Embed(b)), 8);
      SameStart(Embed(b), v, w);
    }
    FoldInjective(ByteStep, c, e, data);
  }

  /** Equal registers after equally long strings that differ only inside 2 consecutive bytes: equal strings. */
  lemma Burst(c: bv16, f: seq<bv8>, g: seq<bv8>, start: nat)
    requires |f| == |g| && start + 2 <= |f|
    requires f[..start] == g[..start] && f[start + 2..] == g[start + 2..]
    requires Register(c, f) == Register(c, g)
    ensures f == g
  {
    var s := Register(c, f[..start]);
    var m, k, q := f[start..start + 2], g[start..start + 2], f[start + 2..];
    assert f == f[..start] + m + q && g == f[..start] + k + q;
    FoldAppend(ByteStep, c, f[..start] + m, q);
    FoldAppend(ByteStep, c, f[..start] + k, q);
    FoldAppend(ByteStep, c, f[..start], m);
    FoldAppend(ByteStep, c, f[..start], k);
    TailKeeps(Register(s, m), Register(s, k), q);
    WordDetected(s, m, k);
  }

  lemma GoodWord()
    ensures Iter(BitStep, 0xffff, 16) == 0xf0b8
  {
    EightBits(0xffff);
    EightBits(0xf87);
    IterSplit(BitStep, 0xffff, 8, 8);
  }

  /**
   * The residue: a register run over any message and then over its check sequence, least significant
   * byte first, always ends in 0xf0b8; and no other trailer of that length ends there.
   */
  lemma Residue(c: bv16, data: seq<bv8>, trailer: seq<bv8>)
    requires |trailer| == 2
    ensures Register(c, data + trailer) == 0xf0b8 <==> trailer == Bytes(Fcs(c, data))
  {
    FoldAppend(ByteStep, c, data, trailer);
    GoodTrailer(Register(c, data));
    if Register(c, data + trailer) == 0xf0b8 {
      WordDetected(Register(c, data), trailer, Bytes(Fcs(c, data)));
    }
  }

  lemma GoodTrailer(s: bv16)
    ensures Register(s, Bytes(s ^ 0xffff)) == 0xf0b8
  {
    BytesPack(s ^ 0xffff);
    Complement(s, s ^ 0xffff);
    WordStep(s, Bytes(s ^ 0xffff));
    GoodWord();
  }

  lemma Complement(s: bv16, t: bv16)
    requires t == s ^ 0xffff
    ensures Plus(s, t) == 0xffff
  {
  }
}
