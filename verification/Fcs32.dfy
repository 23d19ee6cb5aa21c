/**
 * FCS-32 of RFC 1662, appendix C: generator x**0 + x**1 + x**2 + x**4 + x**5 + x**7 + x**8 + x**10 + x**11 +
 * x**12 + x**16
 * + x**22 + x**23 + x**26 + x**32.
 * The bit-serial register is the reference; the lookup table, the loop over it, the residue
 * and the detection of bursts are proved against it.
 */
module Fcs32 {
  import opened Folds

  /** The lookup table, one row per high nibble of the index. */
  function FcsTab(i: bv8): bv32 {
    var lo := i & 0x0f;
    match i >> 4
    case 0  => Pick(lo, 0x00000000, 0x77073096, 0xee0e612c, 0x990951ba, 0x076dc419, 0x706af48f, 0xe963a535, 0x9e6495a3,
                        0x0edb8832, 0x79dcb8a4, 0xe0d5e91e, 0x97d2d988, 0x09b64c2b, 0x7eb17cbd, 0xe7b82d07, 0x90bf1d91)
    case 1  => Pick(lo, 0x1db71064, 0x6ab020f2, 0xf3b97148, 0x84be41de, 0x1adad47d, 0x6ddde4eb, 0xf4d4b551, 0x83d385c7,
                        0x136c9856, 0x646ba8c0, 0xfd62f97a, 0x8a65c9ec, 0x14015c4f, 0x63066cd9, 0xfa0f3d63, 0x8d080df5)
    case 2  => Pick(lo, 0x3b6e20c8, 0x4c69105e, 0xd56041e4, 0xa2677172, 0x3c03e4d1, 0x4b04d447, 0xd20d85fd, 0xa50ab56b,
                        0x35b5a8fa, 0x42b2986c, 0xdbbbc9d6, 0xacbcf940, 0x32d86ce3, 0x45df5c75, 0xdcd60dcf, 0xabd13d59)
    case 3  => Pick(lo, 0x26d930ac, 0x51de003a, 0xc8d75180, 0xbfd06116, 0x21b4f4b5, 0x56b3c423, 0xcfba9599, 0xb8bda50f,
                        0x2802b89e, 0x5f058808, 0xc60cd9b2, 0xb10be924, 0x2f6f7c87, 0x58684c11, 0xc1611dab, 0xb6662d3d)
    case 4  => Pick(lo, 0x76dc4190, 0x01db7106, 0x98d220bc, 0xefd5102a, 0x71b18589, 0x06b6b51f, 0x9fbfe4a5, 0xe8b8d433,
                        0x7807c9a2, 0x0f00f934, 0x9609a88e, 0xe10e9818, 0x7f6a0dbb, 0x086d3d2d, 0x91646c97, 0xe6635c01)
    case 5  => Pick(lo, 0x6b6b51f4, 0x1c6c6162, 0x856530d8, 0xf262004e, 0x6c0695ed, 0x1b01a57b, 0x8208f4c1, 0xf50fc457,
                        0x65b0d9c6, 0x12b7e950, 0x8bbeb8ea, 0xfcb9887c, 0x62dd1ddf, 0x15da2d49, 0x8cd37cf3, 0xfbd44c65)
    case 6  => Pick(lo, 0x4db26158, 0x3ab551ce, 0xa3bc0074, 0xd4bb30e2, 0x4adfa541, 0x3dd895d7, 0xa4d1c46d, 0xd3d6f4fb,
                        0x4369e96a, 0x346ed9fc, 0xad678846, 0xda60b8d0, 0x44042d73, 0x33031de5, 0xaa0a4c5f, 0xdd0d7cc9)
    case 7  => Pick(lo, 0x5005713c, 0x270241aa, 0xbe0b1010, 0xc90c2086, 0x5768b525, 0x206f85b3, 0xb966d409, 0xce61e49f,
                        0x5edef90e, 0x29d9c998, 0xb0d09822, 0xc7d7a8b4, 0x59b33d17, 0x2eb40d81, 0xb7bd5c3b, 0xc0ba6cad)
    case 8  => Pick(lo, 0xedb88320, 0x9abfb3b6, 0x03b6e20c, 0x74b1d29a, 0xead54739, 0x9dd277af, 0x04db2615, 0x73dc1683,
                        0xe3630b12, 0x94643b84, 0x0d6d6a3e, 0x7a6a5aa8, 0xe40ecf0b, 0x9309ff9d, 0x0a00ae27, 0x7d079eb1)
    case 9  => Pick(lo, 0xf00f9344, 0x8708a3d2, 0x1e01f268, 0x6906c2fe, 0xf762575d, 0x806567cb, 0x196c3671, 0x6e6b06e7,
                        0xfed41b76, 0x89d32be0, 0x10da7a5a, 0x67dd4acc, 0xf9b9df6f, 0x8ebeeff9, 0x17b7be43, 0x60b08ed5)
    case 10 => Pick(lo, 0xd6d6a3e8, 0xa1d1937e, 0x38d8c2c4, 0x4fdff252, 0xd1bb67f1, 0xa6bc5767, 0x3fb506dd, 0x48b2364b,
                        0xd80d2bda, 0xaf0a1b4c, 0x36034af6, 0x41047a60, 0xdf60efc3, 0xa867df55, 0x316e8eef, 0x4669be79)
    case 11 => Pick(lo, 0xcb61b38c, 0xbc66831a, 0x256fd2a0, 0x5268e236, 0xcc0c7795, 0xbb0b4703, 0x220216b9, 0x5505262f,
                        0xc5ba3bbe, 0xb2bd0b28, 0x2bb45a92, 0x5cb36a04, 0xc2d7ffa7, 0xb5d0cf31, 0x2cd99e8b, 0x5bdeae1d)
    case 12 => Pick(lo, 0x9b64c2b0, 0xec63f226, 0x756aa39c, 0x026d930a, 0x9c0906a9, 0xeb0e363f, 0x72076785, 0x05005713,
                        0x95bf4a82, 0xe2b87a14, 0x7bb12bae, 0x0cb61b38, 0x92d28e9b, 0xe5d5be0d, 0x7cdcefb7, 0x0bdbdf21)
    case 13 => Pick(lo, 0x86d3d2d4, 0xf1d4e242, 0x68ddb3f8, 0x1fda836e, 0x81be16cd, 0xf6b9265b, 0x6fb077e1, 0x18b74777,
                        0x88085ae6, 0xff0f6a70, 0x66063bca, 0x11010b5c, 0x8f659eff, 0xf862ae69, 0x616bffd3, 0x166ccf45)
    case 14 => Pick(lo, 0xa00ae278, 0xd70dd2ee, 0x4e048354, 0x3903b3c2, 0xa7672661, 0xd06016f7, 0x4969474d, 0x3e6e77db,
                        0xaed16a4a, 0xd9d65adc, 0x40df0b66, 0x37d83bf0, 0xa9bcae53, 0xdebb9ec5, 0x47b2cf7f, 0x30b5ffe9)
    case _  => Pick(lo, 0xbdbdf21c, 0xcabac28a, 0x53b39330, 0x24b4a3a6, 0xbad03605, 0xcdd70693, 0x54de5729, 0x23d967bf,
                        0xb3667a2e, 0xc4614ab8, 0x5d681b02, 0x2a6f2b94, 0xb40bbe37, 0xc30c8ea1, 0x5a05df1b, 0x2d02ef8d)
  }

  function Pick(lo: bv8, e0: bv32, e1: bv32, e2: bv32, e3: bv32, e4: bv32, e5: bv32, e6: bv32, e7: bv32,
                  e8: bv32, e9: bv32, ea: bv32, eb: bv32, ec: bv32, ed: bv32, ee: bv32, ef: bv32): bv32 {
    match lo
    case 0 => e0 case 1 => e1 case 2 => e2 case 3 => e3 case 4 => e4 case 5 => e5 case 6 => e6 case 7 => e7
    case 8 => e8 case 9 => e9 case 10 => ea case 11 => eb case 12 => ec case 13 => ed case 14 => ee case _ => ef
  }

  // ------------------------------------------------------------------ the reference

  /** One bit of the polynomial division, as RFC 1662 appendix C writes it. */
  function BitStep(c: bv32): bv32 { if c & 1 == 1 then (c >> 1) ^ 0xedb88320 else c >> 1 }

  function Plus(v: bv32, w: bv32): bv32 { v ^ w }
  function Embed(b: bv8): bv32 { b as bv32 }
  function Up(c: bv32): bv32 { c << 8 }

  /** One byte of the bit-serial register: fold the byte in, then eight bit steps. */
  function ByteStep(c: bv32, b: bv8): bv32 { Iter(BitStep, Plus(c, Embed(b)), 8) }

  /** The bit-serial register after a byte string. */
  function Register(c: bv32, data: seq<bv8>): bv32 { Fold(ByteStep, c, data) }

  /** The frame check sequence: the ones complement of the register. */
  function Fcs(c: bv32, data: seq<bv8>): bv32 { Register(c, data) ^ 0xffffffff }

  // ------------------------------------------------------------------ one bit step

  /** The bit step without a branch. */
  function Shift(c: bv32): bv32 { (c >> 1) ^ (0xedb88320 & (0 - (c & 1))) }

  lemma BranchFree(c: bv32)
    ensures Shift(c) == BitStep(c)
  {
    if c & 1 == 1 {
      assert 0xedb88320 & (0 - (c & 1)) == 0xedb88320;
    } else {
      assert c & 1 == 0;
      assert 0xedb88320 & (0 - (c & 1)) == 0;
    }
  }

  lemma LinearEvenEven(v: bv32, w: bv32)
    requires v & 1 == 0 && w & 1 == 0
    ensures BitStep(v ^ w) == BitStep(v) ^ BitStep(w)
  {
  }

  lemma LinearEvenOdd(v: bv32, w: bv32)
    requires v & 1 == 0 && w & 1 == 1
    ensures BitStep(v ^ w) == BitStep(v) ^ BitStep(w)
  {
  }

  lemma LinearOddOdd(v: bv32, w: bv32)
    requires v & 1 == 1 && w & 1 == 1
    ensures BitStep(v ^ w) == BitStep(v) ^ BitStep(w)
  {
  }

  lemma BitStepLinear(v: bv32, w: bv32)
    ensures BitStep(v ^ w) == BitStep(v) ^ BitStep(w)
  {
    if v & 1 == 0 {
      if w & 1 == 0 { LinearEvenEven(v, w); } else { LinearEvenOdd(v, w); }
    } else if w & 1 == 0 {
      LinearEvenOdd(w, v);
    } else {
      LinearOddOdd(v, w);
    }
  }

  lemma BitStepInjective(v: bv32, w: bv32)
    requires BitStep(v) == BitStep(w)
    ensures v == w
  {
  }

  // ------------------------------------------------------------------ many bit steps

  lemma BitsLinear(v: bv32, w: bv32, n: nat)
    ensures Iter(BitStep, Plus(v, w), n) == Plus(Iter(BitStep, v, n), Iter(BitStep, w, n))
  {
    forall a: bv32, b: bv32
      ensures BitStep(Plus(a, b)) == Plus(BitStep(a), BitStep(b))
    {
      BitStepLinear(a, b);
    }
    IterLinear(BitStep, Plus, v, w, n);
  }

  lemma BitsInjective(v: bv32, w: bv32, n: nat)
    requires Iter(BitStep, v, n) == Iter(BitStep, w, n)
    ensures v == w
  {
    forall a: bv32, b: bv32 | BitStep(a) == BitStep(b)
      ensures a == b
    {
      BitStepInjective(a, b);
    }
    IterInjective(BitStep, v, w, n);
  }

  /** Bits above the low eight pass through eight steps unchanged. */
  lemma HighBits(w: bv32, up: bv32)
    requires w & 0xff000000 == 0 && up == w << 8
    ensures Iter(BitStep, up, 8) == w
  {
    HighNibble(w << 4, up);
    HighNibble(w, w << 4);
    IterSplit(BitStep, up, 4, 4);
  }

  lemma HighNibble(w: bv32, up: bv32)
    requires w & 0xf0000000 == 0 && up == w << 4
    ensures Iter(BitStep, up, 4) == w
  {
    HighPair(w << 2, up);
    HighPair(w, w << 2);
    IterSplit(BitStep, up, 2, 2);
  }

  lemma HighPair(w: bv32, up: bv32)
    requires w & 0xc0000000 == 0 && up == w << 2
    ensures Iter(BitStep, up, 2) == w
  {
    HighBit(w << 1, up);
    HighBit(w, w << 1);
  }

  lemma HighBit(w: bv32, up: bv32)
    requires w & 0x80000000 == 0 && up == w << 1
    ensures BitStep(up) == w
  {
  }

  /** Eight steps of a register with `w` folded in above its low byte. */
  lemma PreloadAt(v: bv32, w: bv32, up: bv32)
    requires w & 0xff000000 == 0 && up == w << 8
    ensures Iter(BitStep, Plus(v, up), 8) == Plus(Iter(BitStep, v, 8), w)
  {
    BitsLinear(v, up, 8);
    HighBits(w, up);
  }

  lemma Preload(v: bv32, w: bv32)
    requires w & 0xff000000 == 0
    ensures Iter(BitStep, Plus(v, Up(w)), 8) == Plus(Iter(BitStep, v, 8), w)
  {
    PreloadAt(v, w, Up(w));
  }

  // ------------------------------------------------------------------ the table

  function Shiftx2(c: bv32): bv32 { Shift(Shift(c)) }
  function Shiftx4(c: bv32): bv32 { Shiftx2(Shiftx2(c)) }
  function Shiftx8(c: bv32): bv32 { Shiftx4(Shiftx4(c)) }

  lemma FourBits(c: bv32)
    ensures Iter(BitStep, c, 4) == Shiftx4(c)
  {
    BranchFree(c);
    BranchFree(Shift(c));
    BranchFree(Shiftx2(c));
    BranchFree(Shift(Shiftx2(c)));
    assert Iter(BitStep, c, 4) == Iter(BitStep, Shiftx2(c), 2);
  }

  lemma EightBits(c: bv32)
    ensures Iter(BitStep, c, 8) == Shiftx8(c)
  {
    FourBits(c);
    FourBits(Shiftx4(c));
    IterSplit(BitStep, c, 4, 4);
  }

  lemma RowZeroLow(i: bv8)
    requires i < 8
    ensures FcsTab(i) == Shiftx8(i as bv32)
  {
  }

  lemma RowZeroHigh(i: bv8)
    requires 8 <= i < 16
    ensures FcsTab(i) == Shiftx8(i as bv32)
  {
  }

  lemma RowOne(i: bv8)
    requires 16 <= i < 32
    ensures FcsTab(i) == Shiftx8(i as bv32)
  {
  }

  lemma RowsTwoThree(i: bv8)
    requires 32 <= i < 64
    ensures FcsTab(i) == Shiftx8(i as bv32)
  {
  }

  lemma RowsFourFive(i: bv8)
    requires 64 <= i < 96
    ensures FcsTab(i) == Shiftx8(i as bv32)
  {
  }

  lemma RowsSixSeven(i: bv8)
    requires 96 <= i < 128
    ensures FcsTab(i) == Shiftx8(i as bv32)
  {
  }

  lemma RowsEightNine(i: bv8)
    requires 128 <= i < 160
    ensures FcsTab(i) == Shiftx8(i as bv32)
  {
  }

  lemma RowsTenEleven(i: bv8)
    requires 160 <= i < 192
    ensures FcsTab(i) == Shiftx8(i as bv32)
  {
  }

  lemma RowsTwelveThirteen(i: bv8)
    requires 192 <= i < 224
    ensures FcsTab(i) == Shiftx8(i as bv32)
  {
  }

  lemma RowsFourteenFifteen(i: bv8)
    requires 224 <= i
    ensures FcsTab(i) == Shiftx8(i as bv32)
  {
  }

  /** Every table entry is its index after eight bit steps. */
  lemma Table(i: bv8)
    ensures FcsTab(i) == Iter(BitStep, i as bv32, 8)
  {
    EightBits(i as bv32);
    if i < 8 { RowZeroLow(i); } else if i < 16 { RowZeroHigh(i); } else if i < 32 { RowOne(i); }
    else if i < 64 { RowsTwoThree(i); } else if i < 96 { RowsFourFive(i); } else if i < 128 { RowsSixSeven(i); }
    else if i < 160 { RowsEightNine(i); } else if i < 192 { RowsTenEleven(i); }
    else if i < 224 { RowsTwelveThirteen(i); } else { RowsFourteenFifteen(i); }
  }

  /** One table step, as `crc32_byte` takes it, is one bit-serial byte step. */
  function CrcByte(c: bv32, b: bv8): (r: bv32)
    ensures r == ByteStep(c, b)
  {
    assert (c >> 8) ^ FcsTab(((c ^ (b as bv32)) & 0xff) as bv8) == ByteStep(c, b) by { TableStep(c, b); }
    (c >> 8) ^ FcsTab(((c ^ (b as bv32)) & 0xff) as bv8)
  }

  lemma TableStep(c: bv32, b: bv8)
    ensures (c >> 8) ^ FcsTab(((c ^ (b as bv32)) & 0xff) as bv8) == ByteStep(c, b)
  {
    var i := ((c ^ (b as bv32)) & 0xff) as bv8;
    Table(i);
    ByteStepRaw(c, b);
    LowByte(c, b, c ^ (b as bv32), i, c >> 8, FcsTab(i));
  }

  lemma ByteStepRaw(c: bv32, b: bv8)
    ensures ByteStep(c, b) == Iter(BitStep, c ^ (b as bv32), 8)
  {
  }

  lemma LowByte(c: bv32, b: bv8, x: bv32, i: bv8, hi: bv32, entry: bv32)
    requires x == c ^ (b as bv32) && i == (x & 0xff) as bv8 && hi == c >> 8
    requires entry == Iter(BitStep, i as bv32, 8)
    ensures Iter(BitStep, x, 8) == hi ^ entry
  {
    SplitLow(c, b, x, i, hi, hi << 8);
    PreloadAt(i as bv32, hi, hi << 8);
  }

  lemma SplitLow(c: bv32, b: bv8, x: bv32, i: bv8, hi: bv32, up: bv32)
    requires x == c ^ (b as bv32) && i == (x & 0xff) as bv8 && hi == c >> 8 && up == hi << 8
    ensures x == Plus(i as bv32, up)
    ensures hi & 0xff000000 == 0
  {
  }

  /** `tiny_crc32`: the table loop computes the bit-serial check sequence. */
  method TinyCrc(start: bv32, data: seq<bv8>) returns (crc: bv32)
    ensures crc == Fcs(start, data)
  {
    crc := start;
    var i := 0;
    while i < |data|
      invariant 0 <= i <= |data|
      invariant crc == Register(start, data[..i])
    {
      assert data[..i + 1][..i] == data[..i];
      crc := CrcByte(crc, data[i]);
      i := i + 1;
    }
    assert data[..i] == data;
    crc := crc ^ 0xffffffff;
  }

  // ------------------------------------------------------------------ 4 bytes at once

  /** 4 bytes as one word, the first byte lowest. */
  function Pack(d: seq<bv8>): bv32 { if d == [] then 0 else Plus(Embed(d[0]), Up(Pack(d[1..]))) }

  lemma {:induction false} PackBound(d: seq<bv8>)
    requires |d| < 4
    ensures Pack(d) & 0xff000000 == 0
  {
    if d != [] {
      PackBoundTwo(d[1..]);
      PackGrow(d[0], Pack(d[1..]));
    }
  }

  lemma PackGrow(b: bv8, rest: bv32)
    requires rest & 0xffff0000 == 0
    ensures Plus(Embed(b), Up(rest)) & 0xff000000 == 0
  {
  }

  lemma PackBoundTwo(d: seq<bv8>)
    requires |d| < 3
    ensures Pack(d) & 0xffff0000 == 0
  {
    if d != [] && d[1..] != [] { assert d[1..][1..] == []; }
  }

  /** Feeding the bytes of a word one by one is folding in the whole word first. */
  lemma {:induction false} WordStep(c: bv32, d: seq<bv8>)
    requires |d| <= 4
    ensures Register(c, d) == Iter(BitStep, Plus(c, Pack(d)), 8 * |d|)
    decreases |d|
  {
    if d != [] {
      PackPeel(c, d);
      PackThrough(Plus(c, Embed(d[0])), d[1..]);
      WordStep(ByteStep(c, d[0]), d[1..]);
      FoldWord(BitStep, ByteStep, c, Plus(c, Pack(d)), d, 8, 8 * |d[1..]|);
    } else {
      assert Plus(c, 0) == c;
    }
  }

  lemma PackPeel(v: bv32, e: seq<bv8>)
    requires e != []
    ensures Plus(v, Pack(e)) == Plus(Plus(v, Embed(e[0])), Up(Pack(e[1..])))
  {
    Assoc(v, Embed(e[0]), Up(Pack(e[1..])));
  }

  lemma PackThrough(v: bv32, e: seq<bv8>)
    requires |e| < 4
    ensures Iter(BitStep, Plus(v, Up(Pack(e))), 8) == Plus(Iter(BitStep, v, 8), Pack(e))
  {
    PackBound(e);
    Preload(v, Pack(e));
  }

  lemma Assoc(a: bv32, b: bv32, c: bv32)
    ensures Plus(Plus(a, b), c) == Plus(a, Plus(b, c))
  {
  }

  lemma PackInjective(d: seq<bv8>, e: seq<bv8>)
    requires |d| == |e| <= 4
    requires Pack(d) == Pack(e)
    ensures d == e
  {
    forall x: seq<bv8>, y: seq<bv8> | 0 < |x| == |y| <= 4 && Pack(x) == Pack(y)
      ensures x[0] == y[0] && Pack(x[1..]) == Pack(y[1..])
    {
      PackBound(x[1..]);
      PackBound(y[1..]);
      Unpack(x[0], y[0], Pack(x[1..]), Pack(y[1..]));
    }
    WordInjective(Pack, 4, d, e);
  }

  lemma Unpack(a: bv8, b: bv8, u: bv32, v: bv32)
    requires u & 0xff000000 == 0 && v & 0xff000000 == 0
    requires Plus(Embed(a), Up(u)) == Plus(Embed(b), Up(v))
    ensures a == b && u == v
  {
  }

  /** The bytes of a word as they go on the wire, least significant first. */
  function Bytes(c: bv32): (d: seq<bv8>)
    ensures |d| == 4
  {
    [(c & 0xff) as bv8, ((c >> 8) & 0xff) as bv8, ((c >> 16) & 0xff) as bv8, ((c >> 24) & 0xff) as bv8]
  }

  lemma BytesPack(c: bv32)
    ensures Pack(Bytes(c)) == c
  {
    var d := Bytes(c);
    PackFour(d);
    Rebuild(c, d[0], d[1], d[2], d[3]);
  }

  lemma PackFour(d: seq<bv8>)
    requires |d| == 4
    ensures Pack(d) == Join(d[0], d[1], d[2], d[3])
  {
    assert Pack(d[3..]) == Plus(Embed(d[3]), Up(0)) by { assert d[3..][1..] == []; }
    assert Pack(d[2..]) == Plus(Embed(d[2]), Up(Pack(d[3..]))) by { assert d[2..][1..] == d[3..]; }
    assert Pack(d[1..]) == Plus(Embed(d[1]), Up(Pack(d[2..]))) by { assert d[1..][1..] == d[2..]; }
  }

  function Join(a: bv8, b: bv8, c: bv8, d: bv8): bv32 {
    Plus(Embed(a), Up(Plus(Embed(b), Up(Plus(Embed(c), Up(Plus(Embed(d), Up(0))))))))
  }

  lemma Rebuild(w: bv32, a: bv8, b: bv8, c: bv8, d: bv8)
    requires a == (w & 0xff) as bv8 && b == ((w >> 8) & 0xff) as bv8
    requires c == ((w >> 16) & 0xff) as bv8 && d == ((w >> 24) & 0xff) as bv8
    ensures Join(a, b, c, d) == w
  {
  }

  // ------------------------------------------------------------------ residue and error detection

  lemma SameStart(c: bv32, u: bv32, v: bv32)
    requires Plus(c, u) == Plus(c, v)
    ensures u == v
  {
  }

  /** From one register, two different words of 4 bytes at most never meet again. */
  lemma WordDetected(c: bv32, d: seq<bv8>, e: seq<bv8>)
    requires |d| == |e| <= 4
    requires Register(c, d) == Register(c, e)
    ensures d == e
  {
    WordStep(c, d);
    WordStep(c, e);
    BitsInjective(Plus(c, Pack(d)), Plus(c, Pack(e)), 8 * |d|);
    SameStart(c, Pack(d), Pack(e));
    PackInjective(d, e);
  }

  /** Two registers that differ still differ after the same bytes. */
  lemma TailKeeps(c: bv32, e: bv32, data: seq<bv8>)
    requires Register(c, data) == Register(e, data)
    ensures c == e
  {
    forall v: bv32, w: bv32, b: bv8 | ByteStep(v, b) == ByteStep(w, b)
      ensures v == w
    {
      BitsInjective(Plus(v, Embed(b)), Plus(w, Embed(b)), 8);
      SameStart(Embed(b), v, w);
    }
    FoldInjective(ByteStep, c, e, data);
  }

  /** Equal registers after equally long strings that differ only inside 4 consecutive bytes: equal strings. */
  lemma Burst(c: bv32, f: seq<bv8>, g: seq<bv8>, start: nat)
    requires |f| == |g| && start + 4 <= |f|
    requires f[..start] == g[..start] && f[start + 4..] == g[start + 4..]
    requires Register(c, f) == Register(c, g)
    ensures f == g
  {
    var s := Register(c, f[..start]);
    var m, k, q := f[start..start + 4], g[start..start + 4], f[start + 4..];
    assert f == f[..start] + m + q && g == f[..start] + k + q;
    FoldAppend(ByteStep, c, f[..start] + m, q);
    FoldAppend(ByteStep, c, f[..start] + k, q);
    FoldAppend(ByteStep, c, f[..start], m);
    FoldAppend(ByteStep, c, f[..start], k);
    TailKeeps(Register(s, m), Register(s, k), q);
    WordDetected(s, m, k);
  }

  lemma GoodWord()
    ensures Iter(BitStep, 0xffffffff, 32) == 0xdebb20e3
  {
    EightBits(0xffffffff);
    EightBits(0x2dfd1072);
    EightBits(0xbe26ed00);
    EightBits(0xbe26ed);
    IterSplit(BitStep, 0xffffffff, 8, 24);
    IterSplit(BitStep, 0x2dfd1072, 8, 16);
    IterSplit(BitStep, 0xbe26ed00, 8, 8);
  }

  /**
   * The residue: a register run over any message and then over its check sequence, least significant
   * byte first, always ends in 0xdebb20e3; and no other trailer of that length ends there.
   */
  lemma Residue(c: bv32, data: seq<bv8>, trailer: seq<bv8>)
    requires |trailer| == 4
    ensures Register(c, data + trailer) == 0xdebb20e3 <==> trailer == Bytes(Fcs(c, data))
  {
    FoldAppend(ByteStep, c, data, trailer);
    GoodTrailer(Register(c, data));
    if Register(c, data + trailer) == 0xdebb20e3 {
      WordDetected(Register(c, data), trailer, Bytes(Fcs(c, data)));
    }
  }

  lemma GoodTrailer(s: bv32)
    ensures Register(s, Bytes(s ^ 0xffffffff)) == 0xdebb20e3
  {
    BytesPack(s ^ 0xffffffff);
    Complement(s, s ^ 0xffffffff);
    WordStep(s, Bytes(s ^ 0xffffffff));
    GoodWord();
  }

  lemma Complement(s: bv32, t: bv32)
    requires t == s ^ 0xffffffff
    ensures Plus(s, t) == 0xffffffff
  {
  }
}
