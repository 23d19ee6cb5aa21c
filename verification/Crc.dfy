/**
 * The check field of a frame: which check is used, what the transmitter appends and what the receiver accepts.
 */
module Crc {
  import opened Folds
  import Fcs16
  import Fcs32

  /** `crc_type` as the framing handle stores it: off and default are both stored as zero. */
  datatype CrcType = NoCrc | Crc8 | Crc16 | Crc32

  /** Size of the check field in bytes: `crc_type / 8`. */
  function FieldSize(t: CrcType): nat {
    match t case NoCrc => 0 case Crc8 => 1 case Crc16 => 2 case Crc32 => 4
  }

  // ------------------------------------------------------------------ the 8-bit checksum

  /** `chksum_byte`. */
  function SumByte(sum: bv16, b: bv8): bv16 { sum + (b as bv16) }

  function Checksum(start: bv16, data: seq<bv8>): bv16 { Finish(Fold(SumByte, start, data)) }
  function Finish(sum: bv16): bv16 { 0xffff - sum }
  function Low(t: bv32): bv16 { (t & 0xffff) as bv16 }
  function AddByte(t: bv32, b: bv8): bv32 { t + (b as bv32) }

  /** `tiny_chksum`: the 32-bit accumulator agrees with a sum that wraps at 16 bits. */
  method TinyChksum(start: bv16, data: seq<bv8>) returns (sum: bv16)
    ensures sum == Checksum(start, data)
  {
    var tmp: bv32 := start as bv32;
    Widen(start);
    var i := 0;
    while i < |data|
      invariant 0 <= i <= |data|
      invariant Low(tmp) == Fold(SumByte, start, data[..i])
    {
      assert data[..i + 1][..i] == data[..i];
      WrapAdd(tmp, data[i]);
      tmp := AddByte(tmp, data[i]);
      i := i + 1;
    }
    assert data[..i] == data;
    sum := Finish(Low(tmp));
  }

  lemma Widen(start: bv16)
    ensures Low(start as bv32) == start
  {
  }

  lemma WrapAdd(t: bv32, b: bv8)
    ensures Low(AddByte(t, b)) == SumByte(Low(t), b)
  {
  }

  // ------------------------------------------------------------------ the check field

  /** The value both ends compute over the payload (zero when there is no check). */
  function Word(t: CrcType, data: seq<bv8>): bv32 {
    match t
    case NoCrc => 0
    case Crc8 => Checksum(0, data) as bv32
    case Crc16 => Fcs16.Fcs(0xffff, data) as bv32
    case Crc32 => Fcs32.Fcs(0xffffffff, data)
  }

  method ComputeWord(t: CrcType, data: seq<bv8>) returns (crc: bv32)
    ensures crc == Word(t, data)
  {
    match t
    case NoCrc => crc := 0;
    case Crc8 => var c := TinyChksum(0, data); crc := c as bv32;
    case Crc16 => var c := Fcs16.TinyCrc(0xffff, data); crc := c as bv32;
    case Crc32 => crc := Fcs32.TinyCrc(0xffffffff, data);
  }

  /** Byte `k` of a word, least significant first: `crc >> 8 * k`. */
  function ByteAt(c: bv32, k: nat): bv8
    requires k < 4
  {
    match k
    case 0 => (c & 0xff) as bv8
    case 1 => ((c >> 8) & 0xff) as bv8
    case 2 => ((c >> 16) & 0xff) as bv8
    case _ => ((c >> 24) & 0xff) as bv8
  }

  /** The check field as it goes on the wire. */
  function Field(t: CrcType, w: bv32): (d: seq<bv8>)
    ensures |d| == FieldSize(t)
  {
    match t
    case NoCrc => []
    case Crc8 => [ByteAt(w, 0)]
    case Crc16 => [ByteAt(w, 0), ByteAt(w, 1)]
    case Crc32 => [ByteAt(w, 0), ByteAt(w, 1), ByteAt(w, 2), ByteAt(w, 3)]
  }

  /** What the transmitter appends to a payload. */
  function Trailer(t: CrcType, data: seq<bv8>): seq<bv8> { Field(t, Word(t, data)) }

  /** The value the receiver assembles from the last bytes of a frame. */
  function ReadWord(t: CrcType, d: seq<bv8>): bv32
    requires |d| == FieldSize(t)
  {
    match t
    case NoCrc => 0
    case Crc8 => d[0] as bv32
    case Crc16 => Join(d[0], d[1], 0, 0)
    case Crc32 => Join(d[0], d[1], d[2], d[3])
  }

  function Join(a: bv8, b: bv8, c: bv8, d: bv8): bv32 {
    (a as bv32) | ((b as bv32) << 8) | ((c as bv32) << 16) | ((d as bv32) << 24)
  }

  /** The computed value as the receiver compares it: the checksum is masked to eight bits. */
  function Expected(t: CrcType, w: bv32): bv32 { if t == Crc8 then w & 0xff else w }

  /** Comparing the assembled value with the computed one is comparing the bytes. */
  lemma ReadMatches(t: CrcType, w: bv32, d: seq<bv8>)
    requires |d| == FieldSize(t)
    requires t == NoCrc ==> w == 0
    requires t == Crc16 ==> w & 0xffff0000 == 0
    ensures ReadWord(t, d) == Expected(t, w) <==> d == Field(t, w)
  {
    var s := Field(t, w);
    match t
    case NoCrc =>
    case Crc8 => ReadOne(w, d[0]); assert d == s <==> d[0] == s[0];
    case Crc16 => ReadTwo(w, d[0], d[1]); assert d == s <==> d[0] == s[0] && d[1] == s[1];
    case Crc32 =>
      ReadFour(w, d[0], d[1], d[2], d[3]);
      assert d == s <==> d[0] == s[0] && d[1] == s[1] && d[2] == s[2] && d[3] == s[3];
  }

  lemma ReadTwo(w: bv32, a: bv8, b: bv8)
    requires w & 0xffff0000 == 0
    ensures Join(a, b, 0, 0) == w <==> a == ByteAt(w, 0) && b == ByteAt(w, 1)
  {
    JoinBytes(a, b, 0, 0);
    BytesJoin(w);
    HighZero(w);
  }

  lemma ReadFour(w: bv32, a: bv8, b: bv8, c: bv8, d: bv8)
    ensures Join(a, b, c, d) == w <==>
            a == ByteAt(w, 0) && b == ByteAt(w, 1) && c == ByteAt(w, 2) && d == ByteAt(w, 3)
  {
    JoinBytes(a, b, c, d);
    BytesJoin(w);
  }

  lemma ReadOne(w: bv32, a: bv8)
    ensures a as bv32 == w & 0xff <==> a == ByteAt(w, 0)
  {
  }

  lemma JoinBytes(a: bv8, b: bv8, c: bv8, d: bv8)
    ensures var w := Join(a, b, c, d); ByteAt(w, 0) == a && ByteAt(w, 1) == b && ByteAt(w, 2) == c && ByteAt(w, 3) == d
  {
  }

  lemma BytesJoin(w: bv32)
    ensures Join(ByteAt(w, 0), ByteAt(w, 1), ByteAt(w, 2), ByteAt(w, 3)) == w
  {
  }

  lemma HighZero(w: bv32)
    requires w & 0xffff0000 == 0
    ensures ByteAt(w, 2) == 0 && ByteAt(w, 3) == 0
  {
  }

  lemma WordFits(t: CrcType, data: seq<bv8>)
    ensures t == NoCrc ==> Word(t, data) == 0
    ensures t == Crc16 ==> Word(t, data) & 0xffff0000 == 0
  {
    if t == Crc16 { Wide(Fcs16.Fcs(0xffff, data)); }
  }

  lemma Wide(c: bv16)
    ensures (c as bv32) & 0xffff0000 == 0
  {
  }

  // ------------------------------------------------------------------ what is accepted

  /** A received byte string whose check field fits its payload. */
  predicate Accepts(t: CrcType, frame: seq<bv8>) {
    && |frame| >= FieldSize(t)
    && frame[|frame| - FieldSize(t)..] == Trailer(t, frame[..|frame| - FieldSize(t)])
  }

  /** The comparison the receiver makes, of the value read with the value computed, is exactly that. */
  lemma ComparisonAccepts(t: CrcType, frame: seq<bv8>)
    requires |frame| >= FieldSize(t)
    ensures var n := |frame| - FieldSize(t);
            Accepts(t, frame) <==> ReadWord(t, frame[n..]) == Expected(t, Word(t, frame[..n]))
  {
    var n := |frame| - FieldSize(t);
    WordFits(t, frame[..n]);
    ReadMatches(t, Word(t, frame[..n]), frame[n..]);
  }

  /** Acceptance is the residue test of RFC 1662. */
  lemma AcceptIsResidue(t: CrcType, frame: seq<bv8>)
    requires |frame| >= FieldSize(t)
    ensures t == Crc16 ==> (Accepts(t, frame) <==> Fcs16.Register(0xffff, frame) == 0xf0b8)
    ensures t == Crc32 ==> (Accepts(t, frame) <==> Fcs32.Register(0xffffffff, frame) == 0xdebb20e3)
  {
    var n := |frame| - FieldSize(t);
    assert frame == frame[..n] + frame[n..];
    if t == Crc16 {
      Fcs16.Residue(0xffff, frame[..n], frame[n..]);
      Field16(Fcs16.Fcs(0xffff, frame[..n]), Word(t, frame[..n]));
    } else if t == Crc32 {
      Fcs32.Residue(0xffffffff, frame[..n], frame[n..]);
      Field32(Fcs32.Fcs(0xffffffff, frame[..n]));
    }
  }

  lemma Field16(c: bv16, w: bv32)
    requires w == c as bv32
    ensures Field(Crc16, w) == Fcs16.Bytes(c)
  {
  }

  lemma Field32(w: bv32)
    ensures Field(Crc32, w) == Fcs32.Bytes(w)
  {
  }

  /**
   * Burst detection: of two different byte strings of one length that differ only inside as many
   * consecutive bytes as the check field has (two or four, the field itself included), at most one is accepted.
   */
  lemma BurstDetected(t: CrcType, f: seq<bv8>, g: seq<bv8>, start: nat)
    requires t == Crc16 || t == Crc32
    requires |f| == |g|
    requires forall i | 0 <= i < |f| && !(start <= i < start + FieldSize(t)) :: f[i] == g[i]
    requires Accepts(t, f) && Accepts(t, g)
    ensures f == g
  {
    var n := FieldSize(t);
    var s := if start + n <= |f| then start else |f| - n;
    assert f[..s] == g[..s] && f[s + n..] == g[s + n..];
    SameResidue(t, f, g);
    if t == Crc16 {
      Fcs16.Burst(0xffff, f, g, s);
    } else {
      Fcs32.Burst(0xffffffff, f, g, s);
    }
  }

  lemma SameResidue(t: CrcType, f: seq<bv8>, g: seq<bv8>)
    requires Accepts(t, f) && Accepts(t, g)
    ensures t == Crc16 ==> Fcs16.Register(0xffff, f) == Fcs16.Register(0xffff, g)
    ensures t == Crc32 ==> Fcs32.Register(0xffffffff, f) == Fcs32.Register(0xffffffff, g)
  {
    AcceptIsResidue(t, f);
    AcceptIsResidue(t, g);
  }
}
