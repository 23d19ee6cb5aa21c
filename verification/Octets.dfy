/**
 * The octets themselves: what leaves the line for given frames, check values of known strings, control fields.
 */
module Octets {
  import opened Frames
  import opened Framing
  import opened Folds
  import Crc
  import Fcs16
  import Fcs32
  import Transmitting

  // ------------------------------------------------------------------ control fields

  /** The control octet of every U-frame without and with P/F, as ISO/IEC 13239 assigns them. */
  lemma UnnumberedOctets(station: byte, command: bool, info: seq<byte>)
    ensures forall k: UKind, poll: bool :: !k.Unknown? ==>
              Control(UFrame(station, command, k, poll, info)) == (if poll then 0x10 else 0) |
                (match k
                 case UA => 0x63 case DM => 0x0f case FRMR => 0x87 case RSET => 0x8f case SABM => 0x2f
                 case SNRM => 0x83 case DISC => 0x43 case UI => 0x03 case Unknown(c) => c)
  {
  }

  /** S- and I-frames: N(R) in the three high bits, then P/F, then the kind or N(S) and a last bit of 0. */
  lemma NumberedOctets(station: byte, command: bool, data: seq<byte>)
    ensures Control(SFrame(station, command, RR, 0, false)) == 0x01
    ensures Control(SFrame(station, command, RR, 7, true)) == 0xf1
    ensures Control(SFrame(station, command, REJ, 0, false)) == 0x09
    ensures Control(SFrame(station, command, REJ, 5, false)) == 0xa9
    ensures Control(SFrame(station, command, RNR, 3, false)) == 0x65
    ensures Control(SFrame(station, command, SREJ, 1, false)) == 0x2d
    ensures Control(IFrame(station, command, 0, 0, false, data)) == 0x00
    ensures Control(IFrame(station, command, 1, 0, false, data)) == 0x02
    ensures Control(IFrame(station, command, 7, 6, true, data)) == 0xde
  {
  }

  /** The address octet: station number, C/R bit, and 1 as the last bit. */
  lemma AddressOctets(f: Frame)
    ensures ToBytes(f)[0] == if f.command then f.station | 0x02 else f.station
  {
  }

  /** What a frame reject carries: the control octet rejected, then the N(R) and N(S) of the sender. */
  lemma RejectOctets(control: byte, nr: Seq8, ns: Seq8)
    ensures var info := RejectInfo(control, nr, ns);
            |info| == 2 && info[0] == control && info[1] >> 5 == Bits(nr) && info[1] & 0x1f == Bits(ns) << 1
    ensures RejectInfo(0xa9, 5, 2) == [0xa9, 0xa4]
  {
  }

  // ------------------------------------------------------------------ check values

  /** The register after the first `k` bytes. */
  predicate Reads16(data: seq<bv8>, k: nat, c: bv16) { k <= |data| && Fcs16.Register(0xffff, data[..k]) == c }

  /** One byte more: the register moves on by one table step. */
  lemma Grow16(data: seq<bv8>, k: nat, c: bv16, b: bv8, i: bv8, n: bv16)
    requires k < |data| && data[k] == b && Reads16(data, k, c)
    requires ((c ^ (b as bv16)) & 0xff) as bv8 == i && (c >> 8) ^ Fcs16.FcsTab(i) == n
    ensures Reads16(data, k + 1, n)
  {
    var _ := Fcs16.CrcByte(c, b);
    assert data[..k + 1][..k] == data[..k];
  }

  lemma Start16(data: seq<bv8>)
    ensures Reads16(data, 0, 0xffff)
  {
  }

  /** The register after the first `k` bytes. */
  predicate Reads32(data: seq<bv8>, k: nat, c: bv32) { k <= |data| && Fcs32.Register(0xffffffff, data[..k]) == c }

  /** One byte more: the register moves on by one table step. */
  lemma Grow32(data: seq<bv8>, k: nat, c: bv32, b: bv8, i: bv8, n: bv32)
    requires k < |data| && data[k] == b && Reads32(data, k, c)
    requires ((c ^ (b as bv32)) & 0xff) as bv8 == i && (c >> 8) ^ Fcs32.FcsTab(i) == n
    ensures Reads32(data, k + 1, n)
  {
    var _ := Fcs32.CrcByte(c, b);
    assert data[..k + 1][..k] == data[..k];
  }

  lemma Start32(data: seq<bv8>)
    ensures Reads32(data, 0, 0xffffffff)
  {
  }

  /** FCS-32 of one byte, 'a', as catalogues of CRC-32 give it. */
  lemma LetterCheck()
    ensures Fcs32.Fcs(0xffffffff, [0x61]) == 0xe8b7be43
  {
    var data: seq<bv8> := [0x61];
    Start32(data);
    Grow32(data, 0, 0xffffffff, 0x61, 0x9e, 0x174841bc);
    assert data[..1] == data;
  }

  // ------------------------------------------------------------------ whole frames

  /** The octets that have to be escaped, and how. */
  lemma EscapedOctets()
    ensures Stuff([0x7e]) == [0x7d, 0x5e] && Stuff([0x7d]) == [0x7d, 0x5d]
    ensures forall b: bv8 | b != 0x7e && b != 0x7d :: Stuff([b]) == [b]
  {
    forall b: bv8
      ensures Stuff([b]) == StuffByte(b)
    {
      assert [b][1..] == [];
    }
  }

  lemma Whole16(data: seq<bv8>, c: bv16)
    requires Reads16(data, |data|, c)
    ensures Fcs16.Fcs(0xffff, data) == c ^ 0xffff
  {
    assert data[..|data|] == data;
  }

  lemma Trailer16(body: seq<bv8>, w: bv16, low: bv8, high: bv8)
    requires Fcs16.Fcs(0xffff, body) == w && low == (w & 0xff) as bv8 && high == (w >> 8) as bv8
    ensures Crc.Trailer(Crc.Crc16, body) == [low, high]
  {
    hide Fcs16.Fcs;
  }

  /** A frame none of whose bytes needs an escape. */
  lemma PlainOnTheWire(capacity: nat, body: seq<bv8>, low: bv8, high: bv8)
    requires Crc.Trailer(Crc.Crc16, body) == [low, high] && forall b | b in body + [low, high] :: b != 0x7e && b != 0x7d
    ensures Encode(Link(Crc.Crc16, capacity), body) == [0x7e] + body + [low, high] + [0x7e]
  {
    hide Crc.Trailer;
    assert forall i | 0 <= i < |body + [low, high]| :: (body + [low, high])[i] in body + [low, high];
    Transmitting.Plain(body + [low, high]);
    assert [0x7e] + (body + [low, high]) + [0x7e] == [0x7e] + body + [low, high] + [0x7e];
  }

  /** The connection request of a balanced station, from flag to flag. */
  lemma SetupOnTheWire(capacity: nat)
    ensures Encode(Link(Crc.Crc16, capacity), ToBytes(UFrame(0x01, true, SABM, true, []))) ==
            [0x7e, 0x03, 0x3f, 0x5b, 0xec, 0x7e]
  {
    var body: seq<bv8> := [0x03, 0x3f];
    SetupBytes();
    SetupCheck();
    hide Crc.Trailer;
    hide Encode;
    hide ToBytes;
    PlainOnTheWire(capacity, body, 0x5b, 0xec);
  }

  lemma SetupBytes()
    ensures ToBytes(UFrame(0x01, true, SABM, true, [])) == [0x03, 0x3f]
  {
    UnnumberedOctets(0x01, true, []);
    hide Control;
  }

  lemma SetupCheck()
    ensures Crc.Trailer(Crc.Crc16, [0x03, 0x3f]) == [0x5b, 0xec]
  {
    hide Reads16;
    var body: seq<bv8> := [0x03, 0x3f];
    Start16(body);
    Grow16(body, 0, 0xffff, 0x03, 0xfc, 0x3d1c);
    Grow16(body, 1, 0x3d1c, 0x3f, 0x23, 0x13a4);
    Whole16(body, 0x13a4);
    Trailer16(body, 0xec5b, 0x5b, 0xec);
  }

  /** The first I-frame of a balanced station, with the one byte '#'. */
  lemma DataOnTheWire(capacity: nat)
    ensures Encode(Link(Crc.Crc16, capacity), ToBytes(IFrame(0x01, false, 0, 0, false, [0x23]))) ==
            [0x7e, 0x01, 0x00, 0x23, 0x89, 0x8f, 0x7e]
  {
    var body: seq<bv8> := [0x01, 0x00, 0x23];
    DataBytes();
    DataCheck();
    hide Crc.Trailer;
    hide Encode;
    hide ToBytes;
    PlainOnTheWire(capacity, body, 0x89, 0x8f);
  }

  lemma DataBytes()
    ensures ToBytes(IFrame(0x01, false, 0, 0, false, [0x23])) == [0x01, 0x00, 0x23]
  {
    NumberedOctets(0x01, false, [0x23]);
    hide Control;
  }

  lemma DataCheck()
    ensures Crc.Trailer(Crc.Crc16, [0x01, 0x00, 0x23]) == [0x89, 0x8f]
  {
    hide Reads16;
    var body: seq<bv8> := [0x01, 0x00, 0x23];
    Start16(body);
    Grow16(body, 0, 0xffff, 0x01, 0xfe, 0x1e0e);
    Grow16(body, 1, 0x1e0e, 0x00, 0x0e, 0xe960);
    Grow16(body, 2, 0xe960, 0x23, 0x43, 0x7076);
    Whole16(body, 0x7076);
    Trailer16(body, 0x8f89, 0x89, 0x8f);
  }

  /** Three bytes under the checksum, two of them escaped, and the checksum too. */
  lemma ChecksumOnTheWire(capacity: nat)
    ensures Encode(Link(Crc.Crc8, capacity), [0x7e, 0x7d, 0x87])
            == [0x7e, 0x7d, 0x5e, 0x7d, 0x5d, 0x87, 0x7d, 0x5d, 0x7e]
  {
    var data: seq<bv8> := [0x7e, 0x7d, 0x87];
    SumUp();
    assert Crc.Trailer(Crc.Crc8, data) == [0x7d];
    EscapedOctets();
    StuffAppend([0x7e], [0x7d] + ([0x87] + [0x7d]));
    StuffAppend([0x7d], [0x87] + [0x7d]);
    StuffAppend([0x87], [0x7d]);
    assert data + [0x7d] == [0x7e] + ([0x7d] + ([0x87] + [0x7d]));
    hide Stuff;
    assert Stuff(data + [0x7d]) == [0x7d, 0x5e, 0x7d, 0x5d, 0x87, 0x7d, 0x5d];
  }

  lemma SumUp()
    ensures Crc.Checksum(0, [0x7e, 0x7d, 0x87]) == 0xfe7d
  {
    assert [0x7e, 0x7d, 0x87][..2] == [0x7e, 0x7d];
    assert [0x7e, 0x7d][..1] == [0x7e];
    assert [0x7e][..0] == [];
    assert Fold(Crc.SumByte, 0, [0x7e]) == 0x7e;
    assert Fold(Crc.SumByte, 0, [0x7e, 0x7d]) == 0xfb;
    assert Fold(Crc.SumByte, 0, [0x7e, 0x7d, 0x87]) == 0x182;
  }
}
