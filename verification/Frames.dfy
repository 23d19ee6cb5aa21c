/**
 * HDLC frames with a two-byte header, as the full-duplex protocol builds and reads them
 * (control field formats of ISO/IEC 13239 with 3-bit sequence numbers).
 */
module Frames {
  datatype Option<+T> = None | Some(value: T)

  type byte = bv8

  /** Sequence numbers N(S) and N(R): `seq_bits_mask`. */
  type Seq8 = x: nat | x < 8

  datatype SKind = RR | RNR | REJ | SREJ
  datatype UKind = UA | DM | FRMR | RSET | SABM | SNRM | DISC | UI | Unknown(code: byte)

  /** `station` is the address byte without its C/R bit; `command` is that bit. */
  datatype Frame =
    | IFrame(station: byte, command: bool, ns: Seq8, nr: Seq8, poll: bool, payload: seq<byte>)
    | SFrame(station: byte, command: bool, kind: SKind, nr: Seq8, poll: bool)
    | UFrame(station: byte, command: bool, ukind: UKind, poll: bool, info: seq<byte>)

  /** Adding and subtracting one under `seq_bits_mask`. */
  function Inc(n: Seq8): Seq8 { if n == 7 then 0 else n + 1 }
  function Dec(n: Seq8): Seq8 { if n == 0 then 7 else n - 1 }

  /** How far `a` is ahead of `b` in sequence order. */
  function Ahead(a: Seq8, b: Seq8): Seq8 { if a >= b then a - b else a + 8 - b }

  // ------------------------------------------------------------------ bits

  function Bits(n: Seq8): byte {
    match n
    case 0 => 0 case 1 => 1 case 2 => 2 case 3 => 3 case 4 => 4 case 5 => 5 case 6 => 6 case _ => 7
  }

  function Number(b: byte): Seq8 {
    match b
    case 0 => 0 case 1 => 1 case 2 => 2 case 3 => 3 case 4 => 4 case 5 => 5 case 6 => 6 case _ => 7
  }

  function PollBit(poll: bool): byte { if poll then 0x10 else 0 }

  function SCode(k: SKind): byte {
    match k case RR => 0x00 case RNR => 0x04 case REJ => 0x08 case SREJ => 0x0c
  }

  function SKindOf(c: byte): SKind {
    match c case 0x00 => RR case 0x04 => RNR case 0x08 => REJ case _ => SREJ
  }

  function UCode(k: UKind): byte {
    match k
    case UA => 0x60 case DM => 0x0c case FRMR => 0x84 case RSET => 0x8c case SABM => 0x2c
    case SNRM => 0x80 case DISC => 0x40 case UI => 0x00 case Unknown(code) => code
  }

  function UKindOf(c: byte): UKind {
    match c
    case 0x60 => UA case 0x0c => DM case 0x84 => FRMR case 0x8c => RSET case 0x2c => SABM
    case 0x80 => SNRM case 0x40 => DISC case 0x00 => UI case _ => Unknown(c)
  }

  function Control(f: Frame): byte {
    match f
    case IFrame(_, _, ns, nr, poll, _) => (Bits(nr) << 5) | PollBit(poll) | (Bits(ns) << 1)
    case SFrame(_, _, kind, nr, poll) => (Bits(nr) << 5) | PollBit(poll) | SCode(kind) | 0x01
    case UFrame(_, _, kind, poll, _) => UCode(kind) | PollBit(poll) | 0x03
  }

  /** The two information bytes of a frame reject: the rejected control field, then N(R) and N(S). */
  function RejectInfo(control: byte, nr: Seq8, ns: Seq8): seq<byte> { [control, (Bits(nr) << 5) | (Bits(ns) << 1)] }

  // ------------------------------------------------------------------ bytes

  function Payload(f: Frame): seq<byte> {
    match f
    case IFrame(_, _, _, _, _, payload) => payload
    case SFrame(_, _, _, _, _) => []
    case UFrame(_, _, _, _, info) => info
  }

  function ToBytes(f: Frame): seq<byte> {
    [f.station | (if f.command then 0x02 else 0), Control(f)] + Payload(f)
  }

  /**
   * The way `on_frame_read` and its handlers read a received byte string; too short or an extended address: no
   * frame.
   */
  function FromBytes(data: seq<byte>): Option<Frame> {
    if |data| < 2 || data[0] & 0x01 == 0 then None
    else
      var station, command, c := data[0] & 0xfd, data[0] & 0x02 == 0x02, data[1];
      var poll := c & 0x10 == 0x10;
      if c & 0x03 == 0x03 then Some(UFrame(station, command, UKindOf(c & 0xec), poll, data[2..]))
      else if c & 0x01 == 0x00 then
        Some(IFrame(station, command, Number((c >> 1) & 0x07), Number(c >> 5), poll, data[2..]))
      else Some(SFrame(station, command, SKindOf(c & 0x0c), Number(c >> 5), poll))
  }

  /** A frame this library can build: an unextended address without its C/R bit, and a U kind it knows. */
  predicate Sendable(f: Frame) {
    f.station & 0x03 == 0x01 && (f.UFrame? ==> !f.ukind.Unknown?)
  }

  /** Every frame the library builds is read back as itself. */
  lemma FrameRoundTrip(f: Frame)
    requires Sendable(f)
    ensures FromBytes(ToBytes(f)) == Some(f)
  {
    hide UCode;
    hide UKindOf;
    hide SCode;
    hide SKindOf;
    hide Number;
    hide Bits;
    hide PollBit;
    var data := ToBytes(f);
    assert data[2..] == Payload(f);
    AddressBits(f.station, f.command, data[0]);
    match f
    case IFrame(_, _, ns, nr, poll, _) => InfoBits(ns, nr, poll);
    case SFrame(_, _, kind, nr, poll) => SuperBits(kind, nr, poll);
    case UFrame(_, _, kind, poll, _) => UnnumberedBits(kind, poll);
  }

  /**
   * And whatever is read as a frame gives its bytes again, but for bytes behind an S-frame, which are not looked
   * at.
   */
  lemma BytesRoundTrip(data: seq<byte>)
    requires FromBytes(data).Some?
    ensures var f := FromBytes(data).value; ToBytes(f) == if f.SFrame? then data[..2] else data
  {
    var f := FromBytes(data).value;
    ControlRead(data);
    AddressBack(data[0]);
    hide Control;
    assert ToBytes(f) == [data[0], data[1]] + Payload(f);
    assert data[..2] == [data[0], data[1]] && data == [data[0], data[1]] + data[2..];
  }

  /** A frame is read back to its control octet, its address and the bytes behind. */
  ghost predicate ReadsAs(f: Frame, data: seq<byte>)
    requires |data| >= 2
  {
    && Control(f) == data[1] && f.station == data[0] & 0xfd && f.command == (data[0] & 0x02 == 0x02)
    && Payload(f) == if f.SFrame? then [] else data[2..]
  }

  lemma ControlRead(data: seq<byte>)
    requires FromBytes(data).Some?
    ensures ReadsAs(FromBytes(data).value, data)
  {
    var f, c := FromBytes(data).value, data[1];
    var station, command := data[0] & 0xfd, data[0] & 0x02 == 0x02;
    hide Control;
    hide UKindOf;
    hide SKindOf;
    hide Number;
    if f.UFrame? {
      assert c & 0x03 == 0x03;
      UnnumberedRead(c, station, command, data[2..]);
    } else if f.IFrame? {
      assert c & 0x01 == 0x00;
      InfoRead(c, station, command, data[2..]);
    } else {
      SuperRead(c, station, command);
    }
  }

  lemma UnnumberedRead(c: byte, station: byte, command: bool, info: seq<byte>)
    requires c & 0x03 == 0x03
    ensures Control(UFrame(station, command, UKindOf(c & 0xec), c & 0x10 == 0x10, info)) == c
  {
    UnnumberedBack(c);
  }

  lemma InfoRead(c: byte, station: byte, command: bool, payload: seq<byte>)
    requires c & 0x01 == 0x00
    ensures Control(IFrame(station, command, Number((c >> 1) & 0x07), Number(c >> 5), c & 0x10 == 0x10, payload)) == c
  {
    var s, r := (c >> 1) & 0x07, c >> 5;
    InfoBack(c, s, r);
    NumberBack(s);
    NumberBack(r);
    hide Number;
    hide Bits;
    hide PollBit;
  }

  lemma SuperRead(c: byte, station: byte, command: bool)
    requires c & 0x03 != 0x03 && c & 0x01 != 0x00
    ensures Control(SFrame(station, command, SKindOf(c & 0x0c), Number(c >> 5), c & 0x10 == 0x10)) == c
  {
    var r := c >> 5;
    ShapeOf(c);
    SuperBack(c, r);
    NumberBack(r);
    hide Number;
    hide Bits;
    hide PollBit;
    hide SCode;
    hide SKindOf;
  }

  lemma ShapeOf(c: byte)
    ensures c & 0x03 == 0x03 || c & 0x01 == 0x00 || c & 0x03 == 0x01
  {
  }

  lemma AddressBack(b: byte)
    requires b & 0x01 != 0
    ensures (b & 0xfd) | (if b & 0x02 == 0x02 then 0x02 else 0) == b
  {
  }

  lemma NumberBack(b: byte)
    requires b <= 7
    ensures Bits(Number(b)) == b
  {
  }

  lemma UnnumberedBack(c: byte)
    requires c & 0x03 == 0x03
    ensures UCode(UKindOf(c & 0xec)) | PollBit(c & 0x10 == 0x10) | 0x03 == c
  {
    assert UCode(UKindOf(c & 0xec)) == c & 0xec;
    assert (c & 0xec) | (if c & 0x10 == 0x10 then 0x10 else 0) | 0x03 == c;
  }

  lemma InfoBack(c: byte, s: byte, r: byte)
    requires c & 0x01 == 0x00 && s == (c >> 1) & 0x07 && r == c >> 5
    ensures s <= 7 && r <= 7 && (r << 5) | PollBit(c & 0x10 == 0x10) | (s << 1) == c
  {
  }

  lemma SuperBack(c: byte, r: byte)
    requires c & 0x03 == 0x01 && r == c >> 5
    ensures r <= 7 && (r << 5) | PollBit(c & 0x10 == 0x10) | SCode(SKindOf(c & 0x0c)) | 0x01 == c
  {
    assert SCode(SKindOf(c & 0x0c)) == c & 0x0c;
    assert (r << 5) | (if c & 0x10 == 0x10 then 0x10 else 0) | (c & 0x0c) | 0x01 == c;
  }

  lemma AddressBits(station: byte, command: bool, b: byte)
    requires station & 0x03 == 0x01 && b == station | (if command then 0x02 else 0)
    ensures b & 0x01 == 1 && b & 0xfd == station && (b & 0x02 == 0x02 <==> command)
  {
  }

  lemma NumberBits(n: Seq8)
    ensures Bits(n) & 0xf8 == 0 && Number(Bits(n)) == n
  {
  }

  lemma InfoBits(ns: Seq8, nr: Seq8, poll: bool)
    ensures var c := (Bits(nr) << 5) | PollBit(poll) | (Bits(ns) << 1);
            && c & 0x01 == 0 && c & 0x03 != 0x03 && (c & 0x10 == 0x10 <==> poll)
            && Number((c >> 1) & 0x07) == ns && Number(c >> 5) == nr
  {
    NumberBits(ns);
    NumberBits(nr);
    InfoLayout(Bits(ns), Bits(nr), PollBit(poll));
  }

  lemma InfoLayout(s: byte, r: byte, p: byte)
    requires s & 0xf8 == 0 && r & 0xf8 == 0 && (p == 0x10 || p == 0)
    ensures var c := (r << 5) | p | (s << 1);
            c & 0x01 == 0 && c & 0x03 != 0x03 && c & 0x10 == p && (c >> 1) & 0x07 == s && c >> 5 == r
  {
  }

  lemma SuperBits(kind: SKind, nr: Seq8, poll: bool)
    ensures var c := (Bits(nr) << 5) | PollBit(poll) | SCode(kind) | 0x01;
            && c & 0x03 == 0x01 && c & 0x01 == 0x01 && (c & 0x10 == 0x10 <==> poll)
            && SKindOf(c & 0x0c) == kind && Number(c >> 5) == nr
  {
    NumberBits(nr);
    SuperLayout(SCode(kind), Bits(nr), PollBit(poll));
  }

  lemma SuperLayout(k: byte, r: byte, p: byte)
    requires k & 0xf3 == 0 && r & 0xf8 == 0 && (p == 0x10 || p == 0)
    ensures var c := (r << 5) | p | k | 0x01;
            c & 0x03 == 0x01 && c & 0x01 == 0x01 && c & 0x10 == p && c & 0x0c == k && c >> 5 == r
  {
  }

  lemma UnnumberedBits(kind: UKind, poll: bool)
    requires !kind.Unknown?
    ensures var c := UCode(kind) | PollBit(poll) | 0x03;
            c & 0x03 == 0x03 && (c & 0x10 == 0x10 <==> poll) && UKindOf(c & 0xec) == kind
  {
  }
}
