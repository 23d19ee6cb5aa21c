/**
 * From frame to frame across the line: what one station queues, header and payload as bytes, stuffed and checked
 * on the wire in whatever pieces it leaves and comes, is what the other station reads.
 */
module EndToEnd {
  import Crc
  import opened Frames
  import Framing
  import Receiving
  import Transmitting

  function Encoded(frames: seq<Frame>, fillers: seq<seq<byte>>): seq<Framing.Item>
    requires |fillers| == |frames|
  {
    if frames == [] then [] else [Framing.Item(fillers[0], ToBytes(frames[0]))] + Encoded(frames[1..], fillers[1..])
  }

  function Bytes(frames: seq<Frame>): seq<seq<byte>> {
    if frames == [] then [] else [ToBytes(frames[0])] + Bytes(frames[1..])
  }

  /** What `on_frame_read` makes of the byte strings delivered to it. */
  function Decoded(delivered: seq<seq<byte>>): seq<Option<Frame>> {
    if delivered == [] then [] else [FromBytes(delivered[0])] + Decoded(delivered[1..])
  }

  function Somes(frames: seq<Frame>): seq<Option<Frame>> {
    if frames == [] then [] else [Some(frames[0])] + Somes(frames[1..])
  }

  /** A frame the library can send over a link of this capacity. */
  predicate Fitting(t: Crc.CrcType, capacity: nat, f: Frame) {
    Sendable(f) && |Payload(f)| + 2 + Crc.FieldSize(t) <= capacity
  }

  ghost predicate Carried(t: Crc.CrcType, capacity: nat, frames: seq<Frame>, fillers: seq<seq<byte>>) {
    && |fillers| == |frames| && (forall f | f in frames :: Fitting(t, capacity, f))
    && forall x | x in fillers :: Framing.FLAG !in x
  }

  // ------------------------------------------------------------------ on values

  function Joined(pieces: seq<seq<byte>>): seq<byte> { if pieces == [] then [] else pieces[0] + Joined(pieces[1..]) }

  /** The receiver is given one piece after the other. */
  function FeedAll(c: Framing.Config, r: Framing.Rx, pieces: seq<seq<byte>>): Framing.Rx
    decreases |pieces|
  {
    if pieces == [] then r else FeedAll(c, Framing.Feed(c, r, pieces[0]), pieces[1..])
  }

  lemma {:induction false} FeedJoined(c: Framing.Config, r: Framing.Rx, pieces: seq<seq<byte>>)
    ensures FeedAll(c, r, pieces) == Framing.Feed(c, r, Joined(pieces))
    decreases |pieces|
  {
    if pieces != [] {
      Framing.FeedAppend(c, r, pieces[0], Joined(pieces[1..]));
      FeedJoined(c, Framing.Feed(c, r, pieces[0]), pieces[1..]);
    }
  }

  lemma FitsOne(t: Crc.CrcType, capacity: nat, f: Frame)
    requires Fitting(t, capacity, f)
    ensures Framing.Fits(Framing.Link(t, capacity), ToBytes(f))
  {
    assert |ToBytes(f)| == |Payload(f)| + 2;
  }

  lemma EncodedStep(frames: seq<Frame>, fillers: seq<seq<byte>>)
    requires |fillers| == |frames| > 0
    ensures Encoded(frames, fillers)
            == [Framing.Item(fillers[0], ToBytes(frames[0]))] + Encoded(frames[1..], fillers[1..])
    ensures Encoded(frames, fillers)[1..] == Encoded(frames[1..], fillers[1..])
  {
    hide ToBytes;
  }

  lemma {:induction false} EncodedFits(t: Crc.CrcType, capacity: nat, frames: seq<Frame>, fillers: seq<seq<byte>>)
    requires Carried(t, capacity, frames, fillers)
    ensures Framing.Encodable(Framing.Link(t, capacity), Encoded(frames, fillers))
    ensures Framing.Payloads(Encoded(frames, fillers)) == Bytes(frames)
    decreases |frames|
  {
    hide ToBytes;
    hide Framing.Fits;
    if frames != [] {
      assert frames[0] in frames && fillers[0] in fillers;
      assert forall f | f in frames[1..] :: f in frames;
      assert forall x | x in fillers[1..] :: x in fillers;
      EncodedFits(t, capacity, frames[1..], fillers[1..]);
      FitsOne(t, capacity, frames[0]);
      EncodedStep(frames, fillers);
    }
  }

  lemma {:induction false} DecodedBack(frames: seq<Frame>)
    requires forall f | f in frames :: Sendable(f)
    ensures Decoded(Bytes(frames)) == Somes(frames)
    decreases |frames|
  {
    if frames != [] {
      assert Bytes(frames)[1..] == Bytes(frames[1..]);
      assert frames[0] in frames;
      FrameRoundTrip(frames[0]);
      DecodedBack(frames[1..]);
    }
  }

  /** A hunting receiver takes the frames exactly, and they read as what was sent. */
  lemma WireRead(t: Crc.CrcType, capacity: nat, frames: seq<Frame>, fillers: seq<seq<byte>>, delivered: seq<seq<byte>>)
    requires Carried(t, capacity, frames, fillers)
    ensures var c := Framing.Link(t, capacity);
            Framing.Feed(c, Framing.Hunting(delivered), Framing.Stream(c, Encoded(frames, fillers)))
            == Framing.Hunting(delivered + Bytes(frames))
    ensures Decoded(Bytes(frames)) == Somes(frames)
  {
    EncodedFits(t, capacity, frames, fillers);
    Framing.RoundTrip(Framing.Link(t, capacity), delivered, Encoded(frames, fillers));
    DecodedBack(frames);
  }

  /**
   * For every check type, every sequence of frames that fit, every filler without a flag between them and every
   * way to cut the bytes into pieces, the receiver hands on exactly those frames.
   */
  lemma AnyPieces(t: Crc.CrcType, capacity: nat, frames: seq<Frame>, fillers: seq<seq<byte>>, pieces: seq<seq<byte>>)
    requires Carried(t, capacity, frames, fillers)
    requires Joined(pieces) == Framing.Stream(Framing.Link(t, capacity), Encoded(frames, fillers))
    ensures var r := FeedAll(Framing.Link(t, capacity), Framing.Hunting([]), pieces);
            !r.inFrame && Decoded(r.delivered) == Somes(frames)
  {
    FeedJoined(Framing.Link(t, capacity), Framing.Hunting([]), pieces);
    WireRead(t, capacity, frames, fillers, []);
    assert [] + Bytes(frames) == Bytes(frames);
  }

  // ------------------------------------------------------------------ through the two state machines

  /** The buffers handed to the transmitter for each frame are enough for it, taken together. */
  ghost predicate Enough(c: Framing.Config, frames: seq<Frame>, sizes: seq<seq<nat>>) {
    && |sizes| == |frames|
    && forall k | 0 <= k < |frames| :: Transmitting.Total(sizes[k]) >= |Framing.Encode(c, ToBytes(frames[k]))|
  }

  method SendOne(tx: Transmitting.Transmitter, f: Frame, sizes: seq<nat>) returns (chunk: seq<byte>)
    requires tx.Valid() && tx.frame == [] && Transmitting.Total(sizes) >= |Framing.Encode(tx.link, ToBytes(f))|
    modifies tx
    ensures tx.Valid() && tx.frame == [] && tx.sent == old(tx.sent) + [ToBytes(f)]
    ensures chunk == Framing.Encode(tx.link, ToBytes(f))
  {
    assert ToBytes(f) != [];
    hide ToBytes;
    hide Framing.Encode;
    chunk := Transmitting.SendInChunks(tx, ToBytes(f), sizes);
  }

  lemma StreamStep(c: Framing.Config, frames: seq<Frame>, fillers: seq<seq<byte>>)
    requires |fillers| == |frames| > 0
    ensures Framing.Stream(c, Encoded(frames, fillers)) ==
            fillers[0] + Framing.Encode(c, ToBytes(frames[0])) + Framing.Stream(c, Encoded(frames[1..], fillers[1..]))
  {
    hide ToBytes;
    hide Framing.Encode;
    EncodedStep(frames, fillers);
  }

  lemma BytesStep(sent: seq<seq<byte>>, frames: seq<Frame>)
    requires frames != []
    ensures sent + [ToBytes(frames[0])] + Bytes(frames[1..]) == sent + Bytes(frames)
  {
    hide ToBytes;
  }

  /** One frame after the other is put and drained into buffers of any sizes; in between the line carries filler. */
  method SendAll(tx: Transmitting.Transmitter, frames: seq<Frame>, fillers: seq<seq<byte>>, sizes: seq<seq<nat>>)
      returns (wire: seq<byte>)
    requires tx.Valid() && tx.frame == [] && |fillers| == |frames| && Enough(tx.link, frames, sizes)
    modifies tx
    ensures tx.Valid() && tx.frame == [] && tx.sent == old(tx.sent) + Bytes(frames)
    ensures wire == Framing.Stream(tx.link, Encoded(frames, fillers))
    decreases |frames|
  {
    if frames == [] {
      assert tx.sent + [] == tx.sent;
      return [];
    }
    assert Enough(tx.link, frames[1..], sizes[1..]);
    BytesStep(tx.sent, frames);
    StreamStep(tx.link, frames, fillers);
    hide ToBytes;
    hide Framing.Encode;
    hide Framing.Stream;
    hide Encoded;
    hide Bytes;
    var chunk := SendOne(tx, frames[0], sizes[0]);
    var rest := SendAll(tx, frames[1..], fillers[1..], sizes[1..]);
    wire := fillers[0] + chunk + rest;
  }

  /** The receiver is given the bytes in pieces of any sizes, and then what is left of them. */
  method ReceiveAll(rx: Receiving.Receiver, wire: seq<byte>, cuts: seq<nat>)
    requires rx.Valid() && rx.state != Receiving.ReadEnd
    modifies rx`state, rx`escape, rx`ptr, rx`active, rx`delivered, rx`taken, rx.rxBuf
    ensures rx.Valid() && rx.state != Receiving.ReadEnd
    ensures rx.Model() == Framing.Feed(rx.link, old(rx.Model()), wire)
    decreases |cuts|
  {
    if cuts == [] {
      rx.OnRxData(wire);
      return;
    }
    ghost var start := rx.Model();
    var n := Transmitting.Min(cuts[0], |wire|);
    rx.OnRxData(wire[..n]);
    ReceiveAll(rx, wire[n..], cuts[1..]);
    assert wire == wire[..n] + wire[n..];
    Framing.FeedAppend(rx.link, start, wire[..n], wire[n..]);
  }

  lemma {:induction false} SameStream(t: Crc.CrcType, a: nat, b: nat, items: seq<Framing.Item>)
    ensures Framing.Stream(Framing.Link(t, a), items) == Framing.Stream(Framing.Link(t, b), items)
    decreases |items|
  {
    if items != [] {
      SameStream(t, a, b, items[1..]);
    }
  }

  /**
   * Through the transmitter and the receiver: for any frames that fit, any buffer sizes on the sending side that are
   * enough, any filler on the line and any pieces on the receiving side, everything put is reported as sent, and the
   * bytes delivered are those of the frames, each read as the frame it was.
   */
  method AcrossTheLine(t: Crc.CrcType, tx: Transmitting.Transmitter, rx: Receiving.Receiver, frames: seq<Frame>,
                       fillers: seq<seq<byte>>, sizes: seq<seq<nat>>, cuts: seq<nat>)
    requires tx.Valid() && tx.frame == [] && rx.Valid() && rx.state == Receiving.ReadStart
    requires tx.link == Framing.Link(t, tx.link.capacity) && rx.link == Framing.Link(t, rx.link.capacity)
    requires Carried(t, rx.link.capacity, frames, fillers) && Enough(tx.link, frames, sizes)
    modifies tx, rx`state, rx`escape, rx`ptr, rx`active, rx`delivered, rx`taken, rx.rxBuf
    ensures tx.Valid() && tx.frame == [] && tx.sent == old(tx.sent) + Bytes(frames)
    ensures rx.Valid() && rx.state == Receiving.ReadStart && rx.delivered == old(rx.delivered) + Bytes(frames)
    ensures Decoded(Bytes(frames)) == Somes(frames)
  {
    var wire := SendAll(tx, frames, fillers, sizes);
    SameStream(t, tx.link.capacity, rx.link.capacity, Encoded(frames, fillers));
    WireRead(t, rx.link.capacity, frames, fillers, rx.delivered);
    ReceiveAll(rx, wire, cuts);
  }
}
