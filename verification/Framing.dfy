/**
 * HDLC-like framing of RFC 1662 (sections 3.1 and 4.2): what a frame looks like on the wire, what a receiver
 * makes of a byte stream, and how the two meet.
 */
module Framing {
  import Crc

  const FLAG: bv8 := 0x7e
  const ESCAPE: bv8 := 0x7d
  const ESCAPE_BIT: bv8 := 0x20

  // ------------------------------------------------------------------ the wire format

  predicate Special(b: bv8) { b == FLAG || b == ESCAPE }

  function Flip(b: bv8): bv8 { b ^ ESCAPE_BIT }

  function StuffByte(b: bv8): seq<bv8> { if Special(b) then [ESCAPE, Flip(b)] else [b] }

  function Stuff(data: seq<bv8>): seq<bv8> { if data == [] then [] else StuffByte(data[0]) + Stuff(data[1..]) }

  /** How a link is set up: the check field of a payload, its size, and the receiver's capacity (`phys_mtu`). */
  datatype Config = Config(check: seq<bv8> -> seq<bv8>, size: nat, capacity: nat)

  ghost predicate Sound(c: Config) { forall d :: |c.check(d)| == c.size }

  /** A link with one of the library's checks. */
  function Link(t: Crc.CrcType, capacity: nat): (c: Config)
    ensures Sound(c) && c.size == Crc.FieldSize(t) && c.capacity == capacity
  {
    Config(d => Crc.Trailer(t, d), Crc.FieldSize(t), capacity)
  }

  /** A whole frame: flag, stuffed payload and check field, flag. */
  function Encode(c: Config, payload: seq<bv8>): seq<bv8> {
    [FLAG] + Stuff(payload + c.check(payload)) + [FLAG]
  }

  /** A received byte string whose check field fits its payload. */
  predicate Accepts(c: Config, frame: seq<bv8>) {
    |frame| >= c.size && frame[|frame| - c.size..] == c.check(frame[..|frame| - c.size])
  }

  lemma FlipSpecial(b: bv8)
    ensures Flip(Flip(b)) == b
    ensures Special(b) ==> !Special(Flip(b))
  {
  }

  lemma {:induction false} StuffAppend(a: seq<bv8>, b: seq<bv8>)
    ensures Stuff(a + b) == Stuff(a) + Stuff(b)
  {
    if a == [] {
      assert a + b == b;
    } else {
      assert (a + b)[1..] == a[1..] + b;
      StuffAppend(a[1..], b);
    }
  }

  // ------------------------------------------------------------------ the receiver, one byte at a time

  /** Hunting for a flag, or inside a frame with the unstuffed bytes so far. */
  datatype Rx = Rx(inFrame: bool, body: seq<bv8>, escape: bool, delivered: seq<seq<bv8>>)

  function Hunting(delivered: seq<seq<bv8>>): Rx { Rx(false, [], false, delivered) }

  /** A closing flag: `hdlc_ll_read_end`. */
  function Close(c: Config, r: Rx): Rx {
    if r.body == [] then Rx(true, [], false, r.delivered)
    else if Accepts(c, r.body) then Hunting(r.delivered + [r.body[..|r.body| - c.size]])
    else Hunting(r.delivered)
  }

  function Take(c: Config, r: Rx, b: bv8): Rx {
    if !r.inFrame then (if b == FLAG then Rx(true, [], false, r.delivered) else r)
    else if b == FLAG then Close(c, r)
    else if b == ESCAPE then r.(escape := true)
    else if |r.body| < c.capacity then r.(body := r.body + [if r.escape then Flip(b) else b], escape := false)
    else r
  }

  function Feed(c: Config, r: Rx, data: seq<bv8>): Rx {
    if data == [] then r else Take(c, Feed(c, r, data[..|data| - 1]), data[|data| - 1])
  }

  /** Chunk independence: any split of a byte stream gives the same deliveries and the same final state. */
  lemma {:induction false} FeedAppend(c: Config, r: Rx, a: seq<bv8>, b: seq<bv8>)
    ensures Feed(c, r, a + b) == Feed(c, Feed(c, r, a), b)
  {
    if b == [] {
      assert a + b == a;
    } else {
      assert (a + b)[..|a + b| - 1] == a + b[..|b| - 1];
      FeedAppend(c, r, a, b[..|b| - 1]);
    }
  }

  lemma FeedOne(c: Config, r: Rx, b: bv8)
    ensures Feed(c, r, [b]) == Take(c, r, b)
  {
    assert [b][..0] == [];
  }

  // ------------------------------------------------------------------ one frame

  /** Stuffed bytes are unstuffed into the frame being received, as long as they fit. */
  lemma {:induction false} FeedStuffed(c: Config, r: Rx, data: seq<bv8>)
    requires r.inFrame && !r.escape && |r.body| + |data| <= c.capacity
    ensures Feed(c, r, Stuff(data)) == r.(body := r.body + data)
    decreases |data|
  {
    if data == [] {
      assert r.body + data == r.body;
    } else {
      var r1 := r.(body := r.body + [data[0]]);
      FeedAppend(c, r, StuffByte(data[0]), Stuff(data[1..]));
      FlipSpecial(data[0]);
      if Special(data[0]) {
        assert StuffByte(data[0])[..1] == [ESCAPE];
        FeedOne(c, r, ESCAPE);
      } else {
        FeedOne(c, r, data[0]);
      }
      FeedStuffed(c, r1, data[1..]);
      assert r1.body + data[1..] == r.body + data;
    }
  }

  /** A hunting receiver skips anything that is not a flag. */
  lemma {:induction false} FeedSkipped(c: Config, r: Rx, data: seq<bv8>)
    requires !r.inFrame && FLAG !in data
    ensures Feed(c, r, data) == r
  {
    if data != [] { FeedSkipped(c, r, data[..|data| - 1]); }
  }

  lemma {:induction false} StuffedHasNoFlag(data: seq<bv8>)
    ensures FLAG !in Stuff(data)
  {
    if data != [] {
      FlipSpecial(data[0]);
      StuffedHasNoFlag(data[1..]);
    }
  }

  /** A payload is encodable for a receiver: not empty, and it fits with its check field. */
  predicate Fits(c: Config, payload: seq<bv8>) { payload != [] && |payload| + c.size <= c.capacity }

  predicate Fresh(r: Rx) { r.inFrame ==> r.body == [] }

  /** A receiver that is hunting, or has only just seen a flag, delivers an encoded frame exactly. */
  lemma FeedFrame(c: Config, r: Rx, payload: seq<bv8>)
    requires Sound(c)
    requires Fits(c, payload) && Fresh(r)
    ensures Feed(c, r, Encode(c, payload)) == Hunting(r.delivered + [payload])
  {
    var body := payload + c.check(payload);
    var begun := Rx(true, [], false, r.delivered);
    FeedAppend(c, r, [FLAG] + Stuff(body), [FLAG]);
    FeedAppend(c, r, [FLAG], Stuff(body));
    FeedOne(c, r, FLAG);
    FeedStuffed(c, begun, body);
    FeedOne(c, begun.(body := body), FLAG);
    assert begun.body + body == body;
    assert body[..|payload|] == payload && body[|payload|..] == c.check(payload);
  }

  /** In the middle of a frame, an encoded frame is lost, and the receiver is left just after a flag. */
  lemma FeedFrameAstray(c: Config, r: Rx, payload: seq<bv8>)
    requires r.inFrame && r.body != []
    ensures var r' := Feed(c, r, Encode(c, payload));
            r'.inFrame && Fresh(r') && r.delivered <= r'.delivered && |r'.delivered| <= |r.delivered| + 1
  {
    var wire := Stuff(payload + c.check(payload));
    FeedAppend(c, r, [FLAG] + wire, [FLAG]);
    FeedAppend(c, r, [FLAG], wire);
    FeedOne(c, r, FLAG);
    StuffedHasNoFlag(payload + c.check(payload));
    FeedSkipped(c, Close(c, r), wire);
    FeedOne(c, Close(c, r), FLAG);
  }

  // ------------------------------------------------------------------ streams of frames

  /** A payload with the bytes that precede its frame on the line. */
  datatype Item = Item(filler: seq<bv8>, payload: seq<bv8>)

  function Stream(c: Config, items: seq<Item>): seq<bv8> {
    if items == [] then [] else items[0].filler + Encode(c, items[0].payload) + Stream(c, items[1..])
  }

  function Payloads(items: seq<Item>): seq<seq<bv8>> {
    if items == [] then [] else [items[0].payload] + Payloads(items[1..])
  }

  predicate Encodable(c: Config, items: seq<Item>) {
    forall item | item in items :: Fits(c, item.payload) && FLAG !in item.filler
  }

  /**
   * Round trip: for any payloads that fit and any filler without a flag between the frames, a receiver
   * that starts hunting delivers exactly those payloads, in order.
   */
  lemma {:induction false} RoundTrip(c: Config, delivered: seq<seq<bv8>>, items: seq<Item>)
    requires Sound(c)
    requires Encodable(c, items)
    ensures Feed(c, Hunting(delivered), Stream(c, items)) == Hunting(delivered + Payloads(items))
    decreases |items|
  {
    if items == [] {
      assert delivered + Payloads(items) == delivered;
    } else {
      var item, d := items[0], delivered + [items[0].payload];
      var rest := Stream(c, items[1..]);
      assert item in items && forall i | i in items[1..] :: i in items;
      FeedItem(c, delivered, item);
      FeedAppend(c, Hunting(delivered), item.filler + Encode(c, item.payload), rest);
      RoundTrip(c, d, items[1..]);
      assert d + Payloads(items[1..]) == delivered + ([item.payload] + Payloads(items[1..]));
    }
  }

  lemma FeedItem(c: Config, delivered: seq<seq<bv8>>, item: Item)
    requires Sound(c)
    requires Fits(c, item.payload) && FLAG !in item.filler
    ensures Feed(c, Hunting(delivered), item.filler + Encode(c, item.payload)) == Hunting(delivered + [item.payload])
  {
    FeedAppend(c, Hunting(delivered), item.filler, Encode(c, item.payload));
    FeedSkipped(c, Hunting(delivered), item.filler);
    FeedFrame(c, Hunting(delivered), item.payload);
  }

  /** Frames back to back. */
  function Wire(c: Config, payloads: seq<seq<bv8>>): seq<bv8> {
    if payloads == [] then [] else Encode(c, payloads[0]) + Wire(c, payloads[1..])
  }

  /** A receiver just after a flag takes a stream the way a hunting one does. */
  lemma {:induction false} FreshStream(c: Config, r: Rx, payloads: seq<seq<bv8>>)
    requires Sound(c)
    requires Fresh(r) && payloads != []
    requires forall p | p in payloads :: Fits(c, p)
    ensures Feed(c, r, Wire(c, payloads)) == Hunting(r.delivered + payloads)
    decreases |payloads|
  {
    var r1 := Hunting(r.delivered + [payloads[0]]);
    FeedFrame(c, r, payloads[0]);
    FeedAppend(c, r, Encode(c, payloads[0]), Wire(c, payloads[1..]));
    assert payloads == [payloads[0]] + payloads[1..];
    if payloads[1..] != [] { FreshStream(c, r1, payloads[1..]); }
    assert r1.delivered + payloads[1..] == r.delivered + payloads;
  }

  /**
   * Self-synchronisation: from any state at all, frames fed back to back are delivered, in order and as
   * the last ones delivered, with at most the first one missing; nothing delivered before is lost.
   * The first one is missing only when the receiver was holding bytes of an unfinished frame.
   */
  lemma SelfSync(c: Config, r: Rx, payloads: seq<seq<bv8>>)
    requires Sound(c)
    requires payloads != []
    requires forall p | p in payloads :: Fits(c, p)
    ensures var d := Feed(c, r, Wire(c, payloads)).delivered;
            && r.delivered <= d
            && |r.delivered| + |payloads| - 1 <= |d| <= |r.delivered| + |payloads|
            && d[|d| - (|payloads| - 1)..] == payloads[1..]
            && (Fresh(r) ==> d == r.delivered + payloads)
  {
    if Fresh(r) {
      FreshStream(c, r, payloads);
    } else {
      var tail := payloads[1..];
      FeedAppend(c, r, Encode(c, payloads[0]), Wire(c, tail));
      FeedFrameAstray(c, r, payloads[0]);
      var r1 := Feed(c, r, Encode(c, payloads[0]));
      if tail != [] { FreshStream(c, r1, tail); }
    }
  }

  /**
   * RFC 1662 section 3.1 needs only one flag between two frames; this receiver needs two. When two frames
   * share a flag the second is skipped whole, and its closing flag is taken for an opening one.
   */
  lemma SharedFlagLosesSecond(c: Config, delivered: seq<seq<bv8>>, first: seq<bv8>, second: seq<bv8>)
    requires Sound(c)
    requires Fits(c, first)
    ensures Feed(c, Hunting(delivered),
              Encode(c, first) + Stuff(second + c.check(second)) + [FLAG])
            == Rx(true, [], false, delivered + [first])
  {
    var wire := Stuff(second + c.check(second));
    var r := Hunting(delivered + [first]);
    FeedAppend(c, Hunting(delivered), Encode(c, first) + wire, [FLAG]);
    FeedAppend(c, Hunting(delivered), Encode(c, first), wire);
    FeedFrame(c, Hunting(delivered), first);
    StuffedHasNoFlag(second + c.check(second));
    FeedSkipped(c, r, wire);
    FeedOne(c, r, FLAG);
  }
}
