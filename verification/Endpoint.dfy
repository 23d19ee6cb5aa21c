/**
 * One connected balanced station: what receiving, timeouts, puts and emissions do, told in terms of the payloads
 * pending, the payloads delivered and the service frames waiting.
 */
module Endpoint {
  import opened Frames
  import opened FramesQueue
  import opened InfoStore
  import opened Station
  import opened Window
  import opened ServiceFifo

  predicate Ack(f: Frame) { f.SFrame? && (f.kind == RR || f.kind == REJ) }

  /** The answer to a connection request. */
  predicate Hello(f: Frame) { f.UFrame? && f.ukind == UA }

  /** Connected, with `w` pending, the service frames in order and nothing but UA, RR and REJ among them. */
  ghost predicate Live(l: Link, w: seq<seq<byte>>) {
    && l.peer.state == Connected && Held(l, w) && |l.iq.slots| <= 7 && l.peer.srej == {}
    && Ordered(l.sq, l.peer.station)
    && forall f | f in Fifo(l.sq) :: Ack(f) || Hello(f)
  }

  /**
   * What a move amounts to: frames confirmed, frames counted as received, payloads delivered, service frames
   * queued.
   */
  datatype Gain = Gain(confirmed: nat, counted: nat, data: seq<seq<byte>>, queued: seq<Frame>)

  const NONE := Gain(0, 0, [], [])

  function Sum(g: Gain, h: Gain): Gain {
    Gain(g.confirmed + h.confirmed, g.counted + h.counted, g.data + h.data, g.queued + h.queued)
  }

  /** From `l` to `r` exactly `g` has happened; what was queued carries the number then expected next. */
  ghost predicate Moved(l: Link, w: seq<seq<byte>>, r: Link, g: Gain) {
    && g.confirmed <= |w| && g.counted <= 1 && |g.queued| <= 1
    && Live(l, w) && Live(r, w[g.confirmed..])
    && r.peer.station == l.peer.station
    && r.peer.confirm == Plus(l.peer.confirm, g.confirmed)
    && r.peer.nextNr == Plus(l.peer.nextNr, g.counted)
    && r.peer.log.confirmed == l.peer.log.confirmed + w[..g.confirmed]
    && r.peer.log.received == l.peer.log.received + g.data
    && Fifo(r.sq) == Fifo(l.sq) + g.queued
    && forall f | f in g.queued :: Ack(f) && f.nr == r.peer.nextNr
  }

  /** Anything that leaves the window, the tables and the log alone. */
  lemma Still(l: Link, w: seq<seq<byte>>, r: Link)
    requires Live(l, w) && r.sq == l.sq && r.iq == l.iq
    requires r.peer.state == Connected && r.peer.station == l.peer.station && r.peer.srej == {}
    requires r.peer.confirm == l.peer.confirm && r.peer.last == l.peer.last && r.peer.nextNr == l.peer.nextNr
    requires r.peer.log == l.peer.log
    ensures Moved(l, w, r, NONE)
  {
    assert w[0..] == w;
    assert l.peer.log.confirmed + w[..0] == l.peer.log.confirmed;
  }

  lemma Then(l: Link, w: seq<seq<byte>>, m: Link, r: Link, g: Gain, h: Gain)
    requires Moved(l, w, m, g) && Moved(m, w[g.confirmed..], r, h)
    requires g.counted + h.counted <= 1 && (g.queued != [] ==> h.counted == 0 && h.queued == [])
    ensures Moved(l, w, r, Sum(g, h))
  {
    hide Held;
    hide Ordered;
    var d, e := g.confirmed, h.confirmed;
    assert w[d..][e..] == w[d + e..];
    assert w[..d + e] == w[..d] + w[d..][..e];
  }

  /** Queueing one supervisory frame, or dropping it when the table is full. */
  lemma SendMoves(l: Link, w: seq<seq<byte>>, command: bool, kind: SKind, poll: bool) returns (queued: seq<Frame>)
    requires Live(l, w) && (kind == RR || kind == REJ)
    ensures Moved(l, w, SendS(l, command, kind, poll), Gain(0, 0, [], queued))
  {
    var f := SFrame(l.peer.station, command, kind, l.peer.nextNr, poll);
    AllocateAppends(l.sq, l.peer.station, SupervisorySlot, f);
    queued := if |Fifo(l.sq)| < |l.sq.slots| then [f] else [];
    assert w[0..] == w;
    assert l.peer.log.confirmed + w[..0] == l.peer.log.confirmed;
  }

  lemma FromConfirmed(c: Config, l: Link, w: seq<seq<byte>>, m: Link, d: nat, accept: bool)
    requires Live(l, w) && d <= |w| && Confirmed(c, l, m, w, d)
    ensures Moved(l, w, m.(peer := m.peer.(canAccept := accept)), Gain(d, 0, [], []))
  {
    assert d == 0 ==> l.peer.log.confirmed + w[..0] == l.peer.log.confirmed;
  }

  lemma ConfirmMoves(c: Config, l: Link, w: seq<seq<byte>>, nr: Seq8)
    requires Live(l, w)
    ensures Moved(l, w, Confirm(c, l, nr), Gain(Settled(|w|, l.peer.confirm, nr), 0, [], []))
    ensures Confirm(c, l, nr).peer.next == l.peer.next
  {
    ConfirmSettles(c, l, w, nr);
    FromConfirmed(c, l, w, ConfirmUpTo(c, l, nr), Settled(|w|, l.peer.confirm, nr), Confirm(c, l, nr).peer.canAccept);
  }

  /** The frame expected is counted; any other one is answered by at most one REJ. */
  lemma CheckMoves(l: Link, w: seq<seq<byte>>, ns: Seq8) returns (queued: seq<Frame>)
    requires Live(l, w)
    ensures ns == l.peer.nextNr ==> queued == []
    ensures Moved(l, w, CheckReceived(l, ns), Gain(0, if ns == l.peer.nextNr then 1 else 0, [], queued))
  {
    queued := [];
    var m := l.(peer := l.peer.(sentReject := true));
    Still(l, w, l);
    Still(l, w, m);
    if ns != l.peer.nextNr && !l.peer.sentReject {
      queued := SendMoves(m, w, true, REJ, false);
    }
  }

  lemma DeliverMoves(l: Link, w: seq<seq<byte>>, data: seq<byte>)
    requires Live(l, w)
    ensures Moved(l, w, Delivered(l, data), Gain(0, 0, [data], []))
  {
    Still(l, w, l);
  }

  /** Going back to a number that is the oldest one outstanding always gets there. */
  lemma {:induction false} RewindToOldest(l: Link, control: byte)
    ensures Rewind(l, control, l.peer.confirm) == l.(peer := l.peer.(next := l.peer.confirm))
    decreases Ahead(l.peer.next, l.peer.confirm)
  {
    if l.peer.next != l.peer.confirm {
      StepDown(l.peer.next, l.peer.confirm);
      RewindToOldest(l.(peer := l.peer.(next := Dec(l.peer.next))), control);
    }
  }

  lemma RewindMoves(l: Link, w: seq<seq<byte>>, m: Link, g: Gain, control: byte)
    requires Moved(l, w, m, g)
    ensures Moved(l, w, Rewind(m, control, m.peer.confirm), g)
  {
    RewindToOldest(m, control);
  }

  lemma AnswerMoves(l: Link, w: seq<seq<byte>>, m: Link, g: Gain, poll: bool) returns (queued: seq<Frame>)
    requires Moved(l, w, m, g) && g.queued == []
    ensures Moved(l, w, SendS(m, false, RR, poll), g.(queued := queued))
  {
    var v := w[g.confirmed..];
    queued := SendMoves(m, v, false, RR, poll);
    var h := Gain(0, 0, [], queued);
    Then(l, w, m, SendS(m, false, RR, poll), g, h);
    assert Sum(g, h) == g.(queued := queued);
  }

  /** An I-frame settles what its N(R) covers and is delivered exactly when it carries the number expected. */
  lemma InfoMoves(c: Config, l: Link, w: seq<seq<byte>>, f: Frame) returns (queued: seq<Frame>)
    requires Live(l, w) && f.IFrame?
    ensures var hit := f.ns == l.peer.nextNr;
            Moved(l, w, OnIFrame(c, l, f),
                  Gain(Settled(|w|, l.peer.confirm, f.nr),
                       if hit then 1 else 0, if hit then [f.payload] else [], queued))
  {
    hide Live;
    hide Confirm;
    hide CheckReceived;
    var m1 := CheckReceived(l, f.ns);
    queued := CheckMoves(l, w, f.ns);
    var g1 := Gain(0, if f.ns == l.peer.nextNr then 1 else 0, [], queued);
    assert w[0..] == w;
    ConfirmMoves(c, m1, w, f.nr);
    var m2, d := Confirm(c, m1, f.nr), Settled(|w|, l.peer.confirm, f.nr);
    Then(l, w, m1, m2, g1, Gain(d, 0, [], []));
    if f.ns == l.peer.nextNr {
      var m3, g3 := Delivered(m2, f.payload), Gain(d, 1, [f.payload], []);
      DeliverMoves(m2, w[d..], f.payload);
      Then(l, w, m2, m3, Gain(d, 1, [], []), Gain(0, 0, [f.payload], []));
      if AllSent(m3.peer) && m3.peer.sentNr != m3.peer.nextNr {
        queued := AnswerMoves(l, w, m3, g3, false);
      }
    }
  }

  /** A supervisory frame whose N(R) lies in the window settles what it covers and never draws a frame reject. */
  lemma SupervisoryMoves(c: Config, l: Link, w: seq<seq<byte>>, f: Frame) returns (queued: seq<Frame>)
    requires Live(l, w) && Ack(f) && Ahead(f.nr, l.peer.confirm) <= |w|
    ensures Moved(l, w, OnSFrame(c, l, f), Gain(Ahead(f.nr, l.peer.confirm), 0, [], queued))
  {
    queued := [];
    var m, g := Confirm(c, l, f.nr), Gain(Ahead(f.nr, l.peer.confirm), 0, [], []);
    ConfirmMoves(c, l, w, f.nr);
    assert m.peer.confirm == f.nr;
    if f.kind == REJ {
      assert OnSFrame(c, l, f) == Rewind(m, Control(f), f.nr);
      RewindMoves(l, w, m, g, Control(f));
    } else if f.command && AllSent(m.peer) {
      queued := AnswerMoves(l, w, m, g, f.poll);
    }
  }

  /** An I- or S-frame from a peer in step with us is taken in as one move. */
  lemma ReadMoves(c: Config, l: Link, w: seq<seq<byte>>, f: Frame) returns (queued: seq<Frame>)
    requires Live(l, w) && (f.IFrame? || Ack(f)) && Ahead(f.nr, l.peer.confirm) <= |w|
    ensures var hit := f.IFrame? && f.ns == l.peer.nextNr;
            Moved(l, w, OnRead(c, l, f),
                  Gain(Ahead(f.nr, l.peer.confirm), if hit then 1 else 0, if hit then [f.payload] else [], queued))
  {
    var m := l.(peer := l.peer.(kaConfirmed := true));
    Still(l, w, m);
    assert w[0..] == w;
    if f.IFrame? {
      queued := InfoMoves(c, m, w, f);
    } else {
      queued := SupervisoryMoves(c, m, w, f);
    }
  }

  /** A connected station takes no notice of UA. */
  lemma HelloMoves(c: Config, l: Link, w: seq<seq<byte>>, f: Frame)
    requires Live(l, w) && Hello(f)
    ensures Moved(l, w, OnRead(c, l, f), NONE)
  {
    Still(l, w, l.(peer := l.peer.(kaConfirmed := true)));
  }

  /** What a timeout may do: one move that neither confirms nor delivers, or the end of the connection. */
  ghost predicate Lapsed(l: Link, w: seq<seq<byte>>, r: Link, queued: seq<Frame>) {
    if r.peer.state == Connected then Moved(l, w, r, Gain(0, 0, [], queued))
    else
      && r.peer.state == Disconnected
      && r.peer.log.confirmed == l.peer.log.confirmed && r.peer.log.received == l.peer.log.received
  }

  lemma RetryMoves(l: Link, w: seq<seq<byte>>, retries: nat)
    requires Live(l, w)
    ensures Lapsed(l, w, Rewind(l.(peer := l.peer.(retries := retries)), 0, l.peer.confirm), [])
  {
    var m := l.(peer := l.peer.(retries := retries));
    Still(l, w, m);
    RewindMoves(l, w, m, NONE, 0);
  }

  lemma KeepAliveMoves(l: Link, w: seq<seq<byte>>) returns (queued: seq<Frame>)
    requires Live(l, w)
    ensures Lapsed(l, w, SendS(l.(peer := l.peer.(kaConfirmed := false)), false, RR, true), queued)
  {
    var m := l.(peer := l.peer.(kaConfirmed := false));
    Still(l, w, m);
    queued := AnswerMoves(l, w, m, NONE, true);
  }

  lemma DropLapses(l: Link, w: seq<seq<byte>>)
    requires Live(l, w)
    ensures Lapsed(l, w, SwitchDisconnected(l), [])
  {
  }

  /** A timeout rewinds, keeps alive or takes the link down, and never confirms or delivers anything. */
  lemma IdleMoves(c: Config, l: Link, w: seq<seq<byte>>, retryDue: bool, silent: bool, quiet: bool)
        returns (queued: seq<Frame>)
    requires Live(l, w)
    ensures Lapsed(l, w, Idle(c, l, retryDue, silent, quiet), queued)
  {
    hide Held;
    hide Ordered;
    queued := [];
    var p := l.peer;
    DropLapses(l, w);
    if Unconfirmed(p) && AllSent(p) && retryDue {
      if p.retries > 0 { RetryMoves(l, w, p.retries - 1); }
    } else if silent {
      Still(l, w, l);
    } else if quiet {
      queued := KeepAliveMoves(l, w);
    } else {
      Still(l, w, l);
    }
  }

  /** A put is refused or appends its payload to what is pending. */
  lemma PutMoves(l: Link, w: seq<seq<byte>>, data: seq<byte>)
    requires Live(l, w)
    ensures var (r, result) := Put(l, data);
            && Live(r, if result == Success then w + [data] else w)
            && r.sq == l.sq && r.peer.station == l.peer.station && r.peer.confirm == l.peer.confirm
            && r.peer.nextNr == l.peer.nextNr && r.peer.log == l.peer.log
  {
    PutAppends(l, w, data);
  }

  /** A balanced station sets the P/F bit of U-frames as they leave. */
  function Leaving(f: Frame): Frame { if f.UFrame? then WithPoll(f) else f }

  /** What an emission may send: the oldest service frame, or else a pending payload under its own number. */
  ghost predicate Emitted(l: Link, w: seq<seq<byte>>, r: Link, out: Option<Frame>) {
    && Live(r, w)
    && r.peer.state == l.peer.state && r.peer.station == l.peer.station && r.peer.confirm == l.peer.confirm
    && r.peer.nextNr == l.peer.nextNr && r.peer.log == l.peer.log
    && match out
       case None => Fifo(r.sq) == Fifo(l.sq)
       case Some(f) =>
         if f.IFrame? then
           && Fifo(l.sq) == [] == Fifo(r.sq) && f.nr == l.peer.nextNr && f.station == l.peer.station
           && Ahead(f.ns, l.peer.confirm) < |w| && f.payload == w[Ahead(f.ns, l.peer.confirm)]
         else Fifo(l.sq) != [] && f == Leaving(Fifo(l.sq)[0]) && Fifo(r.sq) == Fifo(l.sq)[1..]
  }

  /** One emission as a whole: the frame is picked, transmitted and released. */
  function Emit(c: Config, l: Link): (Link, Option<Frame>) {
    var (r, out) := NextFrame(c, l);
    if out == Nothing then (r, None) else (Sent(r, out), Some(FrameAt(r, out)))
  }

  lemma EmitService(c: Config, l: Link, w: seq<seq<byte>>)
    requires Live(l, w) && c.mode == ABM && Fifo(l.sq) != []
    ensures var (r, out) := Emit(c, l); Emitted(l, w, r, out) && out.Some? && !out.value.IFrame?
    ensures Emit(c, l).0.peer.next == l.peer.next && Emit(c, l).0.peer.retries == l.peer.retries
    ensures Emit(c, l).0.peer.last == l.peer.last
  {
    var f, q := Fifo(l.sq)[0], l.sq;
    assert f in Fifo(q);
    PickIsHead(q, l.peer.station);
    var q' := if f.UFrame? then Rewrite(q, q.lookup, WithPoll(f)) else q;
    if f.UFrame? { RewriteHead(q, l.peer.station, WithPoll(f)); }
    FreePops(q', l.peer.station);
    var m := if f.SFrame? then l.(peer := l.peer.(sentNr := f.nr)) else l;
    assert NextService(l) == (m, Service(q.lookup));
    assert Emit(c, l) == (m.(sq := FreeAt(q', q.lookup)), Some(Leaving(f)));
    assert forall g | g in Fifo(q)[1..] :: g in Fifo(q);
    assert Fifo(q')[1..] == Fifo(q)[1..];
  }

  lemma EmitInfo(c: Config, l: Link, w: seq<seq<byte>>)
    requires Live(l, w) && c.mode == ABM && Fifo(l.sq) == []
    ensures var (r, out) := Emit(c, l); Emitted(l, w, r, out)
  {
    PickIsHead(l.sq, l.peer.station);
    assert NextService(l) == (l, Nothing);
    var p := l.peer;
    match Find(l.iq, INFO, p.station, p.next)
    case None =>
    case Some(i) =>
      assert Stored(l.iq, p.station, p.next) == Some(Payload(l.iq.slots[i].frame));
      RewriteHolds(l.iq, i, Refreshed(l.iq.slots[i].frame, p.nextNr), p.station, p.confirm, w);
  }

  lemma EmitMoves(c: Config, l: Link, w: seq<seq<byte>>)
    requires Live(l, w) && c.mode == ABM
    ensures var (r, out) := Emit(c, l); Emitted(l, w, r, out)
  {
    if Fifo(l.sq) == [] {
      EmitInfo(c, l, w);
    } else {
      EmitService(c, l, w);
    }
  }
}
