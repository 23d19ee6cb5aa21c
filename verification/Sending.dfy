/**
 * What a station sends when its turn has come: which frame, with which number and P/F bit, and what it remembers.
 */
module Sending {
  import opened Frames
  import opened FramesQueue
  import opened InfoStore
  import opened Station
  import opened Window
  import opened Endpoint
  import opened Retransmission
  import opened Connections
  import ServiceFifo

  // ------------------------------------------------------------------ what is left alone

  /** An emission touches nothing of the peer but the next number, the mask of requests and the N(R) sent last. */
  predicate SentOnly(l: Link, r: Link) {
    r.peer == l.peer.(next := r.peer.next, sentNr := r.peer.sentNr, srej := r.peer.srej) && r.hasFree == l.hasFree
  }

  lemma ServiceSentOnly(l: Link)
    ensures SentOnly(l, NextService(l).0)
  {
  }

  lemma StoredSentOnly(l: Link, i: nat)
    requires i < |l.iq.slots|
    ensures SentOnly(l, SendStored(l, i))
  {
  }

  lemma InfoSentOnly(l: Link)
    ensures SentOnly(l, NextInfo(l).0)
  {
    hide Find;
    hide Lowest;
    hide SendStored;
    var (r, out) := NextInfo(l);
    if out.Info? {
      var p := l.peer;
      StoredSentOnly(l.(peer := p.(next := Inc(p.next))), out.slot);
      StoredSentOnly(l.(peer := p.(srej := p.srej - {Lowest(p.srej, 0)})), out.slot);
    }
  }

  lemma FillerSentOnly(c: Config, l: Link)
    ensures SentOnly(l, Filler(c, l))
  {
  }

  lemma PickedSentOnly(c: Config, l: Link)
    ensures SentOnly(l, Picked(c, l).0)
  {
    hide NextService;
    hide NextInfo;
    hide Filler;
    var l1 := NextService(l).0;
    var l2 := NextInfo(l1).0;
    ServiceSentOnly(l);
    InfoSentOnly(l1);
    FillerSentOnly(c, l2);
    ServiceSentOnly(Filler(c, l2));
  }

  lemma NextSentOnly(c: Config, l: Link)
    ensures SentOnly(l, NextFrame(c, l).0)
  {
    hide Picked;
    PickedSentOnly(c, l);
  }

  lemma ServiceTables(l: Link)
    ensures InTables(NextService(l).0, NextService(l).1)
  {
  }

  lemma InfoTables(l: Link)
    ensures InTables(NextInfo(l).0, NextInfo(l).1)
  {
  }

  lemma PickedTables(c: Config, l: Link)
    ensures InTables(Picked(c, l).0, Picked(c, l).1)
  {
    hide NextService;
    hide NextInfo;
    hide Filler;
    var l1 := NextService(l).0;
    ServiceTables(l);
    InfoTables(l1);
    ServiceTables(Filler(c, NextInfo(l1).0));
  }

  // ------------------------------------------------------------------ numbers and P/F bits

  /**
   * The frame handed to the transmitter. In normal response mode P/F goes with every S- and U-frame and with the last
   * I-frame there is to send; in balanced mode with U-frames alone. The N(R) that leaves is the one remembered.
   */
  ghost predicate Headed(c: Config, l: Link, r: Link, out: Outgoing)
    requires out != Nothing && InTables(r, out)
  {
    var f := FrameAt(r, out);
    if out.Info? then
      && f.IFrame? && f.nr == l.peer.nextNr == r.peer.sentNr
      && (f.poll <==> c.mode == NRM && r.peer.next == r.peer.last)
    else
      && ((c.mode == NRM && f.SFrame?) || f.UFrame? ==> f.poll)
      && (f.SFrame? ==> f.nr == r.peer.sentNr)
  }

  /** An I-frame in the slot it was picked from, refreshed and not yet given its P/F bit. */
  predicate Fresh(l: Link, r: Link, out: Outgoing) {
    && out.Info? && out.slot < |r.iq.slots|
    && var f := r.iq.slots[out.slot].frame; f.IFrame? && f.nr == l.peer.nextNr == r.peer.sentNr && !f.poll
  }

  lemma StoredFresh(l: Link, i: nat)
    requires i < |l.iq.slots| && l.iq.slots[i].frame.IFrame?
    ensures Fresh(l, SendStored(l, i), Info(i))
  {
  }

  lemma FoundInfo(q: Queue, station: byte, ns: Seq8)
    requires Store(q)
    ensures var i := Find(q, INFO, station, ns);
            i.Some? ==> i.value < |q.slots| && q.slots[i.value].frame.IFrame? && q.slots[i.value].frame.ns == ns
                        && q.slots[i.value].frame.station == station
  {
  }

  lemma InfoFresh(l: Link)
    requires Store(l.iq)
    ensures var (r, out) := NextInfo(l); out != Nothing ==> Fresh(l, r, out)
  {
    hide Find;
    hide Lowest;
    hide SendStored;
    hide Store;
    var p := l.peer;
    var n := Lowest(p.srej, 0);
    FoundInfo(l.iq, p.station, n);
    FoundInfo(l.iq, p.station, p.next);
    var (r, out) := NextInfo(l);
    if out.Info? {
      if p.srej != {} {
        StoredFresh(l.(peer := p.(srej := p.srej - {n})), out.slot);
      } else {
        StoredFresh(l.(peer := p.(next := Inc(p.next))), out.slot);
      }
    }
  }

  lemma ServiceNoted(l: Link)
    ensures var (r, out) := NextService(l);
            out != Nothing ==> out.Service? && out.slot < |r.sq.slots|
                               && var f := r.sq.slots[out.slot].frame; f.SFrame? ==> f.nr == r.peer.sentNr
  {
  }

  lemma PickedHeaded(c: Config, l: Link)
    requires Store(l.iq)
    ensures var (r, out) := Picked(c, l);
            && (out.Info? ==> Fresh(l, r, out))
            && (out.Service? ==> out.slot < |r.sq.slots|
                                 && var f := r.sq.slots[out.slot].frame; f.SFrame? ==> f.nr == r.peer.sentNr)
  {
    hide NextService;
    hide NextInfo;
    hide Filler;
    hide Store;
    var l1 := NextService(l).0;
    ServiceSentOnly(l);
    ServiceTable(l);
    ServiceNoted(l);
    InfoFresh(l1);
    InfoTables(l1);
    ServiceNoted(Filler(c, NextInfo(l1).0));
    ServiceTables(Filler(c, NextInfo(l1).0));
  }

  lemma ServiceTable(l: Link)
    ensures NextService(l).0.iq == l.iq && (NextService(l).1.Info? ==> false)
  {
  }

  lemma NextHeaded(c: Config, l: Link)
    requires Store(l.iq)
    ensures var (r, out) := NextFrame(c, l); out != Nothing ==> Headed(c, l, r, out)
  {
    hide Picked;
    hide Store;
    PickedHeaded(c, l);
    PickedTables(c, l);
    PickedSentOnly(c, l);
  }

  // ------------------------------------------------------------------ frames asked for by SREJ

  lemma {:induction false} LowestIs(mask: set<Seq8>, from: Seq8)
    requires exists n: Seq8 :: n in mask && n >= from
    ensures var n := Lowest(mask, from); n in mask && n >= from && forall m: Seq8 | m in mask && m >= from :: n <= m
    decreases 8 - from
  {
    if from !in mask && from < 7 { LowestIs(mask, from + 1); }
  }

  /**
   * While frames are asked for, the one under the lowest number asked for goes first, with its payload and the current
   * N(R), if it is still outstanding; the request is then over, and the turn of the other frames is where it was.
   */
  lemma RequestedGoesFirst(l: Link, w: seq<seq<byte>>, n: Seq8)
    requires Held(l, w) && Up(l.peer) && n in l.peer.srej && forall m: Seq8 | m in l.peer.srej :: n <= m
    ensures var (r, out) := NextInfo(l); var d := Ahead(n, l.peer.confirm);
            && r.peer.srej == l.peer.srej - {n} && r.peer.next == l.peer.next && Held(r, w)
            && if d < |w| then
                 && out.Info? && out.slot < |r.iq.slots|
                 && r.iq.slots[out.slot].frame == IFrame(l.peer.station, r.iq.slots[out.slot].frame.command, n,
                                                         l.peer.nextNr, false, w[d])
               else out == Nothing
  {
    LowestIs(l.peer.srej, 0);
    var p := l.peer;
    assert Lowest(p.srej, 0) == n;
    assert Stored(l.iq, p.station, n) == if Ahead(n, p.confirm) < |w| then Some(w[Ahead(n, p.confirm)]) else None;
    FoundInfo(l.iq, p.station, n);
    match Find(l.iq, INFO, p.station, n)
    case None =>
    case Some(i) => RewriteHolds(l.iq, i, Refreshed(l.iq.slots[i].frame, p.nextNr), p.station, p.confirm, w);
  }

  /**
   * A balanced station answers SREJ in step by sending that one frame again, whatever it has sent since, and then goes
   * on where it was.
   */
  lemma SelectiveResend(c: Config, l: Link, w: seq<seq<byte>>, f: Frame)
    requires Live(l, w) && c.mode == ABM && ServiceFifo.Fifo(l.sq) == []
    requires f.SFrame? && f.kind == SREJ && Ahead(f.nr, l.peer.confirm) < |w|
    ensures var m := OnRead(c, l, f); var (r, out) := Emit(c, m); var d := Ahead(f.nr, l.peer.confirm);
            && r.peer.next == l.peer.next && Live(r, w[d..])
            && InfoOf(out) == [Shipped(f.nr, l.peer.nextNr, w[d])]
  {
    var d, n := Ahead(f.nr, l.peer.confirm), l.(peer := l.peer.(kaConfirmed := true));
    Still(l, w, n);
    assert w[0..] == w;
    ConfirmMoves(c, n, w, f.nr);
    var k := Confirm(c, n, f.nr);
    var m := k.(peer := k.peer.(srej := {f.nr}));
    assert OnRead(c, l, f) == m;
    PositionNumber(f.nr, l.peer.confirm);
    AskedEmitted(c, k, w[d..], f.nr);
  }

  /** With one frame asked for, and that the oldest one outstanding, exactly it leaves. */
  lemma AskedEmitted(c: Config, k: Link, v: seq<seq<byte>>, n: Seq8)
    requires Live(k, v) && c.mode == ABM && ServiceFifo.Fifo(k.sq) == [] && v != [] && k.peer.confirm == n
    ensures var (r, out) := Emit(c, k.(peer := k.peer.(srej := {n})));
            && r.peer.next == k.peer.next && Live(r, v) && InfoOf(out) == [Shipped(n, k.peer.nextNr, v[0])]
  {
    var m := k.(peer := k.peer.(srej := {n}));
    ServiceFifo.PickIsHead(m.sq, m.peer.station);
    assert NextService(m) == (m, Nothing);
    RequestedGoesFirst(m, v, n);
    var (r, out) := NextInfo(m);
    assert {n} - {n} == {};
    assert Picked(c, m) == (r, out);
    assert NextFrame(c, m) == (r, out);
  }

  // ------------------------------------------------------------------ with nothing to say

  /** What a station of the normal response mode sends to pass the marker on. */
  function Passing(c: Config, p: Peer, poll: bool): Frame {
    if c.primary && !Up(p)
    then UFrame(p.station, true, SNRM, poll, [])
    else SFrame(p.station, false, RR, p.nextNr, poll)
  }

  /** With nothing queued and no I-frame to send, it sends a connection request or RR, with P/F in either case. */
  lemma FillerLeaves(c: Config, l: Link)
    requires c.mode == NRM && ServiceFifo.Ordered(l.sq, l.peer.station) && ServiceFifo.Fifo(l.sq) == []
    requires NextInfo(l) == (l, Nothing)
    ensures var (r, out) := NextFrame(c, l); out.Service? && FrameAt(r, out) == Passing(c, l.peer, true)
  {
    var p, g := l.peer, Passing(c, l.peer, false);
    ServiceFifo.PickIsHead(l.sq, p.station);
    ServiceFifo.AllocateAppends(l.sq, p.station, SupervisorySlot, g);
    var q := Allocate(l.sq, SupervisorySlot, g);
    ServiceFifo.PickIsHead(q, p.station);
    assert [] + [g] == [g];
    hide Find;
    hide Allocate;
    hide NextInfo;
    assert NextService(l) == (l, Nothing);
    assert Filler(c, l) == l.(sq := q);
    assert Picked(c, l) == NextService(l.(sq := q));
  }
}
