/**
 * Going back: where a rewind ends, what is sent after it, how often a silent peer is tried,
 * and the one way in which the sender gets stuck.
 */
module Retransmission {
  import opened Frames
  import opened FramesQueue
  import opened InfoStore
  import opened Station
  import opened Window
  import opened ServiceFifo
  import opened Endpoint

  // ------------------------------------------------------------------ where a rewind ends

  /**
   * A rewind reaches the number asked for unless, counting down from `next`, the oldest unconfirmed number comes
   * first; then it stops there and queues a frame reject.
   */
  lemma {:induction false} RewindExact(l: Link, control: byte, nr: Seq8)
    ensures var p := l.peer;
            Rewind(l, control, nr) ==
            if Ahead(p.next, nr) <= Ahead(p.next, p.confirm) then l.(peer := p.(next := nr))
            else Queued(l.(peer := p.(next := p.confirm)), UnnumberedSlot,
                        UFrame(p.station, true, FRMR, false, RejectInfo(control, p.nextNr, p.confirm)))
    decreases Ahead(l.peer.next, nr)
  {
    var p := l.peer;
    if p.next == nr {
      assert l == l.(peer := p.(next := nr));
    } else if p.confirm == p.next {
      assert l == l.(peer := p.(next := p.confirm));
    } else {
      StepDown(p.next, nr);
      StepDown(p.next, p.confirm);
      RewindExact(l.(peer := p.(next := Dec(p.next))), control, nr);
    }
  }

  // ------------------------------------------------------------------ what is sent after it

  /** The next number to send lies between the oldest outstanding one and the one behind the newest. */
  predicate InOrder(p: Peer) { Ahead(p.next, p.confirm) <= Size(p) }

  /** A REJ for an outstanding number, or the one behind them, settles what lies before it and goes back to it. */
  lemma RejectGoesBack(c: Config, l: Link, w: seq<seq<byte>>, f: Frame)
    requires Live(l, w) && f.SFrame? && f.kind == REJ && Ahead(f.nr, l.peer.confirm) <= |w|
    ensures var r := OnRead(c, l, f); var d := Ahead(f.nr, l.peer.confirm);
            && Live(r, w[d..]) && r.peer.next == r.peer.confirm == f.nr && r.peer.nextNr == l.peer.nextNr
            && Fifo(r.sq) == Fifo(l.sq)
  {
    var m := l.(peer := l.peer.(kaConfirmed := true));
    Still(l, w, m);
    assert w[0..] == w;
    ConfirmMoves(c, m, w, f.nr);
    RewindToOldest(Confirm(c, m, f.nr), Control(f));
    assert OnRead(c, l, f) == Rewind(Confirm(c, m, f.nr), Control(f), f.nr);
  }

  /** A retry timeout goes back to the oldest outstanding number. */
  lemma TimeoutGoesBack(c: Config, l: Link, w: seq<seq<byte>>, silent: bool, quiet: bool)
    requires Live(l, w) && w != [] && AllSent(l.peer) && l.peer.retries > 0
    ensures var r := Idle(c, l, true, silent, quiet);
            Live(r, w) && r == l.(peer := l.peer.(next := l.peer.confirm, retries := l.peer.retries - 1))
  {
    HeldSize(l, w);
    RewindToOldest(l.(peer := l.peer.(retries := l.peer.retries - 1)), 0);
  }

  /** What an I-frame brings the other side. */
  datatype Shipped = Shipped(ns: Seq8, nr: Seq8, payload: seq<byte>)

  function InfoOf(out: Option<Frame>): seq<Shipped> {
    if out.Some? && out.value.IFrame? then [Shipped(out.value.ns, out.value.nr, out.value.payload)] else []
  }

  /** The I-frames among those sent in `n` emissions on end. */
  function Emissions(emit: Link -> (Link, Option<Frame>), l: Link, n: nat): seq<Shipped>
    decreases n
  {
    if n == 0 then [] else InfoOf(emit(l).1) + Emissions(emit, emit(l).0, n - 1)
  }

  function Emitter(c: Config): Link -> (Link, Option<Frame>) { l => Emit(c, l) }

  /** The pending payloads from the `k`-th on, each under its own number. */
  function Rest(confirm: Seq8, nr: Seq8, w: seq<seq<byte>>, k: nat): seq<Shipped>
    requires |w| <= 8
    decreases |w| - k
  {
    if k >= |w| then [] else [Shipped(Plus(confirm, k), nr, w[k])] + Rest(confirm, nr, w, k + 1)
  }

  /** One emission: a waiting service frame goes first; then the frame whose turn it is, or nothing at all. */
  ghost predicate Went(l: Link, w: seq<seq<byte>>, r: Link, out: Option<Frame>) {
    var p, q, k := l.peer, r.peer, Ahead(l.peer.next, l.peer.confirm);
    && |w| <= 7
    && q.station == p.station && q.confirm == p.confirm && q.last == p.last && q.nextNr == p.nextNr
         && q.retries == p.retries
    && if Fifo(l.sq) != [] then
         out.Some? && !out.value.IFrame? && q.next == p.next && Fifo(r.sq) == Fifo(l.sq)[1..]
       else if k < |w| then
         out.Some? && InfoOf(out) == [Shipped(p.next, p.nextNr, w[k])] && q.next == Inc(p.next) && Fifo(r.sq) == []
       else out == None && r == l
  }

  ghost predicate Turn(l: Link, w: seq<seq<byte>>, r: Link, out: Option<Frame>) {
    Live(l, w) && Live(r, w) && Went(l, w, r, out)
  }

  lemma InfoTurn(c: Config, l: Link, w: seq<seq<byte>>)
    requires Live(l, w) && c.mode == ABM && Fifo(l.sq) == []
    ensures var (r, out) := Emit(c, l); Turn(l, w, r, out)
  {
    HeldSize(l, w);
    EmitInfo(c, l, w);
    PickIsHead(l.sq, l.peer.station);
    var p, k := l.peer, Ahead(l.peer.next, l.peer.confirm);
    assert NextService(l) == (l, Nothing);
    assert Stored(l.iq, p.station, p.next) == if k < |w| then Some(w[k]) else None;
    var (r, _) := Emit(c, l);
    HeldSize(r, w);
  }

  lemma ServiceTurn(c: Config, l: Link, w: seq<seq<byte>>)
    requires Live(l, w) && c.mode == ABM && Fifo(l.sq) != []
    ensures var (r, out) := Emit(c, l); Turn(l, w, r, out)
  {
    HeldSize(l, w);
    EmitService(c, l, w);
  }

  lemma EmitTurn(c: Config, l: Link, w: seq<seq<byte>>)
    requires Live(l, w) && c.mode == ABM
    ensures var (r, out) := Emit(c, l); Turn(l, w, r, out)
  {
    if Fifo(l.sq) == [] { InfoTurn(c, l, w); } else { ServiceTurn(c, l, w); }
  }

  /** The number a window position reads, and back. */
  lemma PositionNumber(n: Seq8, c: Seq8)
    ensures Plus(c, Ahead(n, c)) == n
  {
  }

  /** What is left to send before an emission is what it sends and what is left after it. */
  lemma RestStep(p: Peer, q: Peer, w: seq<seq<byte>>, out: Option<Frame>)
    requires |w| <= 7 && q.confirm == p.confirm && q.nextNr == p.nextNr
    requires var k := Ahead(p.next, p.confirm);
             || (InfoOf(out) == [] && q.next == p.next)
             || (k < |w| && InfoOf(out) == [Shipped(p.next, p.nextNr, w[k])] && q.next == Inc(p.next))
    ensures Rest(p.confirm, p.nextNr, w, Ahead(p.next, p.confirm)) ==
            InfoOf(out) + Rest(q.confirm, q.nextNr, w, Ahead(q.next, q.confirm))
  {
    var k := Ahead(p.next, p.confirm);
    if InfoOf(out) == [] {
      assert Rest(p.confirm, p.nextNr, w, k) == [] + Rest(p.confirm, p.nextNr, w, k);
    } else {
      PositionNumber(p.next, p.confirm);
      StepUp(p.next, p.confirm);
      assert Ahead(q.next, q.confirm) == k + 1;
    }
  }

  lemma StepUp(n: Seq8, c: Seq8)
    ensures Ahead(Inc(n), c) == if Ahead(n, c) == 7 then 0 else Ahead(n, c) + 1
  {
  }

  /** The emissions it takes until nothing is left to send. */
  function ToSend(l: Link, w: seq<seq<byte>>): int { |Fifo(l.sq)| + |w| - Ahead(l.peer.next, l.peer.confirm) }

  lemma TurnOrder(l: Link, w: seq<seq<byte>>, r: Link, out: Option<Frame>)
    requires Turn(l, w, r, out)
    ensures var k, m := Ahead(l.peer.next, l.peer.confirm), Ahead(r.peer.next, r.peer.confirm);
            && (InOrder(l.peer) <==> k <= |w|) && (InOrder(r.peer) <==> InOrder(l.peer))
            && (InOrder(l.peer) ==> ToSend(r, w) == if out.Some? then ToSend(l, w) - 1 else 0)
            && (out.Some? && out.value.IFrame? ==> m == k + 1)
            && Live(r, w) && |w| <= 7 && r.peer.confirm == l.peer.confirm && r.peer.nextNr == l.peer.nextNr
            && ((InfoOf(out) == [] && r.peer.next == l.peer.next)
                || (k < |w| && InfoOf(out) == [Shipped(l.peer.next, l.peer.nextNr, w[k])]
                     && r.peer.next == Inc(l.peer.next)))
  {
    HeldSize(l, w);
    StepUp(l.peer.next, l.peer.confirm);
  }

  ghost predicate TakesTurns(emit: Link -> (Link, Option<Frame>), w: seq<seq<byte>>) {
    forall l: Link {:trigger emit(l)} | Live(l, w) :: Turn(l, w, emit(l).0, emit(l).1)
  }

  lemma {:induction false} TurnsSendTheRest(emit: Link -> (Link, Option<Frame>), l: Link, w: seq<seq<byte>>, n: nat)
    requires TakesTurns(emit, w) && Live(l, w) && InOrder(l.peer) && n >= ToSend(l, w)
    ensures Emissions(emit, l, n) == Rest(l.peer.confirm, l.peer.nextNr, w, Ahead(l.peer.next, l.peer.confirm))
    decreases n
  {
    if n == 0 {
      HeldSize(l, w);
    } else {
      hide Live;
      hide Turn;
      hide InOrder;
      hide ToSend;
      hide Rest;
      var (r, out) := emit(l);
      TurnOrder(l, w, r, out);
      TurnsSendTheRest(emit, r, w, n - 1);
      RestStep(l.peer, r.peer, w, out);
    }
  }

  /** Emitting on and on sends exactly the pending frames from `next` to the last, in order, and then nothing more. */
  lemma SendsTheRest(c: Config, l: Link, w: seq<seq<byte>>, n: nat)
    requires Live(l, w) && c.mode == ABM && InOrder(l.peer) && n >= ToSend(l, w)
    ensures Emissions(Emitter(c), l, n) == Rest(l.peer.confirm, l.peer.nextNr, w, Ahead(l.peer.next, l.peer.confirm))
  {
    forall x: Link | Live(x, w)
      ensures Turn(x, w, Emitter(c)(x).0, Emitter(c)(x).1)
    {
      EmitTurn(c, x, w);
    }
    TurnsSendTheRest(Emitter(c), l, w, n);
  }

  /** Go-back-N: after a REJ every outstanding frame from the rejected one on is sent again, in order, and no other. */
  lemma RejectResends(c: Config, l: Link, w: seq<seq<byte>>, f: Frame, n: nat)
    requires Live(l, w) && c.mode == ABM && f.SFrame? && f.kind == REJ && Ahead(f.nr, l.peer.confirm) <= |w|
    requires n >= |Fifo(l.sq)| + |w|
    ensures Emissions(Emitter(c), OnRead(c, l, f), n) == Rest(f.nr, l.peer.nextNr, w[Ahead(f.nr, l.peer.confirm)..], 0)
  {
    RejectGoesBack(c, l, w, f);
    SendsTheRest(c, OnRead(c, l, f), w[Ahead(f.nr, l.peer.confirm)..], n);
  }

  /** And after a timeout all of them are. */
  lemma TimeoutResends(c: Config, l: Link, w: seq<seq<byte>>, silent: bool, quiet: bool, n: nat)
    requires Live(l, w) && c.mode == ABM && w != [] && AllSent(l.peer) && l.peer.retries > 0
    requires n >= |Fifo(l.sq)| + |w|
    ensures Emissions(Emitter(c), Idle(c, l, true, silent, quiet), n) == Rest(l.peer.confirm, l.peer.nextNr, w, 0)
  {
    TimeoutGoesBack(c, l, w, silent, quiet);
    SendsTheRest(c, Idle(c, l, true, silent, quiet), w, n);
  }

  /** Read out: the `i`-th I-frame sent has the `i`-th number and the `i`-th payload. */
  lemma {:induction false} RestAt(confirm: Seq8, nr: Seq8, w: seq<seq<byte>>, k: nat, i: nat)
    requires |w| <= 8 && k + i < |w|
    ensures var sent := Rest(confirm, nr, w, k);
            |sent| == |w| - k && sent[i] == Shipped(Plus(confirm, k + i), nr, w[k + i])
    decreases |w| - k
  {
    if k + 1 < |w| { RestAt(confirm, nr, w, k + 1, if i > 0 then i - 1 else 0); }
  }

  // ------------------------------------------------------------------ a silent peer

  function Times(n: nat, size: nat): nat { if n == 0 then 0 else size + Times(n - 1, size) }

  /** The I-frames that can still be sent to a peer that never answers. */
  function Budget(p: Peer): nat { Ahead(p.last, p.next) + Times(p.retries, Size(p)) }

  datatype Beat = Send | Clock(retryDue: bool, silent: bool, quiet: bool)

  function Beats(c: Config, l: Link, beats: seq<Beat>): (Link, nat)
    decreases |beats|
  {
    if beats == [] || l.peer.state != Connected then (l, 0)
    else match beats[0]
      case Send =>
        var (r, out) := Emit(c, l);
        var (e, n) := Beats(c, r, beats[1..]);
        (e, n + if out.Some? && out.value.IFrame? then 1 else 0)
      case Clock(retryDue, silent, quiet) => Beats(c, Idle(c, l, retryDue, silent, quiet), beats[1..])
  }

  lemma SendSpends(c: Config, l: Link, w: seq<seq<byte>>)
    requires Live(l, w) && c.mode == ABM && InOrder(l.peer)
    ensures var (r, out) := Emit(c, l);
            && Live(r, w) && InOrder(r.peer)
            && Budget(l.peer) == Budget(r.peer) + if out.Some? && out.value.IFrame? then 1 else 0
  {
    var (r, out) := Emit(c, l);
    EmitTurn(c, l, w);
    TurnOrder(l, w, r, out);
    LeftOver(l.peer);
    LeftOver(r.peer);
  }

  lemma LeftOver(p: Peer)
    requires InOrder(p)
    ensures Ahead(p.last, p.next) == Size(p) - Ahead(p.next, p.confirm)
  {
  }

  lemma KeepAliveSpends(l: Link, w: seq<seq<byte>>)
    requires Live(l, w) && InOrder(l.peer)
    ensures var r := SendS(l.(peer := l.peer.(kaConfirmed := false)), false, RR, true);
            Live(r, w) && InOrder(r.peer) && Budget(r.peer) == Budget(l.peer)
  {
    var m := l.(peer := l.peer.(kaConfirmed := false));
    Still(l, w, m);
    assert w[0..] == w;
    var _ := SendMoves(m, w, false, RR, true);
  }

  lemma RetrySpends(c: Config, l: Link, w: seq<seq<byte>>, silent: bool, quiet: bool)
    requires Live(l, w) && w != [] && AllSent(l.peer) && l.peer.retries > 0
    ensures var r := Idle(c, l, true, silent, quiet);
            Live(r, w) && InOrder(r.peer) && Budget(r.peer) == Budget(l.peer)
  {
    HeldSize(l, w);
    TimeoutGoesBack(c, l, w, silent, quiet);
  }

  /** The retry timer moves the budget from retries to frames; when it ends the connection, the budget was spent. */
  lemma ClockSpends(c: Config, l: Link, w: seq<seq<byte>>, retryDue: bool, silent: bool, quiet: bool)
    requires Live(l, w) && InOrder(l.peer)
    ensures var r := Idle(c, l, retryDue, silent, quiet);
            if r.peer.state == Connected then Live(r, w) && InOrder(r.peer) && Budget(r.peer) == Budget(l.peer)
            else (!silent ==> Budget(l.peer) == 0)
  {
    hide Held;
    hide Ordered;
    HeldSize(l, w);
    if Unconfirmed(l.peer) && AllSent(l.peer) && retryDue {
      if l.peer.retries > 0 { RetrySpends(c, l, w, silent, quiet); }
    } else if !silent && quiet {
      KeepAliveSpends(l, w);
    }
  }

  /**
   * As long as the connection stands and the peer is silent, the frames sent and the budget left add up to the
   * budget at the start: at most `(last - next) + retries * (last - confirm)` I-frames are ever sent.
   */
  lemma {:induction false} SilentPeer(c: Config, l: Link, w: seq<seq<byte>>, beats: seq<Beat>)
    requires Live(l, w) && c.mode == ABM && InOrder(l.peer)
    ensures var (r, n) := Beats(c, l, beats);
            && n <= Budget(l.peer)
            && (r.peer.state == Connected ==> n + Budget(r.peer) == Budget(l.peer))
            && ((forall b | b in beats :: b.Clock? ==> !b.silent) && r.peer.state != Connected ==> n == Budget(l.peer))
    decreases |beats|
  {
    if beats != [] {
      assert beats[0] in beats && forall b | b in beats[1..] :: b in beats;
      match beats[0]
      case Send =>
        SendSpends(c, l, w);
        SilentPeer(c, Emit(c, l).0, w, beats[1..]);
      case Clock(retryDue, silent, quiet) =>
        ClockSpends(c, l, w, retryDue, silent, quiet);
        var r := Idle(c, l, retryDue, silent, quiet);
        if r.peer.state == Connected { SilentPeer(c, r, w, beats[1..]); }
    }
  }

  // ------------------------------------------------------------------ the sender stuck

  /** The next number to send has fallen out of the window: nothing pending will be sent, or sent again. */
  ghost predicate Stalled(l: Link, w: seq<seq<byte>>) { Live(l, w) && !InOrder(l.peer) }

  /**
   * With frames outstanding and nothing else to send, an I-frame or the retry timer is on unless the sender is
   * stalled.
   */
  lemma StallExact(c: Config, l: Link, w: seq<seq<byte>>)
    requires Live(l, w) && w != [] && c.mode == ABM && Fifo(l.sq) == []
    ensures !Stalled(l, w) <==> Emit(c, l).1.Some? || (Unconfirmed(l.peer) && AllSent(l.peer))
  {
    HeldSize(l, w);
    InfoTurn(c, l, w);
    assert Unconfirmed(l.peer);
  }

  /** An acknowledgement keeps the order exactly when it does not run past the next number to send. */
  lemma AckKeepsOrder(c: Config, l: Link, w: seq<seq<byte>>, nr: Seq8)
    requires Live(l, w) && InOrder(l.peer) && Ahead(nr, l.peer.confirm) <= |w|
    ensures InOrder(Confirm(c, l, nr).peer) <==> Ahead(nr, l.peer.confirm) <= Ahead(l.peer.next, l.peer.confirm)
  {
    HeldSize(l, w);
    ConfirmMoves(c, l, w, nr);
    HeldSize(Confirm(c, l, nr), w[Ahead(nr, l.peer.confirm)..]);
  }

  /** All frames sent, a timeout, and then an acknowledgement of some or all of them: the sender is stalled. */
  lemma LateAckStalls(c: Config, l: Link, w: seq<seq<byte>>, f: Frame)
    requires Live(l, w) && AllSent(l.peer) && l.peer.retries > 0
    requires f.SFrame? && f.kind == RR && 0 < Ahead(f.nr, l.peer.confirm) <= |w|
    ensures var d := Ahead(f.nr, l.peer.confirm); Stalled(OnRead(c, Idle(c, l, true, false, false), f), w[d..])
  {
    HeldSize(l, w);
    TimeoutGoesBack(c, l, w, false, false);
    AckMoves(c, Idle(c, l, true, false, false), w, f);
  }

  /** A frame in step that is no REJ settles what its N(R) covers and leaves the next number to send alone. */
  lemma AckMoves(c: Config, l: Link, w: seq<seq<byte>>, f: Frame)
    requires Live(l, w) && (f.IFrame? || (f.SFrame? && f.kind == RR)) && Ahead(f.nr, l.peer.confirm) <= |w|
    ensures var r := OnRead(c, l, f); var d := Ahead(f.nr, l.peer.confirm);
            Live(r, w[d..]) && r.peer.next == l.peer.next && r.peer.confirm == f.nr
  {
    var m := l.(peer := l.peer.(kaConfirmed := true));
    var _ := ReadMoves(c, l, w, f);
    PositionNumber(f.nr, l.peer.confirm);
    ConfirmNext(c, m, f.nr);
    ConfirmNext(c, CheckReceived(m, if f.IFrame? then f.ns else 0), f.nr);
  }

  lemma {:induction false} ConfirmNext(c: Config, l: Link, nr: Seq8)
    ensures ConfirmUpTo(c, l, nr).peer.next == l.peer.next
    decreases Ahead(nr, l.peer.confirm)
  {
    if nr != l.peer.confirm && l.peer.confirm != l.peer.last {
      StepDown(nr, l.peer.confirm);
      ConfirmNext(c, ConfirmOne(c, l), nr);
    }
  }

  predicate IsRej(f: Frame) { f.SFrame? && f.kind == REJ }

  /** A frame in step that settles `d` frames keeps the sender stalled exactly if it is no REJ. */
  lemma StallRead(c: Config, l: Link, w: seq<seq<byte>>, f: Frame)
    requires Stalled(l, w) && (f.IFrame? || Ack(f)) && Ahead(f.nr, l.peer.confirm) <= |w|
    ensures Stalled(OnRead(c, l, f), w[Ahead(f.nr, l.peer.confirm)..]) <==> !IsRej(f)
  {
    var r, d := OnRead(c, l, f), Ahead(f.nr, l.peer.confirm);
    HeldSize(l, w);
    if IsRej(f) {
      RejectGoesBack(c, l, w, f);
    } else {
      AckMoves(c, l, w, f);
      HeldSize(r, w[d..]);
    }
  }

  /**
   * A stalled sender stays stalled through timeouts and emissions, of which none is an I-frame. Through a frame in
   * step, be it an I-frame, RR or REJ, it stays stalled if and only if the frame is not REJ.
   */
  lemma StallPersists(c: Config, l: Link, w: seq<seq<byte>>, f: Frame, retryDue: bool, quiet: bool)
    requires Stalled(l, w) && c.mode == ABM
    requires (f.IFrame? || Ack(f)) && Ahead(f.nr, l.peer.confirm) <= |w|
    ensures Stalled(OnRead(c, l, f), w[Ahead(f.nr, l.peer.confirm)..]) <==> !IsRej(f)
    ensures Stalled(Idle(c, l, retryDue, false, quiet), w)
    ensures var (r, out) := Emit(c, l); Stalled(r, w) && (out.Some? ==> !out.value.IFrame?)
  {
    StallRead(c, l, w, f);
    StalledClock(c, l, w, retryDue, quiet);
    StalledSend(c, l, w);
  }

  lemma StalledClock(c: Config, l: Link, w: seq<seq<byte>>, retryDue: bool, quiet: bool)
    requires Stalled(l, w)
    ensures Stalled(Idle(c, l, retryDue, false, quiet), w)
  {
    HeldSize(l, w);
    assert w[0..] == w;
    if quiet {
      var m := l.(peer := l.peer.(kaConfirmed := false));
      Still(l, w, m);
      var _ := SendMoves(m, w, false, RR, true);
    }
  }

  lemma StalledSend(c: Config, l: Link, w: seq<seq<byte>>)
    requires Stalled(l, w) && c.mode == ABM
    ensures var (r, out) := Emit(c, l); Stalled(r, w) && (out.Some? ==> !out.value.IFrame?)
  {
    var (r, out) := Emit(c, l);
    EmitTurn(c, l, w);
    TurnOrder(l, w, r, out);
  }

  /**
   * A put ends the stall exactly when it brings `last` round to the stale `next`; with fewer slots than that takes,
   * no put ever does.
   */
  lemma PutAndStall(l: Link, w: seq<seq<byte>>, data: seq<byte>)
    requires Stalled(l, w) && Put(l, data).1 == Success
    ensures Stalled(Put(l, data).0, w + [data]) <==> Ahead(l.peer.next, l.peer.confirm) != |w| + 1
    ensures |l.iq.slots| < Ahead(l.peer.next, l.peer.confirm) ==> Stalled(Put(l, data).0, w + [data])
  {
    HeldSize(l, w);
    PutMoves(l, w, data);
    RoomInWindow(l.iq, l.peer.station, l.peer.confirm, w);
    HeldSize(Put(l, data).0, w + [data]);
  }
}
