/**
 * What each received frame makes of the connection and what it is answered with, in every connection state.
 */
module Replies {
  import opened Frames
  import opened FramesQueue
  import opened InfoStore
  import opened Station
  import opened Handle
  import opened Window
  import opened Endpoint
  import opened Retransmission
  import opened Addressing
  import opened Connections
  import opened ServiceFifo

  // ------------------------------------------------------------------ what is queued

  /** The S- and U-frames in a table, whoever they are for. */
  function Queueing(slots: seq<Slot>): multiset<Frame> {
    if slots == [] then multiset{}
    else
      var s := slots[|slots| - 1];
      Queueing(slots[..|slots| - 1]) + if s.kind in SERVICE then multiset{s.frame} else multiset{}
  }

  lemma {:induction false} QueueingOne(slots: seq<Slot>, i: nat, s: Slot)
    requires i < |slots| && slots[i].kind == FreeSlot && s.kind in SERVICE
    ensures Queueing(slots[i := s]) == Queueing(slots) + multiset{s.frame}
    decreases |slots|
  {
    var n := |slots| - 1;
    if i < n {
      QueueingOne(slots[..n], i, s);
      assert slots[i := s][..n] == slots[..n][i := s];
    } else {
      assert slots[i := s][..n] == slots[..n];
    }
  }

  /** Freeing the slot of a frame takes out that frame. */
  lemma {:induction false} QueueingLess(slots: seq<Slot>, i: nat)
    requires i < |slots| && slots[i].kind in SERVICE
    ensures Queueing(slots[i := slots[i].(kind := FreeSlot)]) + multiset{slots[i].frame} == Queueing(slots)
    decreases |slots|
  {
    var n, t := |slots| - 1, slots[i := slots[i].(kind := FreeSlot)];
    if i < n {
      QueueingLess(slots[..n], i);
      assert t[..n] == slots[..n][i := slots[i].(kind := FreeSlot)];
    } else {
      assert t[..n] == slots[..n];
    }
  }

  /** `f` has been queued, last in order, or dropped because it is too long or no slot is free. */
  ghost predicate Enqueued(q: Queue, r: Queue, f: Frame) {
    var room := |Payload(f)| <= q.mtu && AnyFree(q);
    && (if room then Queueing(r.slots) == Queueing(q.slots) + multiset{f} else r == q)
    && (Ordered(q, f.station) ==>
          Ordered(r, f.station) && (room <==> |Payload(f)| <= q.mtu && |Fifo(q)| < |q.slots|)
          && Fifo(r) == if room then Fifo(q) + [f] else Fifo(q))
  }

  lemma AllocateEnqueues(q: Queue, kind: Kind, f: Frame)
    requires kind in SERVICE
    ensures Enqueued(q, Allocate(q, kind, f), f)
  {
    if HasRoom(q, f) {
      FindFinds(q, {FreeSlot}, 0, 0);
      QueueingOne(q.slots, Find(q, {FreeSlot}, 0, 0).value, Slot(kind, f));
    }
    if Ordered(q, f.station) { AllocateAppends(q, f.station, kind, f); }
  }

  // ------------------------------------------------------------------ I-frames

  /** A confirmation has no part in what is received and answered. */
  predicate ReceivesAlike(l: Link, r: Link) {
    && r.sq == l.sq && SameId(l.peer, r.peer) && r.peer.state == l.peer.state
    && r.peer.nextNr == l.peer.nextNr && r.peer.sentNr == l.peer.sentNr && r.peer.sentReject == l.peer.sentReject
    && r.peer.last == l.peer.last && r.peer.next == l.peer.next && r.peer.srej == l.peer.srej
    && r.peer.kaConfirmed == l.peer.kaConfirmed && r.peer.log.received == l.peer.log.received
    && r.peer.log.links == l.peer.log.links && r.peer.log.uis == l.peer.log.uis
  }

  lemma {:induction false} ConfirmAlike(c: Config, l: Link, nr: Seq8)
    ensures ReceivesAlike(l, ConfirmUpTo(c, l, nr))
    decreases Ahead(nr, l.peer.confirm)
  {
    if nr != l.peer.confirm && l.peer.confirm != l.peer.last {
      StepDown(nr, l.peer.confirm);
      ConfirmAlike(c, ConfirmOne(c, l), nr);
    }
  }

  /** Whatever it was, something has been heard from the peer, and it is the same peer. */
  predicate Heard(p: Peer, q: Peer) { q.kaConfirmed && SameId(p, q) }

  function Reject(p: Peer): Frame { SFrame(p.station, true, REJ, p.nextNr, false) }

  /**
   * The frame expected is delivered, any reject standing is over, and with nothing left to send it is acknowledged
   * by RR unless its number has gone out already. Any other frame is not delivered: the missing one is asked for,
   * once.
   */
  ghost predicate InfoTable(p: Peer, q: Peer, s: Queue, t: Queue, f: Frame)
    requires f.IFrame?
  {
    && q.state == p.state && q.log.links == p.log.links && q.log.uis == p.log.uis
    && if f.ns == p.nextNr then
         && q.nextNr == Inc(p.nextNr) && !q.sentReject && q.log.received == p.log.received + [f.payload]
         && (if p.next == p.last && p.sentNr != Inc(p.nextNr)
             then Enqueued(s, t, SFrame(p.station, false, RR, Inc(p.nextNr), false)) else t == s)
       else
         && q.nextNr == p.nextNr && q.sentReject && q.log.received == p.log.received
         && (if p.sentReject then t == s else Enqueued(s, t, Reject(p)))
  }

  lemma InfoAnswered(c: Config, l: Link, f: Frame)
    requires f.IFrame? && Up(l.peer)
    ensures var r := OnRead(c, l, f); InfoTable(l.peer, r.peer, l.sq, r.sq, f) && Heard(l.peer, r.peer)
  {
    hide Enqueued;
    hide Allocate;
    hide ConfirmUpTo;
    var p, m := l.peer, l.(peer := l.peer.(kaConfirmed := true));
    ConfirmAlike(c, CheckReceived(m, f.ns), f.nr);
    if f.ns == p.nextNr {
      AllocateEnqueues(l.sq, SupervisorySlot, SFrame(p.station, false, RR, Inc(p.nextNr), false));
    } else {
      AllocateEnqueues(l.sq, SupervisorySlot, Reject(p));
    }
  }

  /**
   * With one peer in the table: a frame that is not the one expected leaves exactly one REJ for the one that is at the
   * end of the queue, unless one is standing or the table is full; the frame expected ends the standing one.
   */
  lemma MissingFrameAsked(c: Config, l: Link, w: seq<seq<byte>>, f: Frame)
    requires Live(l, w) && f.IFrame?
    ensures var r := OnRead(c, l, f); var room := |Fifo(l.sq)| < |l.sq.slots|;
            && (f.ns != l.peer.nextNr ==>
                  && r.peer.sentReject
                  && (Fifo(r.sq) == Fifo(l.sq) + [Reject(l.peer)] <==> !l.peer.sentReject && room)
                  && (Fifo(r.sq) == Fifo(l.sq) <==> l.peer.sentReject || !room))
            && (f.ns == l.peer.nextNr ==> !r.peer.sentReject)
  {
    InfoAnswered(c, l, f);
    hide OnRead;
    hide Held;
    hide Ordered;
  }

  // ------------------------------------------------------------------ S-frames

  /**
   * RR as a command is answered by RR with its P bit once all is sent; SREJ is noted; REJ goes back to its number,
   * or to the oldest one unconfirmed and a frame reject; RNR is not answered.
   */
  ghost predicate SupervisoryTable(p: Peer, q: Peer, s: Queue, t: Queue, f: Frame)
    requires f.SFrame?
  {
    && q.state == p.state && q.log.links == p.log.links && q.log.uis == p.log.uis && q.log.received == p.log.received
    && q.nextNr == p.nextNr && q.sentReject == p.sentReject
    && q.srej == (if f.kind == SREJ then p.srej + {f.nr} else p.srej)
    && match f.kind
       case RR =>
         && q.next == p.next
         && if f.command && p.next == p.last
            then Enqueued(s, t, SFrame(p.station, false, RR, p.nextNr, f.poll))
            else t == s
       case RNR => q.next == p.next && t == s
       case SREJ => q.next == p.next && t == s
       case REJ =>
         if Ahead(p.next, f.nr) <= Ahead(p.next, q.confirm) then q.next == f.nr && t == s
         else
           && q.next == q.confirm
           && Enqueued(s, t, UFrame(p.station, true, FRMR, false, RejectInfo(Control(f), p.nextNr, q.confirm)))
  }

  lemma SupervisoryAnswered(c: Config, l: Link, f: Frame)
    requires f.SFrame? && Up(l.peer)
    ensures var r := OnRead(c, l, f); SupervisoryTable(l.peer, r.peer, l.sq, r.sq, f) && Heard(l.peer, r.peer)
  {
    hide Enqueued;
    hide Allocate;
    var p, m := l.peer, l.(peer := l.peer.(kaConfirmed := true));
    ConfirmAlike(c, m, f.nr);
    AllocateEnqueues(l.sq, SupervisorySlot, SFrame(p.station, false, RR, p.nextNr, f.poll));
    var r := Confirm(c, m, f.nr);
    RewindExact(r, Control(f), f.nr);
    AllocateEnqueues(l.sq, UnnumberedSlot,
                     UFrame(p.station, true, FRMR, false, RejectInfo(Control(f), p.nextNr, r.peer.confirm)));
  }

  // ------------------------------------------------------------------ U-frames

  predicate ZeroCounters(p: Peer) {
    p.confirm == p.next == p.last == p.nextNr == p.sentNr == 0 && !p.sentReject && p.srej == {}
  }

  predicate SameData(p: Peer, q: Peer) { q.log.received == p.log.received && q.log.confirmed == p.log.confirmed }

  /** The connection is over and the application knows. */
  predicate Dropped(p: Peer, q: Peer) {
    q.state == Disconnected && q.log.links == p.log.links + [false] && ZeroCounters(q) && !q.canAccept
  }

  /** A new connection stands; one that stood before was ended first. */
  predicate Established(p: Peer, q: Peer) {
    && q.state == Connected && q.log.links == p.log.links + (if Up(p) then [false, true] else [true])
    && ZeroCounters(q) && q.canAccept
  }

  /** Nothing has changed but that something was heard. */
  predicate Unmoved(p: Peer, q: Peer) { q == p.(kaConfirmed := true) }

  function Response(p: Peer, kind: UKind): Frame { UFrame(p.station, false, kind, false, []) }

  /** U-frame by U-frame: what becomes of the peer, from `p` to `q`, and of the service table, from `s` to `t`. */
  ghost predicate UnnumberedTable(mode: Mode, p: Peer, q: Peer, s: Queue, t: Queue, f: Frame)
    requires f.UFrame?
  {
    var k, down := f.ukind, p.state == Disconnected;
    && SameData(p, q)
    && (q.log.uis == if k == UI && f.info != [] then p.log.uis + [f.info] else p.log.uis)
    && (k == SABM || k == SNRM ==> Established(p, q) && Enqueued(s, t, Response(p, UA)))
    && (k == UI ==> q == p.(kaConfirmed := true, log := q.log) && q.log.links == p.log.links && t == s)
    && (down && k != SABM && k != SNRM && k != UI ==>
          Unmoved(p, q) && if f.command then Enqueued(s, t, Response(p, DM)) else t == s)
    && (!down ==>
          && (k == DISC ==> Dropped(p, q) && Enqueued(s, t, Response(p, UA)))
          && (k == DM ==> Dropped(p, q) && t == s)
          && (k == UA ==>
                && t == s
                && (p.state == Disconnecting ==> Dropped(p, q))
                && (p.state == Connecting ==> Established(p, q))
                && (p.state == Connected ==> Unmoved(p, q)))
          && (k == FRMR ==>
                && q.state == Connecting && q.log.links == p.log.links + [false] && ZeroCounters(q) && !q.canAccept
                && Enqueued(s, t, UFrame(p.station, true, if mode == NRM then SNRM else SABM, false, [])))
          && (k == RSET ==>
                && q.state == p.state && q.log.links == p.log.links && ZeroCounters(q)
                && Enqueued(s, t, Response(p, UA)))
          && (k.Unknown? ==> Unmoved(p, q) && t == s))
  }

  /** The two switches, wherever they are called. */
  lemma Switches(l: Link)
    ensures var r := SwitchDisconnected(l);
            && SameId(l.peer, r.peer) && r.peer.kaConfirmed == l.peer.kaConfirmed && r.sq == l.sq
            && SameData(l.peer, r.peer) && r.peer.log.uis == l.peer.log.uis
            && if l.peer.state == Disconnected then r == l else Dropped(l.peer, r.peer)
    ensures var r := SwitchConnected(l);
            && SameId(l.peer, r.peer) && r.peer.kaConfirmed == l.peer.kaConfirmed && r.sq == l.sq
            && SameData(l.peer, r.peer) && r.peer.log.uis == l.peer.log.uis
            && if l.peer.state == Connected then r == l
               else
                 && r.peer.state == Connected && r.peer.log.links == l.peer.log.links + [true] && ZeroCounters(r.peer)
                 && r.peer.canAccept
  {
  }

  lemma SetupAnswered(c: Config, l: Link, f: Frame)
    requires f.UFrame? && (f.ukind == SABM || f.ukind == SNRM)
    ensures var r := OnRead(c, l, f); UnnumberedTable(c.mode, l.peer, r.peer, l.sq, r.sq, f) && Heard(l.peer, r.peer)
  {
    hide Enqueued;
    hide Allocate;
    hide SwitchConnected;
    hide SwitchDisconnected;
    var p, m := l.peer, SendU(l.(peer := l.peer.(kaConfirmed := true)), false, UA);
    AllocateEnqueues(l.sq, UnnumberedSlot, Response(p, UA));
    Switches(m);
    Switches(SwitchDisconnected(m));
    assert p.log.links + [false] + [true] == p.log.links + [false, true];
  }

  lemma EndAnswered(c: Config, l: Link, f: Frame)
    requires f.UFrame? && l.peer.state != Disconnected && (f.ukind == DISC || f.ukind == DM || f.ukind == FRMR)
    ensures var r := OnRead(c, l, f); UnnumberedTable(c.mode, l.peer, r.peer, l.sq, r.sq, f) && Heard(l.peer, r.peer)
  {
    hide Enqueued;
    hide Allocate;
    hide SwitchConnected;
    hide SwitchDisconnected;
    var p, m := l.peer, l.(peer := l.peer.(kaConfirmed := true));
    AllocateEnqueues(l.sq, UnnumberedSlot, Response(p, UA));
    AllocateEnqueues(l.sq, UnnumberedSlot, UFrame(p.station, true, if c.mode == NRM then SNRM else SABM, false, []));
    Switches(m);
    Switches(SendU(m, false, UA));
  }

  lemma UpAnswered(c: Config, l: Link, f: Frame)
    requires f.UFrame? && l.peer.state != Disconnected && f.ukind != SABM && f.ukind != SNRM
    requires f.ukind != DISC && f.ukind != DM && f.ukind != FRMR
    ensures var r := OnRead(c, l, f); UnnumberedTable(c.mode, l.peer, r.peer, l.sq, r.sq, f) && Heard(l.peer, r.peer)
  {
    hide Enqueued;
    hide Allocate;
    hide SwitchConnected;
    hide SwitchDisconnected;
    AllocateEnqueues(l.sq, UnnumberedSlot, Response(l.peer, UA));
    Switches(l.(peer := l.peer.(kaConfirmed := true)));
  }

  lemma DownAnswered(c: Config, l: Link, f: Frame)
    requires f.UFrame? && l.peer.state == Disconnected && f.ukind != SABM && f.ukind != SNRM
    ensures var r := OnRead(c, l, f); UnnumberedTable(c.mode, l.peer, r.peer, l.sq, r.sq, f) && Heard(l.peer, r.peer)
  {
    hide Enqueued;
    hide Allocate;
    AllocateEnqueues(l.sq, UnnumberedSlot, Response(l.peer, DM));
  }

  // ------------------------------------------------------------------ a whole station

  /** What any frame does to the peer it comes from; without a connection, I- and S-frames are answered by DM. */
  ghost predicate Answered(mode: Mode, p: Peer, q: Peer, s: Queue, t: Queue, f: Frame) {
    && Heard(p, q)
    && if f.UFrame? then UnnumberedTable(mode, p, q, s, t, f)
       else if !Up(p) then Unmoved(p, q) && Enqueued(s, t, Response(p, DM))
       else if f.IFrame? then InfoTable(p, q, s, t, f)
       else SupervisoryTable(p, q, s, t, f)
  }

  lemma LinkAnswered(c: Config, l: Link, f: Frame)
    ensures Answered(c.mode, l.peer, OnRead(c, l, f).peer, l.sq, OnRead(c, l, f).sq, f)
  {
    if f.UFrame? {
      hide OnRead;
      hide UnnumberedTable;
      if f.ukind == SABM || f.ukind == SNRM {
        SetupAnswered(c, l, f);
      } else if l.peer.state == Disconnected {
        DownAnswered(c, l, f);
      } else if f.ukind == DISC || f.ukind == DM || f.ukind == FRMR {
        EndAnswered(c, l, f);
      } else {
        UpAnswered(c, l, f);
      }
    } else if Up(l.peer) {
      hide OnRead;
      if f.IFrame? { InfoAnswered(c, l, f); } else { SupervisoryAnswered(c, l, f); }
    } else {
      AllocateEnqueues(l.sq, UnnumberedSlot, Response(l.peer, DM));
    }
  }

  /** A frame read by a station is answered by the peer whose address it carries, and concerns no other. */
  lemma ReadAnswers(h: Handle, i: nat, f: Frame)
    requires Wf(h) && Owner(h, i, f.station)
    ensures var r := Read(h, f);
            && OnlyPeer(h, r, i)
            && Answered(h.config.mode, h.peers[i], r.peers[i], h.sq, r.sq, f)
  {
    hide OnRead;
    hide Answered;
    OwnerFound(h, i, f.station);
    LinkAnswered(h.config, View(h, i), f);
    BackOnly(h, i, OnRead(h.config, View(h, i), f));
  }

  /** A frame for an address nobody owns is not heard. */
  lemma ReadIgnores(h: Handle, f: Frame)
    requires Wf(h) && PlainAddress(f.station) && Unowned(h, f.station)
    ensures Read(h, f) == h
  {
    UnownedMissed(h, f.station);
  }

  // ------------------------------------------------------------------ what the application asks for

  /** Hanging up queues DISC as a command and waits for the answer, or does nothing when no slot is free. */
  lemma HangupQueues(h: Handle)
    requires Wf(h)
    ensures var r := Leave(h); var p := h.peers[0];
            && OnlyPeer(h, r, 0)
            && r.peers[0] == (if AnyFree(h.sq) then p.(state := Disconnecting) else p)
            && Enqueued(h.sq, r.sq, UFrame(p.station, true, DISC, false, []))
  {
    hide Enqueued;
    hide Allocate;
    AllocateEnqueues(h.sq, UnnumberedSlot, UFrame(h.peers[0].station, true, DISC, false, []));
    BackOnly(h, 0, Disconnect(View(h, 0)));
  }

  /** UI data is queued as it is, as a response, and nothing else happens. */
  lemma UiQueues(l: Link, data: seq<byte>)
    ensures var r := PutUi(l, data);
            && r.peer == l.peer && r.iq == l.iq && r.hasFree == l.hasFree
            && Enqueued(l.sq, r.sq, UFrame(l.peer.station, false, UI, false, data))
  {
    AllocateEnqueues(l.sq, UnnumberedSlot, UFrame(l.peer.station, false, UI, false, data));
  }

  /** The first connection: a primary that has waited long enough sends the request of its mode, any other nothing. */
  lemma RequestQueued(c: Config, l: Link, retryDue: bool, silent: bool, quiet: bool)
    requires !Up(l.peer)
    ensures var r := Idle(c, l, retryDue, silent, quiet);
            if c.primary && retryDue then
              && r.peer == l.peer.(state := Connecting)
              && Enqueued(l.sq, r.sq, UFrame(l.peer.station, true, if c.mode == NRM then SNRM else SABM, false, []))
            else r == l
  {
    hide Enqueued;
    hide Allocate;
    AllocateEnqueues(l.sq, UnnumberedSlot,
                     UFrame(l.peer.station, true, if c.mode == NRM then SNRM else SABM, false, []));
  }
}
