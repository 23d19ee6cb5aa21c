/**
 * The two events that let the application in, FD_EVENT_CAN_ACCEPT_I_FRAMES of a peer and FD_EVENT_QUEUE_HAS_FREE_SLOTS:
 * over every run without RSET, when each of them is set, and so which packets are accepted.
 */
module Flags {
  import opened Frames
  import opened FramesQueue
  import opened InfoStore
  import opened Station
  import opened Handle
  import opened Window
  import opened Bookkeeping
  import opened Books
  import opened Replies
  import opened Sending
  import opened Serving
  import opened KeepAlive

  /** The last connect event the application has seen was "connected". */
  predicate Told(p: Peer) { p.log.links != [] && p.log.links[|p.log.links| - 1] }

  // ------------------------------------------------------------------ the window of a peer

  /**
   * Packets are let in while the window is open, from "connected" to "disconnected". A peer that is disconnecting
   * without having been connected takes none until an I- or S-frame has come from it (`woken`).
   */
  predicate Gate(p: Peer, woken: bool) {
    && (p.state == Connected ==> Told(p)) && (Told(p) ==> Up(p)) && (woken ==> Up(p) && !Told(p))
    && (p.canAccept <==> (Told(p) || woken) && Size(p) < 7)
    && (!Told(p) && !woken ==> Size(p) == 0)
  }

  /** What an I- or S-frame to a peer that is up changes of `woken`. */
  predicate NowWoken(p: Peer, q: Peer, heard: bool, woken: bool) {
    Up(q) && !Told(q) && (woken || (heard && Up(p)))
  }

  /** The gate stays what it is while its ends do. */
  predicate SameGate(p: Peer, q: Peer) {
    && q.state == p.state && q.log.links == p.log.links && q.canAccept == p.canAccept
    && q.confirm == p.confirm && q.last == p.last
  }

  lemma {:induction false} ConfirmShrinks(c: Config, l: Link, nr: Seq8)
    ensures var q := ConfirmUpTo(c, l, nr).peer;
            && Size(q) <= Size(l.peer) && q.state == l.peer.state && q.log.links == l.peer.log.links
            && q.canAccept == l.peer.canAccept
    decreases Ahead(nr, l.peer.confirm)
  {
    if nr != l.peer.confirm && l.peer.confirm != l.peer.last {
      StepDown(nr, l.peer.confirm);
      StepDown(l.peer.last, l.peer.confirm);
      ConfirmShrinks(c, ConfirmOne(c, l), nr);
    }
  }

  lemma ConfirmGate(c: Config, l: Link, nr: Seq8, woken: bool)
    requires Gate(l.peer, woken) && Up(l.peer)
    ensures var q := Confirm(c, l, nr).peer; Gate(q, NowWoken(l.peer, q, true, woken))
  {
    ConfirmShrinks(c, l, nr);
    FullWindow(ConfirmUpTo(c, l, nr).peer);
  }

  lemma SameGateKeeps(p: Peer, q: Peer, woken: bool)
    requires SameGate(p, q)
    ensures Gate(p, woken) ==> Gate(q, woken)
  {
  }

  lemma GateMoves(p: Peer, m: Peer, q: Peer, woken: bool)
    requires Gate(m, NowWoken(p, m, true, woken)) && SameGate(m, q)
    ensures Gate(q, NowWoken(p, q, true, woken))
  {
  }

  lemma {:induction false} RewindSameGate(l: Link, control: byte, nr: Seq8)
    ensures SameGate(l.peer, Rewind(l, control, nr).peer)
    decreases Ahead(l.peer.next, nr)
  {
    if l.peer.next != nr && l.peer.confirm != l.peer.next {
      StepDown(l.peer.next, nr);
      RewindSameGate(l.(peer := l.peer.(next := Dec(l.peer.next))), control, nr);
    }
  }

  lemma InfoGate(c: Config, l: Link, f: Frame, woken: bool)
    requires Gate(l.peer, woken) && Up(l.peer) && f.IFrame?
    ensures var q := OnIFrame(c, l, f).peer; Gate(q, NowWoken(l.peer, q, true, woken))
  {
    hide Gate;
    hide Confirm;
    hide Size;
    var m := CheckReceived(l, f.ns);
    SameGateKeeps(l.peer, m.peer, woken);
    ConfirmGate(c, m, f.nr, woken);
    GateMoves(m.peer, Confirm(c, m, f.nr).peer, OnIFrame(c, l, f).peer, woken);
  }

  lemma SupervisoryGate(c: Config, l: Link, f: Frame, woken: bool)
    requires Gate(l.peer, woken) && Up(l.peer) && f.SFrame?
    ensures var q := OnSFrame(c, l, f).peer; Gate(q, NowWoken(l.peer, q, true, woken))
  {
    hide Gate;
    hide Confirm;
    hide Rewind;
    ConfirmGate(c, l, f.nr, woken);
    var r := Confirm(c, l, f.nr);
    RewindSameGate(r, Control(f), f.nr);
    GateMoves(l.peer, r.peer, OnSFrame(c, l, f).peer, woken);
  }

  lemma DataGate(c: Config, l: Link, f: Frame, woken: bool)
    requires Gate(l.peer, woken) && Up(l.peer) && !f.UFrame?
    ensures var q := OnRead(c, l, f).peer; Gate(q, NowWoken(l.peer, q, true, woken))
  {
    hide OnIFrame;
    hide OnSFrame;
    var m := l.(peer := l.peer.(kaConfirmed := true));
    if f.IFrame? { InfoGate(c, m, f, woken); } else { SupervisoryGate(c, m, f, woken); }
  }

  lemma UnnumberedGate(c: Config, l: Link, f: Frame, woken: bool)
    requires Gate(l.peer, woken) && f.UFrame? && f.ukind != RSET
    ensures var q := OnRead(c, l, f).peer; Gate(q, NowWoken(l.peer, q, false, woken))
  {
    hide Enqueued;
    LinkAnswered(c, l, f);
    hide OnRead;
  }

  lemma RefusedGate(c: Config, l: Link, f: Frame, woken: bool)
    requires Gate(l.peer, woken) && !f.UFrame? && !Up(l.peer)
    ensures var q := OnRead(c, l, f).peer; Gate(q, NowWoken(l.peer, q, true, woken))
  {
  }

  lemma PutGate(l: Link, data: seq<byte>, woken: bool)
    requires Gate(l.peer, woken)
    ensures var q := Put(l, data).0.peer; Gate(q, NowWoken(l.peer, q, false, woken))
  {
    var r := PutInfo(l, data);
    FullWindow(r.peer);
    FullWindow(l.peer);
  }

  lemma IdleGate(c: Config, l: Link, retryDue: bool, silent: bool, quiet: bool, woken: bool)
    requires Gate(l.peer, woken)
    ensures var q := Idle(c, l, retryDue, silent, quiet).peer; Gate(q, NowWoken(l.peer, q, false, woken))
  {
    hide Enqueued;
    if Up(l.peer) {
      CheckExact(c, l, retryDue, silent, quiet);
      hide Idle;
    }
  }

  lemma HangupGate(l: Link, woken: bool)
    requires Gate(l.peer, woken)
    ensures var q := Disconnect(l).peer; Gate(q, NowWoken(l.peer, q, false, woken))
    ensures var q := PutUi(l, []).peer; q == l.peer
  {
  }

  /** An I- or S-frame for peer `i` arrives. */
  predicate DataArrives(h: Handle, e: Event, i: nat)
    requires Wf(h)
  {
    Arrives(h, e, i) && !e.frame.UFrame?
  }

  /** Whether peer `i`, disconnecting without having been connected, has sent an I- or S-frame since. */
  predicate Woken(h: Handle, events: seq<Event>, i: nat, woken: bool)
    requires Wf(h) && i < |h.peers|
    decreases |events|
  {
    if events == [] then woken
    else
      var e := events[0];
      var heard := DataArrives(h, e, i);
      Woken(Step(h, e), events[1..], i, NowWoken(h.peers[i], Step(h, e).peers[i], heard, woken))
  }

  lemma StepGate(h: Handle, e: Event, i: nat, woken: bool)
    requires Wf(h) && i < |h.peers| && Gate(h.peers[i], woken) && NoReset(e)
    ensures var heard, q := DataArrives(h, e, i), Step(h, e).peers[i];
            Gate(q, NowWoken(h.peers[i], q, heard, woken))
  {
    hide OnRead;
    hide Put;
    hide PutUi;
    hide Idle;
    hide NextFrame;
    hide Disconnect;
    hide AddressToPeer;
    hide Step;
    StepServes(h, e);
    if Served(h, e) == Some(i) {
      var l := View(h, i);
      HangupGate(l, woken);
      match e
      case Incoming(f) =>
        if f.UFrame? {
          UnnumberedGate(h.config, l, f, woken);
        } else if Up(l.peer) {
          DataGate(h.config, l, f, woken);
        } else {
          RefusedGate(h.config, l, f, woken);
        }
      case Timeout(_, retryDue, silent, quiet) => IdleGate(h.config, l, retryDue, silent, quiet, woken);
      case Start => NextSentOnly(h.config, l);
      case Packet(_, data) => PutGate(l, data, woken);
      case UiPacket(_, data) => UiGate(l, data);
      case Hangup =>
    }
  }

  lemma UiGate(l: Link, data: seq<byte>)
    ensures PutUi(l, data).peer == l.peer
  {
  }

  lemma {:induction false} RunGate(h: Handle, events: seq<Event>, i: nat, woken: bool)
    requires Wf(h) && i < |h.peers| && Gate(h.peers[i], woken) && forall e | e in events :: NoReset(e)
    ensures Gate(Steps(h, events).peers[i], Woken(h, events, i, woken))
    decreases |events|
  {
    hide Gate;
    hide NowWoken;
    hide DataArrives;
    if events != [] {
      assert events[0] in events && forall e | e in events[1..] :: e in events;
      StepGate(h, events[0], i, woken);
      var heard := DataArrives(h, events[0], i);
      RunGate(Step(h, events[0]), events[1..], i, NowWoken(h.peers[i], Step(h, events[0]).peers[i], heard, woken));
    }
  }

  /**
   * Over every run without RSET from a fresh station: a connected peer takes packets exactly while its window of seven
   * is open. For one that is disconnecting this holds if and only if the application was told of the connection, or an
   * I- or S-frame has come from the peer since; and a peer that is not up takes none.
   */
  lemma WindowFlag(h: Handle, events: seq<Event>, i: nat)
    requires Initial(h) && i < |h.peers| && forall e | e in events :: NoReset(e)
    ensures var p := Steps(h, events).peers[i];
            && (p.state == Connected ==> (p.canAccept <==> Size(p) < 7))
            && (Up(p) ==> ((p.canAccept <==> Size(p) < 7) <==> Told(p) || Woken(h, events, i, false)))
            && (!Up(p) ==> !p.canAccept)
  {
    assert FreshPeer(h.peers[i], h.config);
    RunGate(h, events, i, false);
  }

  /** The exception exists: hung up before it was ever connected, a peer is up with an open window and takes nothing. */
  lemma HangupFirst(h: Handle)
    requires Initial(h)
    ensures var p := Step(h, Hangup).peers[0]; Up(p) && Size(p) == 0 && !p.canAccept
  {
    assert FreshPeer(h.peers[0], h.config);
    FindFinds(h.sq, {FreeSlot}, 0, 0);
    assert Matches(h.sq.slots[0], {FreeSlot}, 0, 0);
  }

  // ------------------------------------------------------------------ the free slots

  /** The flag is set exactly while a slot is free, unless slots were freed behind its back (`hidden`). */
  predicate Stock(l: Link, hidden: bool) {
    (l.hasFree <==> AnyFree(l.iq) && !hidden) && (hidden ==> AnyFree(l.iq))
  }

  /**
   * A disconnection that frees slots of a full table hides them; a confirmation, or the next connection of any peer,
   * brings them to light.
   */
  predicate NowHidden(l: Link, r: Link, hidden: bool) {
    var p, q := l.peer.log, r.peer.log;
    if |q.confirmed| > |p.confirmed| || (|q.links| > |p.links| && Told(r.peer)) then false
    else if |q.links| > |p.links| && !AnyFree(l.iq) then AnyFree(r.iq)
    else hidden
  }

  /** The table and what was reported are as they were. */
  predicate SameStock(l: Link, r: Link) {
    && r.iq == l.iq && r.hasFree == l.hasFree
    && r.peer.log.confirmed == l.peer.log.confirmed && r.peer.log.links == l.peer.log.links
  }

  lemma {:induction false} ConfirmStock(c: Config, l: Link, w: seq<seq<byte>>, nr: Seq8)
    requires Held(l, w)
    ensures var r := ConfirmUpTo(c, l, nr);
            && r.peer.log.links == l.peer.log.links
            && if nr == l.peer.confirm || w == [] then r == l
               else r.hasFree && AnyFree(r.iq) && |r.peer.log.confirmed| > |l.peer.log.confirmed|
    decreases |w|
  {
    HeldSize(l, w);
    if nr != l.peer.confirm && w != [] {
      var i := PopHolds(l.iq, l.peer.station, l.peer.confirm, w);
      FreeShows(l.iq, i);
      var m := ConfirmOne(c, l);
      ConfirmedOnce(c, l, w);
      ConfirmStock(c, m, w[1..], nr);
    }
  }

  lemma SameStockKeeps(l: Link, r: Link, hidden: bool)
    requires Stock(l, hidden) && SameStock(l, r)
    ensures Stock(r, NowHidden(l, r, hidden))
  {
  }

  lemma ConfirmStocked(c: Config, l: Link, nr: Seq8, hidden: bool)
    requires Booked(l) && Stock(l, hidden)
    ensures var r := Confirm(c, l, nr); Stock(r, NowHidden(l, r, hidden)) && r.peer.log.links == l.peer.log.links
  {
    ConfirmStock(c, l, Contents(l), nr);
  }

  lemma {:induction false} RewindSameStock(l: Link, control: byte, nr: Seq8)
    ensures SameStock(l, Rewind(l, control, nr))
    decreases Ahead(l.peer.next, nr)
  {
    if l.peer.next != nr && l.peer.confirm != l.peer.next {
      StepDown(l.peer.next, nr);
      RewindSameStock(l.(peer := l.peer.(next := Dec(l.peer.next))), control, nr);
    }
  }

  /** A step that touches nothing of the stock before or after one that does. */
  lemma Around3(l: Link, m: Link, n: Link, r: Link, hidden: bool)
    requires SameStock(l, m) && SameStock(n, r) && Stock(n, NowHidden(m, n, hidden))
             && n.peer.log.links == m.peer.log.links
    ensures Stock(r, NowHidden(l, r, hidden))
  {
  }

  lemma InfoStocked(c: Config, l: Link, f: Frame, hidden: bool)
    requires Booked(l) && Stock(l, hidden) && f.IFrame?
    ensures var r := OnIFrame(c, l, f); Stock(r, NowHidden(l, r, hidden))
  {
    hide Confirm;
    hide AnyFree;
    var m := CheckReceived(l, f.ns);
    assert Booked(m);
    hide Booked;
    ConfirmStocked(c, m, f.nr, hidden);
    Around3(l, m, Confirm(c, m, f.nr), OnIFrame(c, l, f), hidden);
  }

  lemma SupervisoryStocked(c: Config, l: Link, f: Frame, hidden: bool)
    requires Booked(l) && Stock(l, hidden) && f.SFrame?
    ensures var r := OnSFrame(c, l, f); Stock(r, NowHidden(l, r, hidden))
  {
    hide Confirm;
    hide AnyFree;
    hide Rewind;
    hide Booked;
    ConfirmStocked(c, l, f.nr, hidden);
    var r := Confirm(c, l, f.nr);
    RewindSameStock(r, Control(f), f.nr);
    Around3(l, l, r, OnSFrame(c, l, f), hidden);
  }

  /** Flushing an address frees slots and takes none. */
  lemma FlushFrees(q: Queue, station: byte)
    ensures AnyFree(q) ==> AnyFree(ResetFor(q, station))
  {
    FindFinds(ResetFor(q, station), {FreeSlot}, 0, 0);
    if AnyFree(q) {
      var i := Find(q, {FreeSlot}, 0, 0).value;
      assert Matches(ResetFor(q, station).slots[i], {FreeSlot}, 0, 0);
    }
  }

  lemma DropStocked(l: Link, r: Link, hidden: bool)
    requires Stock(l, hidden) && r.iq == ResetFor(l.iq, l.peer.station) && r.hasFree == l.hasFree
    requires r.peer.log.confirmed == l.peer.log.confirmed && r.peer.log.links == l.peer.log.links + [false]
    ensures Stock(r, NowHidden(l, r, hidden))
  {
    FlushFrees(l.iq, l.peer.station);
  }

  lemma ConnectStocked(l: Link, q: Queue, r: Link, hidden: bool)
    requires Stock(l, hidden) && (AnyFree(l.iq) ==> AnyFree(q)) && r.iq == q && r.hasFree == (l.hasFree || AnyFree(q))
    requires |r.peer.log.links| > |l.peer.log.links| && Told(r.peer)
    ensures Stock(r, NowHidden(l, r, hidden))
  {
  }

  lemma SetupStocked(l: Link, hidden: bool)
    requires Stock(l, hidden)
    ensures var r := OnSetup(l); Stock(r, NowHidden(l, r, hidden))
  {
    hide Stock;
    hide NowHidden;
    hide AnyFree;
    hide ResetFor;
    var station, r := l.peer.station, OnSetup(l);
    FlushFrees(l.iq, station);
    FlushFrees(ResetFor(l.iq, station), station);
    var q := if Up(l.peer) then ResetFor(ResetFor(l.iq, station), station) else ResetFor(l.iq, station);
    ConnectStocked(l, q, r, hidden);
  }

  /** The U-frames that end a connection. */
  predicate Ends(p: Peer, k: UKind) {
    p.state != Disconnected && (k == DISC || k == DM || k == FRMR || (k == UA && p.state == Disconnecting))
  }

  lemma EndStocked(c: Config, l: Link, f: Frame, hidden: bool)
    requires Stock(l, hidden) && f.UFrame? && Ends(l.peer, f.ukind)
    ensures var r := OnUFrame(c, l, f); Stock(r, NowHidden(l, r, hidden))
  {
    hide AnyFree;
    hide ResetFor;
    hide Allocate;
    hide Stock;
    hide NowHidden;
    DropStocked(l, OnUFrame(c, l, f), hidden);
  }

  lemma UnnumberedStocked(c: Config, l: Link, f: Frame, hidden: bool)
    requires Stock(l, hidden) && f.UFrame?
    ensures var r := OnUFrame(c, l, f); Stock(r, NowHidden(l, r, hidden))
  {
    hide AnyFree;
    hide ResetFor;
    hide Allocate;
    hide Stock;
    hide NowHidden;
    hide OnSetup;
    var r := OnUFrame(c, l, f);
    if f.ukind == SABM || f.ukind == SNRM {
      SetupStocked(l, hidden);
    } else if l.peer.state == Connecting && f.ukind == UA {
      FlushFrees(l.iq, l.peer.station);
      ConnectStocked(l, ResetFor(l.iq, l.peer.station), r, hidden);
    } else if Ends(l.peer, f.ukind) {
      EndStocked(c, l, f, hidden);
    } else {
      SameStockKeeps(l, r, hidden);
    }
  }

  lemma ReadStocked(c: Config, l: Link, f: Frame, hidden: bool)
    requires Booked(l) && Stock(l, hidden)
    ensures var r := OnRead(c, l, f); Stock(r, NowHidden(l, r, hidden))
  {
    hide OnUFrame;
    hide OnIFrame;
    hide OnSFrame;
    hide AnyFree;
    var m := l.(peer := l.peer.(kaConfirmed := true));
    assert Booked(m);
    hide Booked;
    if f.UFrame? {
      UnnumberedStocked(c, m, f, hidden);
    } else if Up(l.peer) {
      if f.IFrame? { InfoStocked(c, m, f, hidden); } else { SupervisoryStocked(c, m, f, hidden); }
    }
  }

  /** What a put answers, by the flags it looks at and the room there is. */
  lemma PutStocked(l: Link, data: seq<byte>, hidden: bool)
    requires Sane(l) && Stock(l, hidden)
    ensures var r := Put(l, data).0; Stock(r, NowHidden(l, r, hidden))
    ensures Put(l, data).1 == if |data| > l.iq.mtu then TooLarge
                              else if l.peer.canAccept && AnyFree(l.iq) && !hidden then Success else PutResult.Timeout
  {
  }

  lemma IdleStocked(c: Config, l: Link, retryDue: bool, silent: bool, quiet: bool, hidden: bool)
    requires Stock(l, hidden)
    ensures var r := Idle(c, l, retryDue, silent, quiet); Stock(r, NowHidden(l, r, hidden))
  {
    hide AnyFree;
    hide ResetFor;
    hide Allocate;
    hide Stock;
    hide NowHidden;
    hide Rewind;
    var p, r := l.peer, Idle(c, l, retryDue, silent, quiet);
    var drops := Up(p) && if RetryNow(p, retryDue) then p.retries == 0 else silent && !p.kaConfirmed;
    if drops {
      DropStocked(l, r, hidden);
    } else {
      if p.retries > 0 { RewindSameStock(l.(peer := p.(retries := p.retries - 1)), 0, p.confirm); }
      SameStockKeeps(l, r, hidden);
    }
  }

  lemma RewriteFree(q: Queue, i: nat, f: Frame)
    requires i < |q.slots|
    ensures AnyFree(Rewrite(q, i, f)) <==> AnyFree(q)
  {
    FindFinds(q, {FreeSlot}, 0, 0);
    FindFinds(Rewrite(q, i, f), {FreeSlot}, 0, 0);
    forall j | 0 <= j < |q.slots|
      ensures Matches(Rewrite(q, i, f).slots[j], {FreeSlot}, 0, 0) <==> Matches(q.slots[j], {FreeSlot}, 0, 0)
    {
    }
  }

  /** An emission rewrites headers and no more. */
  predicate SameRoom(l: Link, r: Link) {
    && (AnyFree(r.iq) <==> AnyFree(l.iq)) && r.hasFree == l.hasFree
    && r.peer.log.confirmed == l.peer.log.confirmed && r.peer.log.links == l.peer.log.links
  }

  lemma StoredRoom(l: Link, i: nat)
    requires i < |l.iq.slots|
    ensures SameRoom(l, SendStored(l, i))
  {
    RewriteFree(l.iq, i, Refreshed(l.iq.slots[i].frame, l.peer.nextNr));
  }

  lemma InfoRoom(l: Link)
    ensures SameRoom(l, NextInfo(l).0)
  {
    hide Find;
    hide Lowest;
    hide AnyFree;
    hide SendStored;
    var (r, out) := NextInfo(l);
    if out.Info? {
      var p := l.peer;
      StoredRoom(l.(peer := p.(next := Inc(p.next))), out.slot);
      StoredRoom(l.(peer := p.(srej := p.srej - {Lowest(p.srej, 0)})), out.slot);
    }
  }

  lemma ServiceRoom(c: Config, l: Link)
    ensures SameRoom(l, NextService(l).0) && SameRoom(l, Filler(c, l))
  {
    hide AnyFree;
  }

  lemma PollRoom(c: Config, l: Link, out: Outgoing)
    requires InTables(l, out)
    ensures SameRoom(l, PollSet(c, l, out))
  {
    if out.Info? { RewriteFree(l.iq, out.slot, WithPoll(FrameAt(l, out))); }
  }

  lemma NextRoom(c: Config, l: Link)
    ensures SameRoom(l, NextFrame(c, l).0)
  {
    hide NextService;
    hide NextInfo;
    hide Filler;
    hide PollSet;
    hide AnyFree;
    var l1 := NextService(l).0;
    var l2 := NextInfo(l1).0;
    ServiceRoom(c, l);
    InfoRoom(l1);
    ServiceRoom(c, l2);
    ServiceRoom(c, Filler(c, l2));
    var (m, out) := Picked(c, l);
    assert SameRoom(l, m);
    PickedTables(c, l);
    PollRoom(c, m, out);
  }

  // ------------------------------------------------------------------ runs

  /** Whether slots are free that the flag does not show. */
  predicate Hidden(h: Handle, events: seq<Event>, hidden: bool)
    requires Wf(h)
    decreases |events|
  {
    if events == [] then hidden else Hidden(Step(h, events[0]), events[1..], StepHidden(h, events[0], hidden))
  }

  predicate StepHidden(h: Handle, e: Event, hidden: bool)
    requires Wf(h)
  {
    match Served(h, e)
    case None => hidden
    case Some(k) => NowHidden(View(h, k), View(Step(h, e), k), hidden)
  }

  predicate StockOf(h: Handle, hidden: bool) { (h.hasFree <==> AnyFree(h.iq) && !hidden) && (hidden ==> AnyFree(h.iq)) }

  lemma ServedInUse(h: Handle, e: Event)
    requires Balanced(h)
    ensures Served(h, e).Some? && !e.Hangup? ==> InUse(h, Served(h, e).value)
  {
    match e
    case Incoming(f) => PeerFound(h, f.station);
    case Packet(address, _) => PeerFound(h, AddressField(h, address));
    case UiPacket(address, _) => PeerFound(h, AddressField(h, address));
    case _ =>
  }

  lemma StepStock(h: Handle, e: Event, hidden: bool)
    requires Balanced(h) && StockOf(h, hidden) && NoReset(e)
    ensures StockOf(Step(h, e), StepHidden(h, e, hidden))
  {
    StepServes(h, e);
    ServedInUse(h, e);
    if Served(h, e).Some? {
      var k := Served(h, e).value;
      var l, r := View(h, k), View(Step(h, e), k);
      assert InUse(h, k) ==> Sane(l);
      ServeStock(h.config, l, r, e, hidden);
    }
  }

  lemma ServeStock(c: Config, l: Link, r: Link, e: Event, hidden: bool)
    requires (e.Hangup? || Sane(l)) && Stock(l, hidden) && Serves(c, l, r, e)
    ensures Stock(r, NowHidden(l, r, hidden))
  {
    hide OnRead;
    hide Put;
    hide PutUi;
    hide Idle;
    hide NextFrame;
    hide Disconnect;
    hide AnyFree;
    match e
    case Incoming(f) => ReadStocked(c, l, f, hidden);
    case Timeout(_, retryDue, silent, quiet) => IdleStocked(c, l, retryDue, silent, quiet, hidden);
    case Start => NextRoom(c, l);
    case Packet(_, data) => PutStocked(l, data, hidden);
    case UiPacket(_, data) => SameUi(l, data);
    case Hangup => SameUi(l, []);
  }

  lemma SameUi(l: Link, data: seq<byte>)
    ensures SameStock(l, PutUi(l, data)) && SameStock(l, Disconnect(l))
  {
  }

  lemma {:induction false} RunStock(h: Handle, events: seq<Event>, hidden: bool)
    requires Balanced(h) && StockOf(h, hidden) && forall e | e in events :: NoReset(e)
    ensures StockOf(Steps(h, events), Hidden(h, events, hidden))
    decreases |events|
  {
    hide Balanced;
    hide StockOf;
    hide StepHidden;
    hide Step;
    assert Wf(h) by { BalancedWf(h); }
    if events != [] {
      assert events[0] in events && forall e | e in events[1..] :: e in events;
      StepBalanced(h, events[0]);
      StepStock(h, events[0], hidden);
      RunStock(Step(h, events[0]), events[1..], StepHidden(h, events[0], hidden));
    }
  }

  lemma BalancedWf(h: Handle)
    requires Balanced(h)
    ensures Wf(h)
  {
  }

  lemma InitialStock(h: Handle)
    requires Initial(h)
    ensures StockOf(h, false)
  {
    FindFinds(h.iq, {FreeSlot}, 0, 0);
    assert Matches(h.iq.slots[0], {FreeSlot}, 0, 0);
  }

  /**
   * Over every run without RSET from a fresh station the event of free slots is set exactly while a slot is free,
   * unless a disconnection has freed slots of a full table and no frame has been confirmed and no peer connected
   * since.
   */
  lemma StockFlag(h: Handle, events: seq<Event>)
    requires Initial(h) && forall e | e in events :: NoReset(e)
    ensures var r := Steps(h, events); r.hasFree <==> AnyFree(r.iq) && !Hidden(h, events, false)
  {
    InitialBalanced(h);
    InitialStock(h);
    RunStock(h, events, false);
  }

  /**
   * So what a packet meets, at any point of such a run, without the flags: it is too large, or it is stored exactly
   * when the peer's window is open and a slot is free and known to be, or it times out.
   */
  lemma PacketAccepted(h: Handle, events: seq<Event>, i: nat, data: seq<byte>)
    requires Initial(h) && (forall e | e in events :: NoReset(e)) && InUse(Steps(h, events), i)
    ensures var l := View(Steps(h, events), i); var p := l.peer;
            Put(l, data).1 ==
            if |data| > l.iq.mtu then TooLarge
            else if (Told(p) || Woken(h, events, i, false)) && Size(p) < 7 && AnyFree(l.iq) && !Hidden(h, events, false)
            then Success else PutResult.Timeout
  {
    var r := Steps(h, events);
    assert Wf(h);
    InitialBalanced(h);
    RunBalanced(h, events);
    InitialStock(h);
    RunStock(h, events, false);
    assert Sane(View(r, i));
    PutStocked(View(r, i), data, Hidden(h, events, false));
    SameCount(h, events);
    assert FreshPeer(h.peers[i], h.config);
    RunGate(h, events, i, false);
  }

  lemma SameCount(h: Handle, events: seq<Event>)
    requires Wf(h)
    ensures |Steps(h, events).peers| == |h.peers|
  {
  }
}
