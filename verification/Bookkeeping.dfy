/**
 * For every peer of a station the I-frame slots under its address carry exactly the numbers `confirm..last-1`,
 * each once, whatever frames arrive, whatever the application does and whenever timeouts strike; a reset by RSET
 * is the one exception, and it keeps the books exactly when nothing is outstanding.
 */
module Bookkeeping {
  import opened Frames
  import opened FramesQueue
  import opened InfoStore
  import opened Station
  import opened Window

  /** Exactly the outstanding numbers are stored, each once. */
  ghost predicate Booked(l: Link) {
    && Store(l.iq) && Size(l.peer) < 8
    && forall n: Seq8 :: Stored(l.iq, l.peer.station, n).Some? <==> InWindow(l.peer, n)
  }

  /** Only a connected peer takes packets, and only while its window has room; else its counters are zero. */
  predicate Rules(p: Peer) {
    && (p.canAccept ==> Up(p) && !TxFull(p))
    && (!Up(p) ==> p.confirm == p.next == p.last == p.nextNr == 0)
  }

  ghost predicate Sane(l: Link) {
    Booked(l) && Rules(l.peer) && (l.hasFree ==> AnyFree(l.iq)) && |l.iq.slots| <= 7
  }

  /** A handler that leaves its peer sane and every other peer's frames alone. */
  ghost predicate Keeps(l: Link, r: Link) {
    && Sane(r) && r.peer.station == l.peer.station && r.peer.registered == l.peer.registered
    && OthersKept(l.iq, r.iq, l.peer.station)
  }

  // ------------------------------------------------------------------ payloads in order

  ghost function Contents(l: Link): (w: seq<seq<byte>>)
    requires Booked(l)
    ensures Held(l, w)
  {
    ContentsHeld(l);
    seq(Size(l.peer), k requires 0 <= k < Size(l.peer) => At(l, k))
  }

  ghost function At(l: Link, k: nat): seq<byte>
    requires k < 8
  {
    var s := Stored(l.iq, l.peer.station, Plus(l.peer.confirm, k));
    if s.Some? then s.value else []
  }

  lemma ContentsHeld(l: Link)
    requires Booked(l)
    ensures Held(l, seq(Size(l.peer), k requires 0 <= k < Size(l.peer) => At(l, k)))
  {
    forall n: Seq8
      ensures Plus(l.peer.confirm, Ahead(n, l.peer.confirm)) == n
    {
    }
  }

  lemma HeldBooked(l: Link, w: seq<seq<byte>>)
    requires Held(l, w)
    ensures Booked(l)
  {
    HeldSize(l, w);
  }

  // ------------------------------------------------------------------ the handlers

  /** Handlers that leave the I-frame table and the outer ends of the window alone. */
  lemma SameWindow(l: Link, r: Link)
    requires Sane(l) && r.iq == l.iq && r.hasFree == l.hasFree && Rules(r.peer)
    requires r.peer.station == l.peer.station && r.peer.registered == l.peer.registered
    requires r.peer.confirm == l.peer.confirm && r.peer.last == l.peer.last
    ensures Keeps(l, r)
  {
  }

  lemma Both(l: Link, m: Link, r: Link)
    requires Keeps(l, m) && Keeps(m, r)
    ensures Keeps(l, r)
  {
  }

  lemma FreeShows(q: Queue, i: nat)
    requires i < |q.slots|
    ensures AnyFree(FreeAt(q, i))
  {
    FindFinds(FreeAt(q, i), {FreeSlot}, 0, 0);
    assert Matches(FreeAt(q, i).slots[i], {FreeSlot}, 0, 0);
  }

  lemma {:induction false} ConfirmFree(c: Config, l: Link, nr: Seq8)
    requires l.hasFree ==> AnyFree(l.iq)
    ensures var r := ConfirmUpTo(c, l, nr); (r.hasFree ==> AnyFree(r.iq)) && r.peer.registered == l.peer.registered
    decreases Ahead(nr, l.peer.confirm)
  {
    if nr != l.peer.confirm && l.peer.confirm != l.peer.last {
      var found := Find(l.iq, INFO, l.peer.station, l.peer.confirm);
      if found.Some? { FreeShows(l.iq, found.value); }
      StepDown(nr, l.peer.confirm);
      ConfirmFree(c, ConfirmOne(c, l), nr);
    }
  }

  lemma FullWindow(p: Peer)
    ensures TxFull(p) <==> Size(p) == 7
  {
  }

  lemma WindowShrinks(last: Seq8, confirm: Seq8, d: nat)
    requires d <= Ahead(last, confirm)
    ensures Ahead(last, Plus(confirm, d)) == Ahead(last, confirm) - d
  {
  }

  lemma SettledWindow(c: Config, p: Peer, data: seq<seq<byte>>)
    requires |data| <= Size(p)
    ensures var q := Acknowledged(c, p, data);
            && Size(q) == Size(p) - |data|
            && q.station == p.station && q.registered == p.registered && q.canAccept == p.canAccept
                 && q.state == p.state
  {
    hide Ahead;
    hide Plus;
    WindowShrinks(p.last, p.confirm, |data|);
  }

  /** A smaller window leaves the rules standing, and may let the application in again. */
  lemma SettledRules(p: Peer, q: Peer)
    requires Rules(p) && Up(p) && q.state == p.state && q.canAccept == p.canAccept && Size(q) <= Size(p)
    ensures Rules(q.(canAccept := q.canAccept || !TxFull(q)))
  {
    hide TxFull;
    hide Size;
    var r := q.(canAccept := q.canAccept || !TxFull(q));
    FullWindow(p);
    FullWindow(q);
    FullWindow(r);
    SameSize(p, p);
    SameSize(q, r);
  }

  lemma SameSize(q: Peer, r: Peer)
    requires r.last == q.last && r.confirm == q.confirm
    ensures Size(r) == Size(q) <= 7
  {
  }

  lemma FromSettled(c: Config, l: Link, w: seq<seq<byte>>, m: Link, d: nat, r: Link)
    requires Sane(l) && Up(l.peer) && d <= |w| && Confirmed(c, l, m, w, d) && (m.hasFree ==> AnyFree(m.iq))
    requires r == m.(peer := m.peer.(canAccept := m.peer.canAccept || !TxFull(m.peer)))
    ensures Keeps(l, r)
  {
    hide Holds;
    hide Store;
    hide Stored;
    hide Acknowledged;
    hide Rules;
    HeldSize(l, w);
    HeldBooked(m, w[d..]);
    SettledWindow(c, l.peer, w[..d]);
    SettledRules(l.peer, m.peer);
    assert Booked(r);
  }

  lemma ConfirmSane(c: Config, l: Link, nr: Seq8)
    requires Sane(l) && Up(l.peer)
    ensures var r := Confirm(c, l, nr); Keeps(l, r) && Up(r.peer)
  {
    var w := Contents(l);
    ConfirmSettles(c, l, w, nr);
    ConfirmFree(c, l, nr);
    FromSettled(c, l, w, ConfirmUpTo(c, l, nr), Settled(|w|, l.peer.confirm, nr), Confirm(c, l, nr));
  }

  lemma {:induction false} RewindSane(l: Link, control: byte, nr: Seq8)
    requires Sane(l) && Up(l.peer)
    ensures Keeps(l, Rewind(l, control, nr))
    decreases Ahead(l.peer.next, nr)
  {
    var p := l.peer;
    if p.next == nr {
      SameWindow(l, l);
    } else if p.confirm == p.next {
      SameWindow(l, Rewind(l, control, nr));
    } else {
      var m := l.(peer := p.(next := Dec(p.next)));
      StepDown(p.next, nr);
      SameWindow(l, m);
      RewindSane(m, control, nr);
      Both(l, m, Rewind(m, control, nr));
    }
  }

  lemma DeliverSane(l: Link, data: seq<byte>)
    requires Sane(l) && Up(l.peer)
    ensures var d := Delivered(l, data); Keeps(l, d) && Keeps(l, SendS(d, false, RR, false))
  {
    var d := Delivered(l, data);
    SameWindow(l, d);
    SameWindow(l, SendS(d, false, RR, false));
  }

  lemma InfoSane(c: Config, l: Link, f: Frame)
    requires Sane(l) && Up(l.peer) && f.IFrame?
    ensures Keeps(l, OnIFrame(c, l, f))
  {
    var m := CheckReceived(l, f.ns);
    SameWindow(l, m);
    ConfirmSane(c, m, f.nr);
    var r := Confirm(c, m, f.nr);
    Both(l, m, r);
    DeliverSane(r, f.payload);
    var d := Delivered(r, f.payload);
    Both(l, r, d);
    Both(l, r, SendS(d, false, RR, false));
  }

  lemma SupervisorySane(c: Config, l: Link, f: Frame)
    requires Sane(l) && Up(l.peer) && f.SFrame?
    ensures Keeps(l, OnSFrame(c, l, f))
  {
    var m := Confirm(c, l, f.nr);
    ConfirmSane(c, l, f.nr);
    if f.kind == REJ {
      RewindSane(m, Control(f), f.nr);
    } else {
      SameWindow(m, OnSFrame(c, l, f));
    }
    Both(l, m, OnSFrame(c, l, f));
  }

  /** Flushing the peer's slots together with its counters. */
  lemma FlushSane(l: Link, r: Link)
    requires Sane(l) && r.iq == ResetFor(l.iq, l.peer.station) && Rules(r.peer)
    requires r.peer.station == l.peer.station && r.peer.registered == l.peer.registered
    requires r.peer.confirm == r.peer.last && r.hasFree == (l.hasFree || (r.hasFree && AnyFree(r.iq)))
    ensures Keeps(l, r)
  {
    FlushHolds(l.iq, l.peer.station, r.peer.confirm);
    HeldBooked(r, []);
    if l.hasFree {
      FindFinds(r.iq, {FreeSlot}, 0, 0);
      var i := Find(l.iq, {FreeSlot}, 0, 0).value;
      assert Matches(r.iq.slots[i], {FreeSlot}, 0, 0);
    }
  }

  lemma ConnectSane(l: Link)
    requires Sane(l)
    ensures Keeps(l, SwitchConnected(l))
  {
    if l.peer.state == Connected { SameWindow(l, l); } else { FlushSane(l, SwitchConnected(l)); }
  }

  lemma DisconnectSane(l: Link)
    requires Sane(l)
    ensures Keeps(l, SwitchDisconnected(l))
  {
    if l.peer.state == Disconnected { SameWindow(l, l); } else { FlushSane(l, SwitchDisconnected(l)); }
  }

  lemma SetupSane(l: Link)
    requires Sane(l)
    ensures Keeps(l, OnSetup(l))
  {
    var m := SendU(l, false, UA);
    SameWindow(l, m);
    DisconnectSane(m);
    var r := if Up(m.peer) then SwitchDisconnected(m) else m;
    Both(l, m, SwitchDisconnected(m));
    ConnectSane(r);
    Both(l, r, SwitchConnected(r));
  }

  lemma LeaveSane(l: Link)
    requires Sane(l)
    ensures Keeps(l, SwitchDisconnected(SendU(l, false, UA)))
  {
    var m := SendU(l, false, UA);
    SameWindow(l, m);
    DisconnectSane(m);
    Both(l, m, SwitchDisconnected(m));
  }

  lemma FrameRejectSane(c: Config, l: Link)
    requires Sane(l)
    ensures var r := SendU(SwitchDisconnected(l), true, SetupCommand(c));
            Keeps(l, r.(peer := r.peer.(state := Connecting)))
  {
    var m := SwitchDisconnected(l);
    var r := SendU(m, true, SetupCommand(c));
    DisconnectSane(l);
    SameWindow(m, r.(peer := r.peer.(state := Connecting)));
    Both(l, m, r.(peer := r.peer.(state := Connecting)));
  }

  lemma UnnumberedSane(c: Config, l: Link, f: Frame)
    requires Sane(l) && f.UFrame? && f.ukind != RSET
    ensures Keeps(l, OnUFrame(c, l, f))
  {
    SameWindow(l, l);
    if f.ukind == SABM || f.ukind == SNRM {
      SetupSane(l);
    } else if l.peer.state == Disconnected {
      SameWindow(l, OnUFrame(c, l, f));
    } else {
      match f.ukind
      case DISC => LeaveSane(l);
      case FRMR => FrameRejectSane(c, l);
      case UA =>
        ConnectSane(l);
        DisconnectSane(l);
      case DM => DisconnectSane(l);
      case UI => SameWindow(l, OnUFrame(c, l, f));
      case _ =>
    }
  }

  lemma ReadSane(c: Config, l: Link, f: Frame)
    requires Sane(l) && (f.UFrame? ==> f.ukind != RSET)
    ensures Keeps(l, OnRead(c, l, f))
  {
    var m := l.(peer := l.peer.(kaConfirmed := true));
    SameWindow(l, m);
    if f.UFrame? {
      UnnumberedSane(c, m, f);
    } else if !Up(m.peer) {
      SameWindow(m, SendU(m, false, DM));
    } else if f.IFrame? {
      InfoSane(c, m, f);
    } else {
      SupervisorySane(c, m, f);
    }
    Both(l, m, OnRead(c, l, f));
  }

  // ------------------------------------------------------------------ the application and the clock

  lemma RetrySane(l: Link, retries: nat)
    requires Sane(l) && Up(l.peer)
    ensures Keeps(l, Rewind(l.(peer := l.peer.(retries := retries)), 0, l.peer.confirm))
  {
    var m := l.(peer := l.peer.(retries := retries));
    SameWindow(l, m);
    RewindSane(m, 0, l.peer.confirm);
    Both(l, m, Rewind(m, 0, l.peer.confirm));
  }

  lemma IdleSane(c: Config, l: Link, retryDue: bool, silent: bool, quiet: bool)
    requires Sane(l)
    ensures Keeps(l, Idle(c, l, retryDue, silent, quiet))
  {
    var p := l.peer;
    if Up(p) && Unconfirmed(p) && AllSent(p) && retryDue {
      if p.retries > 0 { RetrySane(l, p.retries - 1); } else { DisconnectSane(l); }
    } else if Up(p) && silent {
      DisconnectSane(l);
      SameWindow(l, l);
    } else {
      SameWindow(l, Idle(c, l, retryDue, silent, quiet));
    }
  }

  lemma HangupSane(l: Link)
    requires Sane(l)
    ensures Keeps(l, Disconnect(l))
  {
    SameWindow(l, Disconnect(l));
  }

  // ------------------------------------------------------------------ transmission

  /** Rewriting a stored frame in place, as emission does. */
  lemma RewriteSane(l: Link, i: nat, f: Frame, r: Link)
    requires Sane(l) && i < |l.iq.slots| && l.iq.slots[i].kind == InfoSlot && f.IFrame?
    requires var g := l.iq.slots[i].frame; f.station == g.station && f.ns == g.ns && f.payload == g.payload
    requires r.iq == Rewrite(l.iq, i, f) && r.hasFree == l.hasFree && Rules(r.peer)
    requires r.peer.station == l.peer.station && r.peer.registered == l.peer.registered
    requires r.peer.confirm == l.peer.confirm && r.peer.last == l.peer.last
    ensures Keeps(l, r)
  {
    RewriteKeeps(l.iq, i, f);
    assert Booked(r);
    FindFinds(r.iq, {FreeSlot}, 0, 0);
    var free := Find(l.iq, {FreeSlot}, 0, 0);
    assert free.Some? ==> Matches(r.iq.slots[free.value], {FreeSlot}, 0, 0);
  }

  lemma NextInfoSane(l: Link)
    requires Sane(l)
    ensures var (r, out) := NextInfo(l);
            Keeps(l, r) && (out.Info? ==> out.slot < |r.iq.slots| && r.iq.slots[out.slot].kind == InfoSlot)
              && !out.Service?
  {
    var p := l.peer;
    var (r, out) := NextInfo(l);
    if out == Nothing {
      SameWindow(l, r);
    } else {
      RewriteSane(l, out.slot, Refreshed(l.iq.slots[out.slot].frame, p.nextNr), r);
    }
  }

  lemma FillerSane(c: Config, l: Link)
    requires Sane(l)
    ensures var (r, out) := NextService(Filler(c, l)); Keeps(l, r) && !out.Info?
  {
    SameWindow(l, NextService(Filler(c, l)).0);
  }

  lemma PickedSane(c: Config, l: Link)
    requires Sane(l)
    ensures var (r, out) := Picked(c, l);
            Keeps(l, r) && (out.Info? ==> out.slot < |r.iq.slots| && r.iq.slots[out.slot].kind == InfoSlot)
  {
    var (l1, out1) := NextService(l);
    SameWindow(l, l1);
    if out1 == Nothing {
      NextInfoSane(l1);
      var (l2, out2) := NextInfo(l1);
      Both(l, l1, l2);
      if out2 == Nothing && c.mode == NRM {
        FillerSane(c, l2);
        Both(l, l2, NextService(Filler(c, l2)).0);
      }
    }
  }

  lemma PollSane(c: Config, l: Link, out: Outgoing)
    requires Sane(l) && InTables(l, out) && (out.Info? ==> l.iq.slots[out.slot].kind == InfoSlot)
    ensures Keeps(l, PollSet(c, l, out))
  {
    if out.Info? && GetsPoll(c, l.peer, FrameAt(l, out)) {
      RewriteSane(l, out.slot, WithPoll(FrameAt(l, out)), PollSet(c, l, out));
    } else {
      SameWindow(l, PollSet(c, l, out));
    }
  }

  lemma NextSane(c: Config, l: Link)
    requires Sane(l)
    ensures Keeps(l, NextFrame(c, l).0)
  {
    PickedSane(c, l);
    var (m, out) := Picked(c, l);
    PollSane(c, m, out);
    Both(l, m, NextFrame(c, l).0);
  }
}
