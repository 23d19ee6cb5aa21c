/**
 * A service frame being transmitted: whatever goes on at the station meanwhile, it is released as it was started, and
 * no second transmission starts before.
 */
module InFlight {
  import opened Frames
  import opened FramesQueue
  import opened InfoStore
  import opened Station
  import opened Handle
  import opened Window
  import opened Addressing
  import opened Replies
  import opened Sending

  /** Slots in use are left as they are. */
  predicate BusyKept(q: Queue, r: Queue) {
    |r.slots| == |q.slots| && forall i | 0 <= i < |q.slots| && q.slots[i].kind != FreeSlot :: r.slots[i] == q.slots[i]
  }

  lemma AllocateKept(q: Queue, kind: Kind, f: Frame)
    ensures BusyKept(q, Allocate(q, kind, f))
  {
    FindFinds(q, {FreeSlot}, 0, 0);
  }

  lemma {:induction false} ConfirmKeepsTable(c: Config, l: Link, nr: Seq8)
    ensures ConfirmUpTo(c, l, nr).sq == l.sq
    decreases Ahead(nr, l.peer.confirm)
  {
    if nr != l.peer.confirm && l.peer.confirm != l.peer.last {
      StepDown(nr, l.peer.confirm);
      ConfirmKeepsTable(c, ConfirmOne(c, l), nr);
    }
  }

  lemma {:induction false} RewindKept(l: Link, control: byte, nr: Seq8)
    ensures BusyKept(l.sq, Rewind(l, control, nr).sq)
    decreases Ahead(l.peer.next, nr)
  {
    var p := l.peer;
    if p.next != nr {
      if p.confirm == p.next {
        AllocateKept(l.sq, UnnumberedSlot,
                     UFrame(p.station, true, FRMR, false, RejectInfo(control, p.nextNr, p.next)));
      } else {
        StepDown(p.next, nr);
        RewindKept(l.(peer := p.(next := Dec(p.next))), control, nr);
      }
    }
  }

  lemma SendKept(l: Link, command: bool, u: UKind, s: SKind, poll: bool)
    ensures BusyKept(l.sq, SendU(l, command, u).sq) && BusyKept(l.sq, SendS(l, command, s, poll).sq)
  {
    AllocateKept(l.sq, UnnumberedSlot, UFrame(l.peer.station, command, u, false, []));
    AllocateKept(l.sq, SupervisorySlot, SFrame(l.peer.station, command, s, l.peer.nextNr, poll));
  }

  lemma InfoKept(c: Config, l: Link, f: Frame)
    requires f.IFrame?
    ensures BusyKept(l.sq, OnIFrame(c, l, f).sq)
  {
    hide Allocate;
    hide ConfirmUpTo;
    var m := CheckReceived(l, f.ns);
    SendKept(l.(peer := l.peer.(sentReject := true)), true, UA, REJ, false);
    ConfirmKeepsTable(c, m, f.nr);
    SendKept(Delivered(Confirm(c, m, f.nr), f.payload), false, UA, RR, false);
  }

  lemma SupervisoryKept(c: Config, l: Link, f: Frame)
    requires f.SFrame?
    ensures BusyKept(l.sq, OnSFrame(c, l, f).sq)
  {
    hide Allocate;
    hide ConfirmUpTo;
    hide Rewind;
    ConfirmKeepsTable(c, l, f.nr);
    var r := Confirm(c, l, f.nr);
    RewindKept(r, Control(f), f.nr);
    SendKept(r, false, UA, RR, f.poll);
  }

  lemma UnnumberedKept(c: Config, l: Link, f: Frame)
    requires f.UFrame?
    ensures BusyKept(l.sq, OnUFrame(c, l, f).sq)
  {
    hide Allocate;
    hide ResetFor;
    SendKept(l, false, UA, RR, false);
    SendKept(l, false, DM, RR, false);
    SendKept(l.(peer := Zeroed(l.peer)), false, UA, RR, false);
    SendKept(SwitchDisconnected(l), true, SetupCommand(c), RR, false);
  }

  lemma ReadKept(c: Config, l: Link, f: Frame)
    ensures BusyKept(l.sq, OnRead(c, l, f).sq)
  {
    hide OnIFrame;
    hide OnSFrame;
    hide OnUFrame;
    var m := l.(peer := l.peer.(kaConfirmed := true));
    SendKept(m, false, DM, RR, false);
    match f
    case IFrame(_, _, _, _, _, _) => InfoKept(c, m, f);
    case SFrame(_, _, _, _, _) => SupervisoryKept(c, m, f);
    case UFrame(_, _, _, _, _) => UnnumberedKept(c, m, f);
  }

  lemma IdleKept(c: Config, l: Link, retryDue: bool, silent: bool, quiet: bool)
    ensures BusyKept(l.sq, Idle(c, l, retryDue, silent, quiet).sq)
  {
    hide Allocate;
    hide Rewind;
    hide ResetFor;
    var p := l.peer;
    if p.retries > 0 { RewindKept(l.(peer := p.(retries := p.retries - 1)), 0, p.confirm); }
    SendKept(l.(peer := p.(kaConfirmed := false)), false, UA, RR, true);
    SendKept(l, true, SetupCommand(c), RR, false);
  }

  lemma OtherKept(l: Link, data: seq<byte>)
    ensures BusyKept(l.sq, Put(l, data).0.sq) && BusyKept(l.sq, PutUi(l, data).sq) && BusyKept(l.sq, Disconnect(l).sq)
  {
    AllocateKept(l.sq, UnnumberedSlot, UFrame(l.peer.station, false, UI, false, data));
    AllocateKept(l.sq, UnnumberedSlot, UFrame(l.peer.station, true, DISC, false, []));
  }

  // ------------------------------------------------------------------ the station

  lemma StepKept(h: Handle, e: Event)
    requires Wf(h) && h.sending != Nothing && !e.Finish?
    ensures BusyKept(h.sq, Step(h, e).sq) && Step(h, e).sending == h.sending && Step(h, e).nextPeer == h.nextPeer
  {
    hide OnRead;
    hide Put;
    hide PutUi;
    hide Idle;
    hide Disconnect;
    hide AddressToPeer;
    hide AddressField;
    hide NextFrame;
    hide Done;
    hide RegisterAt;
    match e
    case Incoming(f) =>
      if AddressToPeer(h, f.station).Some? { ReadKept(h.config, View(h, AddressToPeer(h, f.station).value), f); }
    case Packet(address, data) =>
      var k := AddressToPeer(h, AddressField(h, address));
      if k.Some? { OtherKept(View(h, k.value), data); }
    case UiPacket(address, data) =>
      var k := AddressToPeer(h, AddressField(h, address));
      if k.Some? { OtherKept(View(h, k.value), data); }
    case Timeout(i, retryDue, silent, quiet) =>
      if i < |h.peers| { IdleKept(h.config, View(h, i), retryDue, silent, quiet); }
    case Hangup => OtherKept(View(h, 0), []);
    case NewPeer(address) => RegisterKept(h, (address << 2) | 0x01, 0);
    case _ =>
  }

  lemma {:induction false} RegisterKept(h: Handle, a: byte, i: nat)
    requires i <= |h.peers|
    ensures var r := RegisterAt(h, a, i); r.sq == h.sq && r.sending == h.sending && r.nextPeer == h.nextPeer
    decreases |h.peers| - i
  {
    if i < |h.peers| && h.peers[i].registered { RegisterKept(h, a, i + 1); }
  }

  lemma {:induction false} RunKept(h: Handle, events: seq<Event>)
    requires Wf(h) && h.sending != Nothing && forall e | e in events :: !e.Finish?
    ensures var r := Steps(h, events); BusyKept(h.sq, r.sq) && r.sending == h.sending && r.nextPeer == h.nextPeer
    decreases |events|
  {
    hide Step;
    if events != [] {
      assert events[0] in events && forall e | e in events[1..] :: e in events;
      StepKept(h, events[0]);
      RunKept(Step(h, events[0]), events[1..]);
    }
  }

  /** While a frame is being transmitted no other is started. */
  lemma OneAtATime(h: Handle)
    requires Wf(h) && h.sending != Nothing
    ensures Begin(h) == (h, None)
  {
  }

  lemma ServiceBusy(l: Link)
    ensures var (r, out) := NextService(l);
            out.Service? ==> out.slot < |r.sq.slots| && r.sq.slots[out.slot].kind in SERVICE
  {
  }

  /** The frame picked for transmission is one in use. */
  lemma NextBusy(c: Config, l: Link)
    ensures var (r, out) := NextFrame(c, l);
            out.Service? ==> out.slot < |r.sq.slots| && r.sq.slots[out.slot].kind in SERVICE
  {
    hide NextService;
    hide NextInfo;
    hide Filler;
    var l1 := NextService(l).0;
    ServiceBusy(l);
    ServiceTable(l);
    InfoNotService(l1);
    ServiceBusy(Filler(c, NextInfo(l1).0));
    PickedTables(c, l);
  }

  lemma InfoNotService(l: Link)
    ensures !NextInfo(l).1.Service?
  {
  }

  /**
   * A service frame that has been started: after any events but its completion it is still in its slot as it was
   * started, no other has been started, and its completion takes exactly this frame out of the table.
   */
  lemma SentAsStarted(h: Handle, events: seq<Event>, i: nat, f: Frame, k: nat)
    requires Wf(h) && Begin(h).1 == Some(f) && Begin(h).0.sending == Service(i)
    requires (forall e | e in events :: !e.Finish?) && Owner(Steps(Begin(h).0, events), k, f.station)
    ensures var r := Steps(Begin(h).0, events);
            && r.sending == Service(i) && i < |r.sq.slots| && r.sq.slots[i].frame == f
            && Begin(r) == (r, None)
            && Done(r).sending == Nothing
            && Queueing(Done(r).sq.slots) + multiset{f} == Queueing(r.sq.slots)
  {
    var l := View(h, h.nextPeer);
    NextBusy(h.config, l);
    Started(h);
    var m := Begin(h).0;
    RunKept(m, events);
    hide Begin;
    var r := Steps(m, events);
    assert r.sq.slots[i] == m.sq.slots[i];
    OneAtATime(r);
    OwnerFound(r, k, f.station);
    Released(r, i, f);
  }

  lemma Started(h: Handle)
    requires Wf(h) && Begin(h).1.Some?
    ensures var (m, f) := Begin(h);
            m.sending.Service? ==> m.sending.slot < |m.sq.slots| && m.sq.slots[m.sending.slot].frame == f.value
                                   && m.sq.slots[m.sending.slot].kind in SERVICE
  {
    NextBusy(h.config, View(h, h.nextPeer));
    hide NextFrame;
  }

  lemma Released(r: Handle, i: nat, f: Frame)
    requires Wf(r) && r.sending == Service(i) && i < |r.sq.slots| && r.sq.slots[i].frame == f
    requires r.sq.slots[i].kind in SERVICE && AddressToPeer(r, f.station).Some?
    ensures Done(r).sending == Nothing && Queueing(Done(r).sq.slots) + multiset{f} == Queueing(r.sq.slots)
  {
    hide NextRegistered;
    hide AddressToPeer;
    QueueingLess(r.sq.slots, i);
    hide Queueing;
  }
}
