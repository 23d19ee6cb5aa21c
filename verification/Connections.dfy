/**
 * Connect events: over every sequence of entry points, received frames and timeouts, RSET included, two "connected"
 * callbacks of a peer are separated by a "disconnected" one, and every connection starts clean.
 */
module Connections {
  import opened Frames
  import opened FramesQueue
  import opened InfoStore
  import opened Station
  import opened Handle

  /** Counters at zero and no I-frame queued for the peer. */
  ghost predicate Clean(p: Peer, q: Queue) {
    && p.confirm == p.next == p.last == p.nextNr == p.sentNr == 0 && !p.sentReject && p.srej == {}
    && forall i | 0 <= i < |q.slots| :: !(q.slots[i].kind != FreeSlot && q.slots[i].frame.station == p.station)
  }

  /** What one step may do to the connection of a peer and to the events its application sees. */
  ghost predicate Passes(p: Peer, r: Peer, q: Queue) {
    || (r.log.links == p.log.links && (Up(p) ==> Up(r)))
    || (r.log.links == p.log.links + [false] && !Up(r))
    || (r.log.links == p.log.links + [true] && !Up(p) && r.state == Connected && Clean(r, q))
    || (r.log.links == p.log.links + [false, true] && Up(p) && r.state == Connected && Clean(r, q))
  }

  predicate SameId(p: Peer, r: Peer) { r.station == p.station && r.registered == p.registered }

  predicate Kept(l: Link, r: Link) {
    r.peer.state == l.peer.state && r.peer.log.links == l.peer.log.links && SameId(l.peer, r.peer)
  }

  lemma {:induction false} ConfirmKept(c: Config, l: Link, nr: Seq8)
    ensures Kept(l, ConfirmUpTo(c, l, nr))
    decreases Ahead(nr, l.peer.confirm)
  {
    if nr != l.peer.confirm && l.peer.confirm != l.peer.last {
      ConfirmKept(c, ConfirmOne(c, l), nr);
    }
  }

  lemma {:induction false} RewindKept(l: Link, control: byte, nr: Seq8)
    ensures Kept(l, Rewind(l, control, nr))
    decreases Ahead(l.peer.next, nr)
  {
    if l.peer.next != nr && l.peer.confirm != l.peer.next {
      RewindKept(l.(peer := l.peer.(next := Dec(l.peer.next))), control, nr);
    }
  }

  lemma InfoKept(c: Config, l: Link, f: Frame)
    requires f.IFrame?
    ensures Kept(l, OnIFrame(c, l, f))
  {
    ConfirmKept(c, CheckReceived(l, f.ns), f.nr);
  }

  lemma SupervisoryKept(c: Config, l: Link, f: Frame)
    requires f.SFrame?
    ensures Kept(l, OnSFrame(c, l, f))
  {
    ConfirmKept(c, l, f.nr);
    RewindKept(Confirm(c, l, f.nr), Control(f), f.nr);
  }

  lemma ReadPasses(c: Config, l: Link, f: Frame)
    ensures var r := OnRead(c, l, f); Passes(l.peer, r.peer, r.iq) && SameId(l.peer, r.peer)
  {
    var m := l.(peer := l.peer.(kaConfirmed := true));
    if f.UFrame? {
      UnnumberedPasses(c, m, f);
    } else if Up(m.peer) {
      if f.IFrame? { InfoKept(c, m, f); } else { SupervisoryKept(c, m, f); }
    }
  }

  lemma DropPasses(l: Link)
    ensures var r := SwitchDisconnected(l);
            Passes(l.peer, r.peer, r.iq) && SameId(l.peer, r.peer) && r.peer.state == Disconnected
            && r.peer.log.links == if l.peer.state == Disconnected then l.peer.log.links else l.peer.log.links + [false]
  {
  }

  lemma ConnectPasses(l: Link)
    ensures var r := SwitchConnected(l);
            && (!Up(l.peer) ==>
                  r.peer.log.links == l.peer.log.links + [true] && Clean(r.peer, r.iq) && r.peer.state == Connected)
            && (!Up(l.peer) ==> Passes(l.peer, r.peer, r.iq)) && SameId(l.peer, r.peer)
  {
  }

  lemma SetupPasses(l: Link)
    ensures var r := OnSetup(l); Passes(l.peer, r.peer, r.iq) && SameId(l.peer, r.peer)
  {
    var m := SendU(l, false, UA);
    var d := if Up(m.peer) then SwitchDisconnected(m) else m;
    DropPasses(m);
    ConnectPasses(d);
    assert l.peer.log.links + [false] + [true] == l.peer.log.links + [false, true];
  }

  lemma UnnumberedPasses(c: Config, l: Link, f: Frame)
    requires f.UFrame?
    ensures var r := OnUFrame(c, l, f); Passes(l.peer, r.peer, r.iq) && SameId(l.peer, r.peer)
  {
    hide SwitchConnected;
    hide SwitchDisconnected;
    hide Clean;
    if f.ukind == SABM || f.ukind == SNRM {
      SetupPasses(l);
    } else if l.peer.state != Disconnected {
      DropPasses(l);
      DropPasses(SendU(l, false, UA));
      ConnectPasses(l);
    }
  }

  lemma RetryPasses(l: Link, retries: nat)
    ensures var r := Rewind(l.(peer := l.peer.(retries := retries)), 0, l.peer.confirm);
            Passes(l.peer, r.peer, r.iq) && SameId(l.peer, r.peer)
  {
    RewindKept(l.(peer := l.peer.(retries := retries)), 0, l.peer.confirm);
  }

  lemma IdlePasses(c: Config, l: Link, retryDue: bool, silent: bool, quiet: bool)
    ensures var r := Idle(c, l, retryDue, silent, quiet); Passes(l.peer, r.peer, r.iq) && SameId(l.peer, r.peer)
  {
    var p := l.peer;
    DropPasses(l);
    if Up(p) && Unconfirmed(p) && AllSent(p) && retryDue && p.retries > 0 {
      RetryPasses(l, p.retries - 1);
    }
  }

  lemma PutPasses(l: Link, data: seq<byte>)
    ensures Kept(l, Put(l, data).0) && Kept(l, PutUi(l, data))
  {
  }

  lemma ServicePasses(l: Link)
    ensures Kept(l, NextService(l).0)
  {
  }

  lemma InfoPasses(l: Link)
    ensures Kept(l, NextInfo(l).0)
  {
  }

  lemma PickedPasses(c: Config, l: Link)
    ensures Kept(l, Picked(c, l).0)
  {
    ServicePasses(l);
    var l1 := NextService(l).0;
    InfoPasses(l1);
    var filled := Filler(c, NextInfo(l1).0);
    assert Kept(l, filled);
    ServicePasses(filled);
  }

  lemma PollPasses(c: Config, l: Link, out: Outgoing)
    requires InTables(l, out)
    ensures Kept(l, PollSet(c, l, out))
  {
  }

  lemma NextPasses(c: Config, l: Link)
    ensures Kept(l, NextFrame(c, l).0)
  {
    PickedPasses(c, l);
    PollPasses(c, Picked(c, l).0, Picked(c, l).1);
  }

  // ------------------------------------------------------------------ a whole station

  lemma ServePasses(h: Handle, i: nat, l: Link, j: nat)
    requires i < |h.peers| && j < |h.peers| && Passes(h.peers[i], l.peer, l.iq) && SameId(h.peers[i], l.peer)
    ensures var r := Back(h, i, l); Passes(h.peers[j], r.peers[j], r.iq) && SameId(h.peers[j], r.peers[j])
  {
  }

  lemma {:induction false} RegisterPasses(h: Handle, a: byte, i: nat, j: nat)
    requires i <= |h.peers| && j < |h.peers|
    ensures var r := RegisterAt(h, a, i); r.peers[j].state == h.peers[j].state && r.peers[j].log == h.peers[j].log
    decreases |h.peers| - i
  {
    if i < |h.peers| && h.peers[i].registered { RegisterPasses(h, a, i + 1, j); }
  }

  lemma IncomingPasses(h: Handle, f: Frame, j: nat)
    requires Wf(h) && j < |h.peers|
    ensures var r := Read(h, f); Passes(h.peers[j], r.peers[j], r.iq) && SameId(h.peers[j], r.peers[j])
  {
    match AddressToPeer(h, f.station)
    case None =>
    case Some(i) =>
      ReadPasses(h.config, View(h, i), f);
      ServePasses(h, i, OnRead(h.config, View(h, i), f), j);
  }

  lemma PacketPasses(h: Handle, address: byte, data: seq<byte>, j: nat)
    requires Wf(h) && j < |h.peers|
    ensures var r := SendPacket(h, address, data).0;
            Passes(h.peers[j], r.peers[j], r.iq) && SameId(h.peers[j], r.peers[j])
    ensures var r := SendUi(h, address, data); Passes(h.peers[j], r.peers[j], r.iq) && SameId(h.peers[j], r.peers[j])
  {
    match AddressToPeer(h, AddressField(h, address))
    case None =>
    case Some(i) =>
      PutPasses(View(h, i), data);
      ServePasses(h, i, Put(View(h, i), data).0, j);
      ServePasses(h, i, PutUi(View(h, i), data), j);
  }

  lemma BeginPasses(h: Handle, j: nat)
    requires Wf(h) && j < |h.peers|
    ensures var r := Begin(h).0; Passes(h.peers[j], r.peers[j], r.iq) && SameId(h.peers[j], r.peers[j])
  {
    NextPasses(h.config, View(h, h.nextPeer));
    ServePasses(h, h.nextPeer, NextFrame(h.config, View(h, h.nextPeer)).0, j);
  }

  lemma CheckPasses(h: Handle, e: Event, j: nat)
    requires Wf(h) && j < |h.peers| && e.Timeout?
    ensures var r := Step(h, e); Passes(h.peers[j], r.peers[j], r.iq) && SameId(h.peers[j], r.peers[j])
  {
    if InUse(h, e.peer) {
      IdlePasses(h.config, View(h, e.peer), e.retryDue, e.silent, e.quiet);
      ServePasses(h, e.peer, Idle(h.config, View(h, e.peer), e.retryDue, e.silent, e.quiet), j);
    }
  }

  lemma StepPasses(h: Handle, e: Event, j: nat)
    requires Wf(h) && j < |h.peers|
    ensures var r := Step(h, e); Passes(h.peers[j], r.peers[j], r.iq)
  {
    match e
    case Incoming(f) => IncomingPasses(h, f, j);
    case Packet(address, data) => PacketPasses(h, address, data, j);
    case UiPacket(address, data) => PacketPasses(h, address, data, j);
    case Timeout(_, _, _, _) => CheckPasses(h, e, j);
    case Start => BeginPasses(h, j);
    case Finish =>
    case TakeMarker =>
    case Hangup => ServePasses(h, 0, Disconnect(View(h, 0)), j);
    case NewPeer(address) => RegisterPasses(h, (address << 2) | 0x01, 0, j);
  }

  /** No entry point but the registration of a peer changes who the peers are. */
  lemma StepIdentity(h: Handle, e: Event, j: nat)
    requires Wf(h) && j < |h.peers| && !e.NewPeer?
    ensures SameId(h.peers[j], Step(h, e).peers[j])
  {
    match e
    case Incoming(f) => IncomingPasses(h, f, j);
    case Packet(address, data) => PacketPasses(h, address, data, j);
    case UiPacket(address, data) => PacketPasses(h, address, data, j);
    case Timeout(_, _, _, _) => CheckPasses(h, e, j);
    case Start => BeginPasses(h, j);
    case Finish =>
    case TakeMarker =>
    case Hangup =>
  }

  // ------------------------------------------------------------------ every run

  ghost predicate Separated(links: seq<bool>) { forall k | 0 < k < |links| && links[k] :: !links[k - 1] }

  /** The events so far are separated, and a connection reported and not ended is still up. */
  ghost predicate Paired(p: Peer) {
    var links := p.log.links;
    Separated(links) && (links != [] && links[|links| - 1] ==> Up(p))
  }

  lemma PassesPaired(p: Peer, r: Peer, q: Queue)
    requires Paired(p) && Passes(p, r, q)
    ensures Paired(r)
  {
  }

  lemma {:induction false} RunPaired(h: Handle, events: seq<Event>, j: nat)
    requires Wf(h) && j < |h.peers| && Paired(h.peers[j])
    ensures Paired(Steps(h, events).peers[j])
    decreases |events|
  {
    if events != [] {
      StepPasses(h, events[0], j);
      PassesPaired(h.peers[j], Step(h, events[0]).peers[j], Step(h, events[0]).iq);
      RunPaired(Step(h, events[0]), events[1..], j);
    }
  }

  /** From a fresh station, two "connected" callbacks of one peer always have a "disconnected" one between them. */
  lemma ConnectsSeparated(h: Handle, events: seq<Event>, j: nat, a: nat, b: nat)
    requires Initial(h) && j < |h.peers|
    requires var links := Steps(h, events).peers[j].log.links; a < b < |links| && links[a] && links[b]
    ensures var links := Steps(h, events).peers[j].log.links; exists m :: a < m < b && !links[m]
  {
    assert FreshPeer(h.peers[j], h.config);
    RunPaired(h, events, j);
    var links := Steps(h, events).peers[j].log.links;
    assert !links[b - 1];
  }

  /** Whatever the state was, a step that reports "connected" last leaves the peer clean. */
  lemma ConnectsClean(h: Handle, e: Event, j: nat)
    requires Wf(h) && j < |h.peers|
    requires var links := Step(h, e).peers[j].log.links;
             |links| > |h.peers[j].log.links| && links[|links| - 1]
    ensures Clean(Step(h, e).peers[j], Step(h, e).iq)
  {
    StepPasses(h, e, j);
  }
}
