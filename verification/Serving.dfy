/**
 * Every entry point of a station as what it does to the one peer it serves.
 */
module Serving {
  import opened Frames
  import opened FramesQueue
  import opened InfoStore
  import opened Station
  import opened Handle
  import opened Addressing

  /** The entry point `e` takes the peer it serves, with the tables, from `l` to `r`. */
  ghost predicate Serves(c: Config, l: Link, r: Link, e: Event) {
    match e
    case Incoming(f) => r == OnRead(c, l, f)
    case Packet(_, data) => r == Put(l, data).0
    case UiPacket(_, data) => r == PutUi(l, data)
    case Timeout(_, retryDue, silent, quiet) => r == Idle(c, l, retryDue, silent, quiet)
    case Start => r == NextFrame(c, l).0
    case Hangup => r == Disconnect(l)
    case _ => false
  }

  /** No peer has been served: at most a record has been taken, or a service frame released. */
  ghost predicate Aside(h: Handle, r: Handle) {
    && |r.peers| == |h.peers| && r.iq == h.iq && r.hasFree == h.hasFree
    && forall j | 0 <= j < |h.peers| ::
         r.peers[j] == h.peers[j].(registered := r.peers[j].registered, station := r.peers[j].station)
  }

  /** The peer an entry point serves. */
  function Served(h: Handle, e: Event): (k: Option<nat>)
    requires Wf(h)
    ensures k.Some? ==> k.value < |h.peers|
  {
    match e
    case Incoming(f) => AddressToPeer(h, f.station)
    case Packet(address, _) => AddressToPeer(h, AddressField(h, address))
    case UiPacket(address, data) => if |data| > h.sq.mtu then None else AddressToPeer(h, AddressField(h, address))
    case Timeout(i, _, _, _) => if InUse(h, i) then Some(i) else None
    case Start =>
      if h.sending != Nothing || !h.marker || !h.peers[h.nextPeer].registered then None else Some(h.nextPeer)
    case Hangup => Some(0)
    case _ => None
  }

  lemma {:induction false} RegisterAside(h: Handle, a: byte, i: nat)
    requires i <= |h.peers|
    ensures Aside(h, RegisterAt(h, a, i))
    decreases |h.peers| - i
  {
    if i < |h.peers| && h.peers[i].registered { RegisterAside(h, a, i + 1); }
  }

  lemma DoneAside(h: Handle)
    requires Wf(h)
    ensures Aside(h, Done(h))
  {
    hide AddressToPeer;
    hide NextRegistered;
    hide FreeAt;
    hide FrameAt;
    assert h.peers[h.nextPeer := h.peers[h.nextPeer]] == h.peers;
  }

  /** A step serves one peer and leaves the others alone, or it serves none. */
  lemma StepServes(h: Handle, e: Event)
    requires Wf(h)
    ensures var r, k := Step(h, e), Served(h, e);
            if k.None? then Aside(h, r)
            else
              && Serves(h.config, View(h, k.value), View(r, k.value), e)
              && forall j | 0 <= j < |h.peers| && j != k.value :: r.peers[j] == h.peers[j]
  {
    hide OnRead;
    hide Put;
    hide PutUi;
    hide Idle;
    hide NextFrame;
    hide Disconnect;
    hide AddressToPeer;
    hide AddressField;
    hide Done;
    hide RegisterAt;
    match e
    case Finish => DoneAside(h);
    case NewPeer(address) => RegisterAside(h, (address << 2) | 0x01, 0);
    case _ =>
  }
}
