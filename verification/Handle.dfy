/**
 * A whole station on values: its peers, the two tables they share, the marker and the frame being transmitted,
 * with every entry point of the library as one step.
 */
module Handle {
  import opened Frames
  import opened FramesQueue
  import opened InfoStore
  import opened Station

  /** `tiny_fd_data_t`; `marker` is FD_EVENT_HAS_MARKER, `sending` the pointer behind FD_EVENT_TX_SENDING. */
  datatype Handle = Handle(
    config: Config, addr: byte, peers: seq<Peer>, iq: Queue, sq: Queue, hasFree: bool,
    marker: bool, nextPeer: nat, sending: Outgoing)

  predicate Wf(h: Handle) { h.nextPeer < |h.peers| }

  /** What no entry point ever changes. */
  predicate SameShape(h: Handle, r: Handle) {
    |r.peers| == |h.peers| && (Wf(h) ==> Wf(r)) && r.config == h.config && r.addr == h.addr
  }

  /** What a handler that serves peer `i` works on. */
  function View(h: Handle, i: nat): Link
    requires i < |h.peers|
  {
    Link(h.peers[i], h.iq, h.sq, h.hasFree)
  }

  function Back(h: Handle, i: nat, l: Link): (r: Handle)
    requires i < |h.peers|
    ensures SameShape(h, r)
  {
    h.(peers := h.peers[i := l.peer], iq := l.iq, sq := l.sq, hasFree := l.hasFree)
  }

  // ------------------------------------------------------------------ addresses

  /** An address field in one byte without its C/R bit. */
  predicate PlainAddress(a: byte) { a & 0xfd == a && a & 0x01 != 0 }

  function SearchPeer(peers: seq<Peer>, address: byte, from: nat): (r: Option<nat>)
    requires from <= |peers|
    ensures r.Some? ==> from <= r.value < |peers| && peers[r.value].registered && peers[r.value].station == address
    ensures r.None? ==> forall i | from <= i < |peers| :: !(peers[i].registered && peers[i].station == address)
    decreases |peers| - from
  {
    if from == |peers| then None
    else if peers[from].registered && peers[from].station == address then Some(from)
    else SearchPeer(peers, address, from + 1)
  }

  predicate Polls(c: Config) { c.mode == NRM && c.primary }

  /** The record of a registered peer; all but a polling station work with their first record only. */
  predicate InUse(h: Handle, i: nat) { i < |h.peers| && h.peers[i].registered && (Polls(h.config) || i == 0) }

  /** `__address_field_to_peer`. */
  function AddressToPeer(h: Handle, address: byte): (r: Option<nat>)
    requires Wf(h)
    ensures r.Some? ==> r.value < |h.peers| && (Polls(h.config) ==> h.peers[r.value].registered)
  {
    var a := address & 0xfd;
    if a & 0x01 == 0 then None
    else if !Polls(h.config) then if a == h.addr then Some(0) else None
    else SearchPeer(h.peers, a, 0)
  }

  /** The address field built from an application's address: for a secondary, "the primary" means itself. */
  function AddressField(h: Handle, address: byte): byte {
    ((if !h.config.primary && address == 0 then h.addr else address) << 2) | 0x01
  }

  /**
   * A secondary is meant to reach its primary under address 0, but its own address field is shifted a second time
   * on the way: the peer is found exactly when the field survives the shift, which only address 21 (0x55) does.
   */
  lemma SecondaryToPrimary(h: Handle, own: byte)
    requires Wf(h) && !h.config.primary && own <= 63 && h.addr == (own << 2) | 0x01
    ensures AddressToPeer(h, AddressField(h, 0)).Some? <==> own == 21
  {
    ShiftedTwice(own);
  }

  lemma ShiftedTwice(own: byte)
    requires own <= 63
    ensures var a := (own << 2) | 0x01; var f := (a << 2) | 0x01;
            f & 0xfd == f && f & 0x01 != 0 && (f == a <==> own == 21)
  {
  }

  /** `__switch_to_next_peer`: the next registered peer after `from`, looking at most `left` places ahead. */
  function NextRegistered(peers: seq<Peer>, from: nat, left: nat): (r: nat)
    requires from < |peers|
    ensures r < |peers|
    decreases left
  {
    var next := if from + 1 < |peers| then from + 1 else 0;
    if left == 0 then from
    else if peers[next].registered || left == 1 then next
    else NextRegistered(peers, next, left - 1)
  }

  function SwitchToNextPeer(h: Handle): (r: Handle)
    requires Wf(h)
    ensures SameShape(h, r)
  {
    h.(nextPeer := NextRegistered(h.peers, h.nextPeer, |h.peers|))
  }

  // ------------------------------------------------------------------ entry points

  /** `on_frame_read`. */
  function Read(h: Handle, f: Frame): (r: Handle)
    requires Wf(h)
    ensures SameShape(h, r)
  {
    match AddressToPeer(h, f.station)
    case None => h
    case Some(i) =>
      var r := Back(h, i, OnRead(h.config, View(h, i), f));
      if h.config.mode == NRM && f.poll then r.(marker := true) else r
  }

  /** `tiny_fd_send_packet_to`. */
  function SendPacket(h: Handle, address: byte, data: seq<byte>): (r: (Handle, PutResult))
    requires Wf(h)
    ensures SameShape(h, r.0)
  {
    match AddressToPeer(h, AddressField(h, address))
    case None => (h, UnknownPeer)
    case Some(i) => var (l, result) := Put(View(h, i), data); (Back(h, i, l), result)
  }

  /** `tiny_fd_send_ui_packet_to`. */
  function SendUi(h: Handle, address: byte, data: seq<byte>): (r: Handle)
    requires Wf(h)
    ensures SameShape(h, r)
  {
    if |data| > h.sq.mtu then h
    else match AddressToPeer(h, AddressField(h, address))
      case None => h
      case Some(i) => Back(h, i, PutUi(View(h, i), data))
  }

  /** The timeouts `tiny_fd_get_tx_data` checks for a peer before it sends. */
  function Check(h: Handle, i: nat, retryDue: bool, silent: bool, quiet: bool): (r: Handle)
    requires Wf(h)
    ensures SameShape(h, r)
  {
    if InUse(h, i)
    then Back(h, i, Idle(h.config, View(h, i), retryDue, silent, quiet))
    else h
  }

  /** `tiny_fd_get_tx_data` starts the transmission of a frame to the peer whose turn it is. */
  function Begin(h: Handle): (r: (Handle, Option<Frame>))
    requires Wf(h)
    ensures SameShape(h, r.0)
  {
    if h.sending != Nothing || !h.marker || !h.peers[h.nextPeer].registered then (h, None)
    else
      var (l, out) := NextFrame(h.config, View(h, h.nextPeer));
      (Back(h, h.nextPeer, l).(sending := out), if out == Nothing then None else Some(FrameAt(l, out)))
  }

  /** `on_frame_send`: the slot is released, and with it the marker if the frame carried the P/F bit. */
  function Done(h: Handle): (r: Handle)
    requires Wf(h)
    ensures SameShape(h, r)
  {
    var l := View(h, h.nextPeer);
    if h.sending == Nothing || !InTables(l, h.sending) then h
    else
      var f := FrameAt(l, h.sending);
      if AddressToPeer(h, f.station) == None then h
      else
        var r := Back(h, h.nextPeer, Sent(l, h.sending)).(sending := Nothing);
        if h.config.mode == NRM && f.poll
        then (if h.config.primary then SwitchToNextPeer(r) else r).(marker := false)
        else r
  }

  /** The primary takes the marker back after the remote station has been silent for too long. */
  function Reclaim(h: Handle): Handle { if h.config.primary then h.(marker := true) else h }

  /** `tiny_fd_disconnect`, for the first peer. */
  function Leave(h: Handle): (r: Handle)
    requires Wf(h)
    ensures SameShape(h, r)
  {
    Back(h, 0, Disconnect(View(h, 0)))
  }

  /** `tiny_fd_register_peer`. */
  function Register(h: Handle, address: byte): (r: Handle)
    requires Wf(h)
    ensures SameShape(h, r)
  {
    var a := (address << 2) | 0x01;
    if address > 63 || address == 0 || AddressToPeer(h, a).Some? then h
    else RegisterAt(h, a, 0)
  }

  function RegisterAt(h: Handle, a: byte, i: nat): (r: Handle)
    requires i <= |h.peers|
    ensures SameShape(h, r)
    decreases |h.peers| - i
  {
    if i == |h.peers| then h
    else if !h.peers[i].registered then h.(peers := h.peers[i := h.peers[i].(registered := true, station := a)])
    else RegisterAt(h, a, i + 1)
  }

  // ------------------------------------------------------------------ runs

  datatype Event =
    | Incoming(frame: Frame)
    | Packet(address: byte, data: seq<byte>)
    | UiPacket(address: byte, data: seq<byte>)
    | Timeout(peer: nat, retryDue: bool, silent: bool, quiet: bool)
    | Start
    | Finish
    | TakeMarker
    | Hangup
    | NewPeer(address: byte)

  function Step(h: Handle, e: Event): (r: Handle)
    requires Wf(h)
    ensures SameShape(h, r)
  {
    match e
    case Incoming(f) => Read(h, f)
    case Packet(address, data) => SendPacket(h, address, data).0
    case UiPacket(address, data) => SendUi(h, address, data)
    case Timeout(i, retryDue, silent, quiet) => Check(h, i, retryDue, silent, quiet)
    case Start => Begin(h).0
    case Finish => Done(h)
    case TakeMarker => Reclaim(h)
    case Hangup => Leave(h)
    case NewPeer(address) => Register(h, address)
  }

  function Steps(h: Handle, events: seq<Event>): (r: Handle)
    requires Wf(h)
    ensures SameShape(h, r)
    decreases |events|
  {
    if events == [] then h else Steps(Step(h, events[0]), events[1..])
  }

  // ------------------------------------------------------------------ a fresh station

  /** What an unregistered record holds for an address: HDLC_INVALID_PEER_INDEX without the C/R bit. */
  const NO_STATION: byte := 0xfd

  /** A station as `tiny_fd_init` leaves it; the window size is the number of I-frame slots. */
  ghost predicate Initial(h: Handle) {
    && Wf(h) && PlainAddress(h.addr) && (h.config.primary <==> h.addr == 0x01) && h.nextPeer == 0
         && h.sending == Nothing && h.hasFree && h.marker == h.config.primary
    && 2 <= |h.iq.slots| <= 7 && |h.sq.slots| == 4 && h.sq.mtu == 2
    && (forall i | 0 <= i < |h.iq.slots| :: h.iq.slots[i].kind == FreeSlot)
    && (forall i | 0 <= i < |h.sq.slots| :: h.sq.slots[i].kind == FreeSlot)
    && (forall i | 0 <= i < |h.peers| :: FreshPeer(h.peers[i], h.config))
    && (forall i | 0 <= i < |h.peers| ::
          if Polls(h.config) then !h.peers[i].registered && h.peers[i].station == NO_STATION
          else h.peers[i].registered && h.peers[i].station == h.addr)
  }

  predicate FreshPeer(p: Peer, c: Config) {
    p == Peer(p.registered, p.station, Disconnected, 0, 0, 0, 0, 0, false, {}, c.maxRetries, false, false,
      Log([], [], [], []))
  }
}
