/**
 * The full-duplex protocol on values: what each handler of a station does to the peer it serves,
 * to the two frame tables and to the callbacks the application has seen.
 */
module Station {
  import opened Frames
  import opened FramesQueue
  import opened InfoStore

  datatype Mode = ABM | NRM

  /** Fixed at initialisation: the mode, whether the own address is the primary one, and the retry limit. */
  datatype Config = Config(mode: Mode, primary: bool, maxRetries: nat)

  datatype LinkState = Disconnected | Connecting | Connected | Disconnecting

  /** The callbacks the application has received: data read, data confirmed, connect events, UI data. */
  datatype Log = Log(received: seq<seq<byte>>, confirmed: seq<seq<byte>>, links: seq<bool>, uis: seq<seq<byte>>)

  /** `tiny_fd_peer_info_t`; `canAccept` is its event FD_EVENT_CAN_ACCEPT_I_FRAMES. */
  datatype Peer = Peer(
    registered: bool, station: byte, state: LinkState,
    confirm: Seq8, next: Seq8, last: Seq8, nextNr: Seq8,
    sentNr: Seq8, sentReject: bool, srej: set<Seq8>,
    retries: nat, kaConfirmed: bool, canAccept: bool, log: Log)

  /** All a handler can touch: one peer, both tables and the event FD_EVENT_QUEUE_HAS_FREE_SLOTS. */
  datatype Link = Link(peer: Peer, iq: Queue, sq: Queue, hasFree: bool)

  /** The pointer handed to the transmitter. */
  datatype Outgoing = Nothing | Service(slot: nat) | Info(slot: nat)

  predicate Up(p: Peer) { p.state == Connected || p.state == Disconnecting }

  predicate AllSent(p: Peer) { p.last == p.next }

  predicate Unconfirmed(p: Peer) { p.confirm != p.last }

  predicate TxFull(p: Peer) { Inc(p.last) == p.confirm }

  predicate AnyFree(q: Queue) { Find(q, {FreeSlot}, 0, 0).Some? }

  // ------------------------------------------------------------------ queueing service frames

  function Queued(l: Link, kind: Kind, f: Frame): Link { l.(sq := Allocate(l.sq, kind, f)) }

  function SendU(l: Link, command: bool, kind: UKind): Link {
    Queued(l, UnnumberedSlot, UFrame(l.peer.station, command, kind, false, []))
  }

  function SendS(l: Link, command: bool, kind: SKind, poll: bool): Link {
    Queued(l, SupervisorySlot, SFrame(l.peer.station, command, kind, l.peer.nextNr, poll))
  }

  function SetupCommand(c: Config): UKind { if c.mode == NRM then SNRM else SABM }

  // ------------------------------------------------------------------ the sending window

  /** `__on_frame_confirmed` and the increment behind it. */
  function ConfirmOne(c: Config, l: Link): Link {
    var p := l.peer.(retries := c.maxRetries, confirm := Inc(l.peer.confirm));
    match Find(l.iq, INFO, l.peer.station, l.peer.confirm)
    case None => l.(peer := p)
    case Some(i) =>
      var freed := FreeAt(l.iq, i);
      l.(peer := p.(log := p.log.(confirmed := p.log.confirmed + [Payload(l.iq.slots[i].frame)])),
         iq := freed, hasFree := l.hasFree || AnyFree(freed))
  }

  /** The loop of `__i_queue_control_confirm_sent_frames`. */
  function ConfirmUpTo(c: Config, l: Link, nr: Seq8): Link
    decreases Ahead(nr, l.peer.confirm)
  {
    if nr == l.peer.confirm || l.peer.confirm == l.peer.last then l else ConfirmUpTo(c, ConfirmOne(c, l), nr)
  }

  /** `__confirm_sent_frames`. */
  function Confirm(c: Config, l: Link, nr: Seq8): Link {
    var r := ConfirmUpTo(c, l, nr);
    r.(peer := r.peer.(canAccept := r.peer.canAccept || !TxFull(r.peer)))
  }

  /** `__resend_all_unconfirmed_frames`. */
  function Rewind(l: Link, control: byte, nr: Seq8): Link
    decreases Ahead(l.peer.next, nr)
  {
    var p := l.peer;
    if p.next == nr then l
    else if p.confirm == p.next then
      Queued(l, UnnumberedSlot, UFrame(p.station, true, FRMR, false, RejectInfo(control, p.nextNr, p.next)))
    else Rewind(l.(peer := p.(next := Dec(p.next))), control, nr)
  }

  /** `__put_i_frame_to_tx_queue`. */
  function PutInfo(l: Link, data: seq<byte>): Link {
    var p := l.peer;
    var f := IFrame(p.station, false, p.last, 0, false, data);
    if HasRoom(l.iq, f) then l.(peer := p.(last := Inc(p.last)), iq := Allocate(l.iq, InfoSlot, f)) else l
  }

  datatype PutResult = Success | TooLarge | Timeout | UnknownPeer

  /** `tiny_fd_send_packet_to` once the peer is known. */
  function Put(l: Link, data: seq<byte>): (Link, PutResult) {
    if |data| > l.iq.mtu then (l, TooLarge)
    else if !l.peer.canAccept || !l.hasFree then (l, Timeout)
    else
      var r := PutInfo(l, data);
      var stored := HasRoom(l.iq, IFrame(l.peer.station, false, l.peer.last, 0, false, data));
      (r.(peer := r.peer.(canAccept := !TxFull(r.peer)), hasFree := stored && AnyFree(r.iq)),
       if stored then Success else Timeout)
  }

  // ------------------------------------------------------------------ connection states

  /** `__reset_i_queue_control` and the lines that always follow it. */
  function Zeroed(p: Peer): Peer {
    p.(confirm := 0, next := 0, last := 0, nextNr := 0, sentNr := 0, sentReject := false, srej := {})
  }

  function Notified(p: Peer, connected: bool): Peer { p.(log := p.log.(links := p.log.links + [connected])) }

  /** `__switch_to_connected_state`. */
  function SwitchConnected(l: Link): Link {
    if l.peer.state == Connected then l
    else
      var iq := ResetFor(l.iq, l.peer.station);
      l.(peer := Notified(Zeroed(l.peer).(state := Connected, canAccept := true), true),
         iq := iq, hasFree := l.hasFree || AnyFree(iq))
  }

  /** `__switch_to_disconnected_state`. */
  function SwitchDisconnected(l: Link): Link {
    if l.peer.state == Disconnected then l
    else
      l.(peer := Notified(Zeroed(l.peer).(state := Disconnected, canAccept := false), false),
         iq := ResetFor(l.iq, l.peer.station))
  }

  // ------------------------------------------------------------------ received frames

  /** `__check_received_frame`, the branch of the expected frame and the other one. */
  function CheckReceived(l: Link, ns: Seq8): Link {
    if ns == l.peer.nextNr then l.(peer := l.peer.(nextNr := Inc(l.peer.nextNr), sentReject := false))
    else if l.peer.sentReject then l
    else SendS(l.(peer := l.peer.(sentReject := true)), true, REJ, false)
  }

  function Delivered(l: Link, data: seq<byte>): Link {
    l.(peer := l.peer.(log := l.peer.log.(received := l.peer.log.received + [data])))
  }

  /** `__on_i_frame_read`. */
  function OnIFrame(c: Config, l: Link, f: Frame): Link
    requires f.IFrame?
  {
    var r := Confirm(c, CheckReceived(l, f.ns), f.nr);
    if f.ns != l.peer.nextNr then r
    else
      var d := Delivered(r, f.payload);
      if AllSent(d.peer) && d.peer.sentNr != d.peer.nextNr then SendS(d, false, RR, false) else d
  }

  /** `__on_s_frame_read`. */
  function OnSFrame(c: Config, l: Link, f: Frame): Link
    requires f.SFrame?
  {
    var r := Confirm(c, l, f.nr);
    match f.kind
    case REJ => Rewind(r, Control(f), f.nr)
    case RR => if f.command && AllSent(r.peer) then SendS(r, false, RR, f.poll) else r
    case RNR => r
    case SREJ => r.(peer := r.peer.(srej := r.peer.srej + {f.nr}))
  }

  /** `__on_u_frame_read`. */
  function OnUFrame(c: Config, l: Link, f: Frame): Link
    requires f.UFrame?
  {
    var k := f.ukind;
    if l.peer.state == Disconnected && k != SABM && k != SNRM && k != UI then
      if f.command then SendU(l, false, DM) else l
    else match k
      case SABM => OnSetup(l)
      case SNRM => OnSetup(l)
      case DISC => SwitchDisconnected(SendU(l, false, UA))
      case RSET => SendU(l.(peer := Zeroed(l.peer)), false, UA)
      case FRMR =>
        var r := SendU(SwitchDisconnected(l), true, SetupCommand(c));
        r.(peer := r.peer.(state := Connecting))
      case UA =>
        if l.peer.state == Connecting then SwitchConnected(l)
        else if l.peer.state == Disconnecting then SwitchDisconnected(l)
        else l
      case DM => SwitchDisconnected(l)
      case UI =>
        if |f.info| > 0 then l.(peer := l.peer.(log := l.peer.log.(uis := l.peer.log.uis + [f.info]))) else l
      case Unknown(_) => l
  }

  /** A connection request: answer, drop a standing connection, connect. */
  function OnSetup(l: Link): Link {
    var r := SendU(l, false, UA);
    SwitchConnected(if Up(r.peer) then SwitchDisconnected(r) else r)
  }

  /** `on_frame_read` once the peer is known; the marker is the station's business. */
  function OnRead(c: Config, l: Link, f: Frame): Link {
    var r := l.(peer := l.peer.(kaConfirmed := true));
    if f.UFrame? then OnUFrame(c, r, f)
    else if !Up(r.peer) then SendU(r, false, DM)
    else if f.IFrame? then OnIFrame(c, r, f)
    else OnSFrame(c, r, f)
  }

  // ------------------------------------------------------------------ frames to send

  /** `tiny_fd_get_next_s_u_frame_to_send`. */
  function NextService(l: Link): (Link, Outgoing) {
    match Find(l.sq, SERVICE, l.peer.station, 0)
    case None => (l, Nothing)
    case Some(i) =>
      var f := l.sq.slots[i].frame;
      (if f.SFrame? then l.(peer := l.peer.(sentNr := f.nr)) else l, Service(i))
  }

  function Refreshed(f: Frame, nr: Seq8): Frame {
    if f.IFrame? then IFrame(f.station, f.command, f.ns, nr, false, f.payload) else f
  }

  /** The I-frame under sequence number `ns` leaves with the current N(R). */
  function SendStored(l: Link, i: nat): Link
    requires i < |l.iq.slots|
  {
    l.(iq := Rewrite(l.iq, i, Refreshed(l.iq.slots[i].frame, l.peer.nextNr)),
       peer := l.peer.(sentNr := l.peer.nextNr))
  }

  function Lowest(mask: set<Seq8>, from: Seq8): Seq8
    decreases 8 - from
  {
    if from in mask || from == 7 then from else Lowest(mask, from + 1)
  }

  /** `tiny_fd_get_next_i_frame`. */
  function NextInfo(l: Link): (Link, Outgoing) {
    var p := l.peer;
    if !Up(p) then (l, Nothing)
    else if p.srej != {} then
      var n := Lowest(p.srej, 0);
      var r := l.(peer := p.(srej := p.srej - {n}));
      match Find(l.iq, INFO, p.station, n)
      case None => (r, Nothing)
      case Some(i) => (SendStored(r, i), Info(i))
    else match Find(l.iq, INFO, p.station, p.next)
      case None => (l, Nothing)
      case Some(i) => (SendStored(l.(peer := p.(next := Inc(p.next))), i), Info(i))
  }

  /** What an NRM station queues when it has nothing to say, so as to pass the marker on. */
  function Filler(c: Config, l: Link): Link {
    if c.primary && !Up(l.peer)
    then Queued(l, SupervisorySlot, UFrame(l.peer.station, true, SNRM, false, []))
    else SendS(l, false, RR, false)
  }

  function Picked(c: Config, l: Link): (Link, Outgoing) {
    var (l1, out1) := NextService(l);
    if out1 != Nothing then (l1, out1)
    else
      var (l2, out2) := NextInfo(l1);
      if out2 == Nothing && c.mode == NRM then NextService(Filler(c, l2)) else (l2, out2)
  }

  function WithPoll(f: Frame): Frame { f.(poll := true) }

  /** Which frames get the P/F bit as they leave. */
  predicate GetsPoll(c: Config, p: Peer, f: Frame) {
    if c.mode == NRM then f.IFrame? ==> AllSent(p) else f.UFrame?
  }

  predicate InTables(l: Link, out: Outgoing) {
    match out case Nothing => true case Service(i) => i < |l.sq.slots| case Info(i) => i < |l.iq.slots|
  }

  function FrameAt(l: Link, out: Outgoing): Frame
    requires out != Nothing && InTables(l, out)
  {
    if out.Service? then l.sq.slots[out.slot].frame else l.iq.slots[out.slot].frame
  }

  function PollSet(c: Config, l: Link, out: Outgoing): Link
    requires InTables(l, out)
  {
    if out == Nothing || !GetsPoll(c, l.peer, FrameAt(l, out)) then l
    else
      var f := WithPoll(FrameAt(l, out));
      if out.Service? then l.(sq := Rewrite(l.sq, out.slot, f)) else l.(iq := Rewrite(l.iq, out.slot, f))
  }

  /** `tiny_fd_get_next_frame_to_send`. */
  function NextFrame(c: Config, l: Link): (r: (Link, Outgoing))
    ensures InTables(r.0, r.1)
  {
    var (l1, out) := Picked(c, l);
    assert InTables(l1, out);
    (PollSet(c, l1, out), out)
  }

  /** `on_frame_send`, but for the marker: a service frame leaves its table, an I-frame waits to be confirmed. */
  function Sent(l: Link, out: Outgoing): Link
    requires InTables(l, out)
  {
    if out.Service? then l.(sq := FreeAt(l.sq, out.slot)) else l
  }

  // ------------------------------------------------------------------ timeouts

  /**
   * `tiny_fd_connected_check_idle_timeout`: whether the retry time has passed since the last I-frame was sent,
   * twice the keep-alive time since a frame came in, and the keep-alive time since one was sent.
   */
  function ConnectedIdle(c: Config, l: Link, retryDue: bool, silent: bool, quiet: bool): Link {
    var p := l.peer;
    if Unconfirmed(p) && AllSent(p) && retryDue then
      if p.retries > 0 then Rewind(l.(peer := p.(retries := p.retries - 1)), 0, p.confirm) else SwitchDisconnected(l)
    else if silent then if p.kaConfirmed then l else SwitchDisconnected(l)
    else if quiet then SendS(l.(peer := p.(kaConfirmed := false)), false, RR, true)
    else l
  }

  /** `tiny_fd_disconnected_check_idle_timeout`. */
  function DisconnectedIdle(c: Config, l: Link, retryDue: bool): Link {
    if retryDue && c.primary then
      var r := SendU(l, true, SetupCommand(c));
      r.(peer := r.peer.(state := Connecting))
    else l
  }

  /** The check at the head of `tiny_fd_get_tx_data`. */
  function Idle(c: Config, l: Link, retryDue: bool, silent: bool, quiet: bool): Link {
    if Up(l.peer) then ConnectedIdle(c, l, retryDue, silent, quiet) else DisconnectedIdle(c, l, retryDue)
  }

  /** `tiny_fd_disconnect`. */
  function Disconnect(l: Link): Link {
    var f := UFrame(l.peer.station, true, DISC, false, []);
    if HasRoom(l.sq, f) then var r := Queued(l, UnnumberedSlot, f); r.(peer := r.peer.(state := Disconnecting)) else l
  }

  /** `tiny_fd_send_ui_packet_to` once the peer is known. */
  function PutUi(l: Link, data: seq<byte>): Link {
    Queued(l, UnnumberedSlot, UFrame(l.peer.station, false, UI, false, data))
  }
}
