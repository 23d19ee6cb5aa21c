/**
 * The station in memory: an array of peer records and two frame tables changed in place, each method proved to
 * do exactly what the corresponding function on values says.
 */
module FdHandle {
  import opened Frames
  import opened FramesQueue
  import opened InfoStore
  import opened Station
  import opened Handle
  import Polling

  class TinyFd {
    const config: Config
    const addr: byte
    const peers: array<Peer>
    const iQueue: FrameTable
    const sQueue: FrameTable
    var hasFree: bool
    var marker: bool
    var nextPeer: nat
    var sending: Outgoing

    ghost predicate Valid()
      reads this, iQueue, sQueue
    {
      && nextPeer < peers.Length
      && iQueue != sQueue && iQueue.frames != sQueue.frames
      && iQueue.Valid() && sQueue.Valid()
    }

    /** The station as a value. */
    ghost function Model(): Handle
      requires Valid()
      reads this, peers, iQueue, iQueue.frames, sQueue, sQueue.frames
    {
      Handle(config, addr, peers[..], iQueue.Model(), sQueue.Model(), hasFree, marker, nextPeer, sending)
    }

    /** What a handler of peer `i` works on. */
    ghost function Here(i: nat): Link
      requires Valid() && i < peers.Length
      reads this, peers, iQueue, iQueue.frames, sQueue, sQueue.frames
    {
      Link(peers[i], iQueue.Model(), sQueue.Model(), hasFree)
    }

    /** Of everything outside the tables only peer `i` differs from `was`. */
    ghost predicate Only(i: nat, was: seq<Peer>)
      requires i < peers.Length
      reads peers
    {
      |was| == peers.Length && peers[..] == was[i := peers[i]]
    }

    lemma Served(i: nat, was: Handle, l: Link)
      requires Valid() && i < peers.Length && Only(i, was.peers) && Here(i) == l
      requires config == was.config && addr == was.addr && marker == was.marker && nextPeer == was.nextPeer
               && sending == was.sending
      ensures Model() == Back(was, i, l)
    {
    }

    /** `tiny_fd_init`, after its checks of the window and the peers. */
    constructor (mode: Mode, address: byte, count: nat, window: nat, mtu: nat, retries: nat)
      requires 2 <= window <= 7 && count > 0
      ensures Valid() && Initial(Model())
      ensures config == Config(mode, address << 2 == 0, retries) && addr == (address << 2) | 0x01
      ensures peers.Length == count && iQueue.frames.Length == window && iQueue.mtu == mtu
    {
      var own: byte := (address << 2) | 0x01;
      var c := Config(mode, address << 2 == 0, retries);
      var station := if Polls(c) then NO_STATION else own;
      var first := Peer(!Polls(c), station, Disconnected, 0, 0, 0, 0, 0, false, {}, retries, false, false,
                        Log([], [], [], []));
      config, addr := c, own;
      peers := new Peer[count](_ => first);
      iQueue := new FrameTable(window, mtu);
      sQueue := new FrameTable(4, 2);
      hasFree, marker, nextPeer, sending := true, c.primary, 0, Nothing;
    }

    // ---------------------------------------------------------------- service queue

    /** `__put_u_s_frame_to_tx_queue`. */
    method PutService(kind: Kind, f: Frame) returns (stored: bool)
      requires Valid()
      modifies sQueue.frames
      ensures Valid() && sQueue.Model() == Allocate(old(sQueue.Model()), kind, f)
      ensures stored <==> HasRoom(old(sQueue.Model()), f)
    {
      var slot := sQueue.Put(kind, f);
      return slot.Some?;
    }

    method SendSFrame(i: nat, command: bool, kind: SKind, poll: bool)
      requires Valid() && i < peers.Length
      modifies sQueue.frames
      ensures Valid() && Here(i) == SendS(old(Here(i)), command, kind, poll)
    {
      var _ := PutService(SupervisorySlot, SFrame(peers[i].station, command, kind, peers[i].nextNr, poll));
    }

    method SendUFrame(i: nat, command: bool, kind: UKind)
      requires Valid() && i < peers.Length
      modifies sQueue.frames
      ensures Valid() && Here(i) == SendU(old(Here(i)), command, kind)
    {
      var _ := PutService(UnnumberedSlot, UFrame(peers[i].station, command, kind, false, []));
    }

    method HasFreeSlots(q: FrameTable) returns (r: bool)
      requires q.Valid()
      ensures r == AnyFree(q.Model())
    {
      var slot := q.GetNext({FreeSlot}, 0, 0);
      return slot.Some?;
    }

    // ---------------------------------------------------------------- acknowledgements

    /** A slot is freed and the application may be let in again. */
    method Release(slot: nat)
      requires Valid() && slot < iQueue.frames.Length
      modifies iQueue, iQueue.frames, `hasFree
      ensures Valid() && iQueue.Model() == FreeAt(old(iQueue.Model()), slot)
      ensures hasFree == (old(hasFree) || AnyFree(iQueue.Model()))
    {
      iQueue.Free(slot);
      var free := HasFreeSlots(iQueue);
      hasFree := hasFree || free;
    }

    /** `__on_frame_confirmed`, and the step of the loop that calls it. */
    method FrameConfirmed(i: nat)
      requires Valid() && i < peers.Length
      modifies peers, iQueue, iQueue.frames, `hasFree
      ensures Valid() && Here(i) == ConfirmOne(config, old(Here(i))) && Only(i, old(peers[..]))
    {
      var p := peers[i];
      var slot := iQueue.GetNext(INFO, p.station, p.confirm);
      if slot.Some? {
        var payload := Payload(iQueue.frames[slot.value].frame);
        Release(slot.value);
        p := p.(log := p.log.(confirmed := p.log.confirmed + [payload]));
      }
      peers[i] := p.(retries := config.maxRetries, confirm := Inc(p.confirm));
    }

    /** `__i_queue_control_confirm_sent_frames` and `__confirm_sent_frames`. */
    method ConfirmSentFrames(i: nat, nr: Seq8)
      requires Valid() && i < peers.Length
      modifies peers, iQueue, iQueue.frames, `hasFree
      ensures Valid() && Here(i) == Confirm(config, old(Here(i)), nr) && Only(i, old(peers[..]))
    {
      ghost var start := Here(i);
      while nr != peers[i].confirm
        invariant Valid() && Only(i, old(peers[..]))
        invariant ConfirmUpTo(config, Here(i), nr) == ConfirmUpTo(config, start, nr)
        decreases Ahead(nr, peers[i].confirm)
      {
        if peers[i].confirm == peers[i].last {
          break;
        }
        ghost var here := Here(i);
        FrameConfirmed(i);
        assert ConfirmUpTo(config, here, nr) == ConfirmUpTo(config, Here(i), nr);
      }
      if Inc(peers[i].last) != peers[i].confirm {
        peers[i] := peers[i].(canAccept := true);
      }
    }

    /** `__resend_all_unconfirmed_frames`. */
    method Resend(i: nat, control: byte, nr: Seq8)
      requires Valid() && i < peers.Length
      modifies peers, sQueue.frames
      ensures Valid() && Here(i) == Rewind(old(Here(i)), control, nr) && Only(i, old(peers[..]))
    {
      ghost var start := Here(i);
      while peers[i].next != nr
        invariant Valid() && Only(i, old(peers[..]))
        invariant Rewind(Here(i), control, nr) == Rewind(start, control, nr)
        decreases Ahead(peers[i].next, nr)
      {
        if peers[i].confirm == peers[i].next {
          var p := peers[i];
          var _ := PutService(UnnumberedSlot,
            UFrame(p.station, true, FRMR, false, RejectInfo(control, p.nextNr, p.next)));
          return;
        }
        peers[i] := peers[i].(next := Dec(peers[i].next));
      }
    }

    // ---------------------------------------------------------------- connection states

    method SwitchToConnected(i: nat)
      requires Valid() && i < peers.Length
      modifies peers, iQueue.frames, `hasFree
      ensures Valid() && Here(i) == SwitchConnected(old(Here(i))) && Only(i, old(peers[..]))
    {
      if peers[i].state != Connected {
        peers[i] := peers[i].(state := Connected);
        peers[i] := Zeroed(peers[i]);
        iQueue.ResetStation(peers[i].station);
        peers[i] := peers[i].(canAccept := true);
        var free := HasFreeSlots(iQueue);
        hasFree := hasFree || free;
        peers[i] := Notified(peers[i], true);
      }
    }

    method SwitchToDisconnected(i: nat)
      requires Valid() && i < peers.Length
      modifies peers, iQueue.frames
      ensures Valid() && Here(i) == SwitchDisconnected(old(Here(i))) && Only(i, old(peers[..]))
    {
      if peers[i].state != Disconnected {
        peers[i] := peers[i].(state := Disconnected);
        peers[i] := Zeroed(peers[i]);
        iQueue.ResetStation(peers[i].station);
        peers[i] := peers[i].(canAccept := false);
        peers[i] := Notified(peers[i], false);
      }
    }

    // ---------------------------------------------------------------- received frames

    /** `__check_received_frame`. */
    method CheckReceivedFrame(i: nat, ns: Seq8) returns (expected: bool)
      requires Valid() && i < peers.Length
      modifies peers, sQueue.frames
      ensures Valid() && Here(i) == CheckReceived(old(Here(i)), ns) && Only(i, old(peers[..]))
      ensures expected <==> ns == old(peers[i].nextNr)
    {
      if ns == peers[i].nextNr {
        peers[i] := peers[i].(nextNr := Inc(peers[i].nextNr));
        peers[i] := peers[i].(sentReject := false);
        return true;
      }
      if !peers[i].sentReject {
        peers[i] := peers[i].(sentReject := true);
        SendSFrame(i, true, REJ, false);
      }
      return false;
    }

    /** `__on_i_frame_read`. */
    method OnInfo(i: nat, f: Frame)
      requires Valid() && i < peers.Length && f.IFrame?
      modifies peers, iQueue, iQueue.frames, sQueue.frames, `hasFree
      ensures Valid() && Here(i) == OnIFrame(config, old(Here(i)), f) && Only(i, old(peers[..]))
    {
      var expected := CheckReceivedFrame(i, f.ns);
      ConfirmSentFrames(i, f.nr);
      if expected {
        peers[i] := peers[i].(log := peers[i].log.(received := peers[i].log.received + [f.payload]));
        if AllSent(peers[i]) && peers[i].sentNr != peers[i].nextNr {
          SendSFrame(i, false, RR, false);
        }
      }
    }

    /** `__on_s_frame_read`. */
    method OnSupervisory(i: nat, f: Frame)
      requires Valid() && i < peers.Length && f.SFrame?
      modifies peers, iQueue, iQueue.frames, sQueue.frames, `hasFree
      ensures Valid() && Here(i) == OnSFrame(config, old(Here(i)), f) && Only(i, old(peers[..]))
    {
      ConfirmSentFrames(i, f.nr);
      match f.kind
      case REJ => Resend(i, Control(f), f.nr);
      case RR =>
        if f.command && AllSent(peers[i]) {
          SendSFrame(i, false, RR, f.poll);
        }
      case RNR =>
      case SREJ => peers[i] := peers[i].(srej := peers[i].srej + {f.nr});
    }

    /** The branch of `__on_u_frame_read` for SABM and SNRM. */
    method OnConnectRequest(i: nat)
      requires Valid() && i < peers.Length
      modifies peers, iQueue.frames, sQueue.frames, `hasFree
      ensures Valid() && Here(i) == OnSetup(old(Here(i))) && Only(i, old(peers[..]))
    {
      SendUFrame(i, false, UA);
      if peers[i].state != Disconnected && peers[i].state != Connecting {
        SwitchToDisconnected(i);
      }
      SwitchToConnected(i);
    }

    /** The branch for FRMR. */
    method OnFrameReject(i: nat)
      requires Valid() && i < peers.Length
      modifies peers, iQueue.frames, sQueue.frames
      ensures Valid() && Only(i, old(peers[..]))
      ensures var r := SendU(SwitchDisconnected(old(Here(i))), true, SetupCommand(config));
              Here(i) == r.(peer := r.peer.(state := Connecting))
    {
      if peers[i].state != Disconnected {
        SwitchToDisconnected(i);
      }
      SendUFrame(i, true, if config.mode == NRM then SNRM else SABM);
      peers[i] := peers[i].(state := Connecting);
    }

    /** `__on_u_frame_read`. */
    method OnUnnumbered(i: nat, f: Frame)
      requires Valid() && i < peers.Length && f.UFrame?
      modifies peers, iQueue.frames, sQueue.frames, `hasFree
      ensures Valid() && Here(i) == OnUFrame(config, old(Here(i)), f) && Only(i, old(peers[..]))
    {
      var k := f.ukind;
      if peers[i].state == Disconnected && k != SABM && k != SNRM && k != UI {
        if f.command {
          SendUFrame(i, false, DM);
        }
        return;
      }
      match k
      case SABM => OnConnectRequest(i);
      case SNRM => OnConnectRequest(i);
      case DISC =>
        SendUFrame(i, false, UA);
        SwitchToDisconnected(i);
      case RSET =>
        peers[i] := Zeroed(peers[i]);
        SendUFrame(i, false, UA);
      case FRMR => OnFrameReject(i);
      case UA =>
        if peers[i].state == Connecting {
          SwitchToConnected(i);
        } else if peers[i].state == Disconnecting {
          SwitchToDisconnected(i);
        }
      case DM => SwitchToDisconnected(i);
      case UI =>
        if |f.info| > 0 {
          peers[i] := peers[i].(log := peers[i].log.(uis := peers[i].log.uis + [f.info]));
        }
      case Unknown(_) =>
    }

    /** `on_frame_read` for a known peer. */
    method OnPeerRead(i: nat, f: Frame)
      requires Valid() && i < peers.Length
      modifies peers, iQueue, iQueue.frames, sQueue.frames, `hasFree
      ensures Valid() && Here(i) == OnRead(config, old(Here(i)), f) && Only(i, old(peers[..]))
    {
      peers[i] := peers[i].(kaConfirmed := true);
      if f.UFrame? {
        OnUnnumbered(i, f);
      } else if peers[i].state != Connected && peers[i].state != Disconnecting {
        SendUFrame(i, false, DM);
      } else if f.IFrame? {
        OnInfo(i, f);
      } else {
        OnSupervisory(i, f);
      }
    }

    method SearchPeers(address: byte) returns (r: Option<nat>)
      requires Valid()
      ensures r == SearchPeer(peers[..], address, 0)
    {
      var i: nat := 0;
      while i < peers.Length
        invariant i <= peers.Length
        invariant SearchPeer(peers[..], address, 0) == SearchPeer(peers[..], address, i)
      {
        if peers[i].registered && peers[i].station == address {
          return Some(i);
        }
        i := i + 1;
      }
      return None;
    }

    /** `__address_field_to_peer`. */
    method FindPeer(address: byte) returns (r: Option<nat>)
      requires Valid()
      ensures r == AddressToPeer(Model(), address)
    {
      var a := address & 0xfd;
      if a & 0x01 == 0 {
        return None;
      }
      if !config.primary || config.mode == ABM {
        return if a == addr then Some(0) else None;
      }
      r := SearchPeers(a);
    }

    /** `on_frame_read`. */
    method OnFrameRead(f: Frame)
      requires Valid()
      modifies this, peers, iQueue, iQueue.frames, sQueue.frames
      ensures Valid() && Model() == Read(old(Model()), f)
    {
      ghost var was := Model();
      var peer := FindPeer(f.station);
      if peer.None? {
        return;
      }
      OnPeerRead(peer.value, f);
      Served(peer.value, was, OnRead(config, View(was, peer.value), f));
      if config.mode == NRM && f.poll {
        marker := true;
      }
    }

    // ---------------------------------------------------------------- transmission

    /** `tiny_fd_get_next_s_u_frame_to_send`. */
    method GetNextService(i: nat) returns (out: Outgoing)
      requires Valid() && i < peers.Length
      modifies peers
      ensures Valid() && (Here(i), out) == NextService(old(Here(i))) && Only(i, old(peers[..]))
    {
      var slot := sQueue.GetNext(SERVICE, peers[i].station, 0);
      if slot.None? {
        return Nothing;
      }
      var f := sQueue.frames[slot.value].frame;
      if f.SFrame? {
        peers[i] := peers[i].(sentNr := f.nr);
      }
      return Service(slot.value);
    }

    /** The I-frame in a slot gets the current N(R) as it leaves. */
    method Refresh(i: nat, slot: nat)
      requires Valid() && i < peers.Length && slot < iQueue.frames.Length
      modifies peers, iQueue.frames
      ensures Valid() && Here(i) == SendStored(old(Here(i)), slot) && Only(i, old(peers[..]))
    {
      iQueue.SetFrame(slot, Refreshed(iQueue.frames[slot].frame, peers[i].nextNr));
      peers[i] := peers[i].(sentNr := peers[i].nextNr);
    }

    /** The scan of the SREJ mask for its lowest bit. */
    method LowestRequested(mask: set<Seq8>) returns (n: Seq8)
      requires mask != {}
      ensures n == Lowest(mask, 0) && n in mask
    {
      n := 0;
      while n !in mask
        invariant Lowest(mask, n) == Lowest(mask, 0)
        invariant forall k: Seq8 | k < n :: k !in mask
        decreases 8 - n
      {
        assert n < 7 by {
          var k :| k in mask;
        }
        n := n + 1;
      }
    }

    /** `tiny_fd_get_next_i_frame`. */
    method GetNextInfo(i: nat) returns (out: Outgoing)
      requires Valid() && i < peers.Length
      modifies peers, iQueue.frames
      ensures Valid() && (Here(i), out) == NextInfo(old(Here(i))) && Only(i, old(peers[..]))
    {
      if peers[i].state == Disconnected || peers[i].state == Connecting {
        return Nothing;
      }
      if peers[i].srej != {} {
        var n := LowestRequested(peers[i].srej);
        var wanted := iQueue.GetNext(INFO, peers[i].station, n);
        peers[i] := peers[i].(srej := peers[i].srej - {n});
        if wanted.None? {
          return Nothing;
        }
        Refresh(i, wanted.value);
        return Info(wanted.value);
      }
      var slot := iQueue.GetNext(INFO, peers[i].station, peers[i].next);
      if slot.None? {
        return Nothing;
      }
      peers[i] := peers[i].(next := Inc(peers[i].next));
      Refresh(i, slot.value);
      return Info(slot.value);
    }

    method PutFiller(i: nat)
      requires Valid() && i < peers.Length
      modifies sQueue.frames
      ensures Valid() && Here(i) == Filler(config, old(Here(i)))
    {
      if config.primary && (peers[i].state == Disconnected || peers[i].state == Connecting) {
        var _ := PutService(SupervisorySlot, UFrame(peers[i].station, true, SNRM, false, []));
      } else {
        SendSFrame(i, false, RR, false);
      }
    }

    method Pick(i: nat) returns (out: Outgoing)
      requires Valid() && i < peers.Length
      modifies peers, iQueue.frames, sQueue.frames
      ensures Valid() && (Here(i), out) == Picked(config, old(Here(i))) && Only(i, old(peers[..]))
    {
      out := GetNextService(i);
      if out == Nothing {
        out := GetNextInfo(i);
        if out == Nothing && config.mode == NRM {
          PutFiller(i);
          out := GetNextService(i);
        }
      }
    }

    method SetPoll(i: nat, out: Outgoing)
      requires Valid() && i < peers.Length && InTables(Here(i), out)
      modifies iQueue.frames, sQueue.frames
      ensures Valid() && Here(i) == PollSet(config, old(Here(i)), out)
    {
      match out
      case Nothing =>
      case Service(slot) =>
        if GetsPoll(config, peers[i], sQueue.frames[slot].frame) {
          sQueue.SetFrame(slot, WithPoll(sQueue.frames[slot].frame));
        }
      case Info(slot) =>
        if GetsPoll(config, peers[i], iQueue.frames[slot].frame) {
          iQueue.SetFrame(slot, WithPoll(iQueue.frames[slot].frame));
        }
    }

    /** `tiny_fd_get_next_frame_to_send`. */
    method GetNextFrame(i: nat) returns (out: Outgoing)
      requires Valid() && i < peers.Length
      modifies peers, iQueue.frames, sQueue.frames
      ensures Valid() && (Here(i), out) == NextFrame(config, old(Here(i))) && Only(i, old(peers[..]))
    {
      out := Pick(i);
      SetPoll(i, out);
    }

    /** The part of `tiny_fd_get_tx_data` that starts a transmission. */
    method StartFrame() returns (frame: Option<Frame>)
      requires Valid()
      modifies this, peers, iQueue.frames, sQueue.frames
      ensures Valid() && (Model(), frame) == Begin(old(Model()))
    {
      ghost var was := Model();
      if sending != Nothing || !marker || !peers[nextPeer].registered {
        return None;
      }
      var out := GetNextFrame(nextPeer);
      ghost var l := Here(nextPeer);
      Served(nextPeer, was, l);
      match out {
        case Nothing => frame := None;
        case Service(slot) => frame := Some(sQueue.frames[slot].frame);
        case Info(slot) => frame := Some(iQueue.frames[slot].frame);
      }
      assert out != Nothing ==> frame == Some(FrameAt(l, out));
      sending := out;
      assert Model() == Back(was, nextPeer, l).(sending := out);
    }

    /** `on_frame_send`. */
    method OnFrameSend()
      requires Valid() && InTables(Here(nextPeer), sending) && sending != Nothing
      modifies this, sQueue, sQueue.frames
      ensures Valid() && Model() == Done(old(Model()))
    {
      var f: Frame;
      match sending {
        case Service(slot) => f := sQueue.frames[slot].frame;
        case Info(slot) => f := iQueue.frames[slot].frame;
      }
      var peer := FindPeer(f.station);
      if peer.None? {
        return;
      }
      if sending.Service? {
        sQueue.Free(sending.slot);
      }
      sending := Nothing;
      if config.mode == NRM && f.poll {
        if config.primary {
          var next, _ := Polling.SwitchPeer(peers, nextPeer);
          nextPeer := next;
        }
        marker := false;
      }
      assert peers[..][old(nextPeer) := peers[old(nextPeer)]] == peers[..];
    }

    // ---------------------------------------------------------------- application and clock

    /** `__put_i_frame_to_tx_queue`. */
    method PutInfoFrame(i: nat, data: seq<byte>) returns (stored: bool)
      requires Valid() && i < peers.Length
      modifies peers, iQueue.frames
      ensures Valid() && Here(i) == PutInfo(old(Here(i)), data) && Only(i, old(peers[..]))
      ensures stored <==>
              HasRoom(old(iQueue.Model()), IFrame(old(peers[i].station), false, old(peers[i].last), 0, false, data))
    {
      var slot := iQueue.Put(InfoSlot, IFrame(peers[i].station, false, peers[i].last, 0, false, data));
      stored := slot.Some?;
      if stored {
        peers[i] := peers[i].(last := Inc(peers[i].last));
      }
    }

    /** `tiny_fd_send_packet_to` for a known peer. */
    method SendToPeer(i: nat, data: seq<byte>) returns (result: PutResult)
      requires Valid() && i < peers.Length
      modifies peers, iQueue.frames, `hasFree
      ensures Valid() && (Here(i), result) == Put(old(Here(i)), data) && Only(i, old(peers[..]))
    {
      if |data| > iQueue.mtu {
        return TooLarge;
      }
      if !peers[i].canAccept || !hasFree {
        return PutResult.Timeout;
      }
      var stored := PutInfoFrame(i, data);
      hasFree := false;
      if stored {
        var free := HasFreeSlots(iQueue);
        hasFree := free;
      }
      peers[i] := peers[i].(canAccept := !TxFull(peers[i]));
      result := if stored then Success else PutResult.Timeout;
    }

    /** `tiny_fd_send_packet_to`. */
    method SendPacketTo(address: byte, data: seq<byte>) returns (result: PutResult)
      requires Valid()
      modifies this, peers, iQueue.frames
      ensures Valid() && (Model(), result) == SendPacket(old(Model()), address, data)
    {
      ghost var was := Model();
      var field := ((if !config.primary && address == 0 then addr else address) << 2) | 0x01;
      assert field == AddressField(was, address);
      var peer := FindPeer(field);
      if peer.None? {
        return UnknownPeer;
      }
      result := SendToPeer(peer.value, data);
      ghost var l := Here(peer.value);
      assert (l, result) == Put(View(was, peer.value), data);
      Served(peer.value, was, l);
    }

    /** `tiny_fd_connected_check_idle_timeout`. */
    method CheckConnected(i: nat, retryDue: bool, silent: bool, quiet: bool)
      requires Valid() && i < peers.Length
      modifies peers, iQueue.frames, sQueue.frames
      ensures Valid() && Here(i) == ConnectedIdle(config, old(Here(i)), retryDue, silent, quiet)
              && Only(i, old(peers[..]))
    {
      if Unconfirmed(peers[i]) && AllSent(peers[i]) && retryDue {
        if peers[i].retries > 0 {
          peers[i] := peers[i].(retries := peers[i].retries - 1);
          Resend(i, 0, peers[i].confirm);
        } else {
          SwitchToDisconnected(i);
        }
      } else if silent {
        if !peers[i].kaConfirmed {
          SwitchToDisconnected(i);
        }
      } else if quiet {
        peers[i] := peers[i].(kaConfirmed := false);
        SendSFrame(i, false, RR, true);
      }
    }

    /** `tiny_fd_disconnected_check_idle_timeout`. */
    method CheckDisconnected(i: nat, retryDue: bool)
      requires Valid() && i < peers.Length
      modifies peers, sQueue.frames
      ensures Valid() && Here(i) == DisconnectedIdle(config, old(Here(i)), retryDue) && Only(i, old(peers[..]))
    {
      if retryDue && config.primary {
        SendUFrame(i, true, if config.mode == NRM then SNRM else SABM);
        peers[i] := peers[i].(state := Connecting);
      }
    }

    /** The timeouts `tiny_fd_get_tx_data` checks first. */
    method CheckTimeouts(i: nat, retryDue: bool, silent: bool, quiet: bool)
      requires Valid() && InUse(Model(), i)
      modifies peers, iQueue.frames, sQueue.frames
      ensures Valid() && Model() == Check(old(Model()), i, retryDue, silent, quiet)
    {
      ghost var was := Model();
      if peers[i].state == Connected || peers[i].state == Disconnecting {
        CheckConnected(i, retryDue, silent, quiet);
      } else {
        CheckDisconnected(i, retryDue);
      }
      Served(i, was, Idle(config, View(was, i), retryDue, silent, quiet));
    }

    /** `tiny_fd_disconnect`. */
    method HangUp() returns (queued: bool)
      requires Valid()
      modifies peers, sQueue.frames
      ensures Valid() && Model() == Leave(old(Model()))
      ensures queued <==> AnyFree(old(sQueue.Model()))
      ensures peers[0].state == if queued then Disconnecting else old(peers[0].state)
    {
      ghost var was := Model();
      queued := PutService(UnnumberedSlot, UFrame(peers[0].station, true, DISC, false, []));
      if queued {
        peers[0] := peers[0].(state := Disconnecting);
      }
      Served(0, was, Disconnect(View(was, 0)));
    }

    /** `tiny_fd_send_ui_packet_to` for a known peer. */
    method SendUiToPeer(i: nat, data: seq<byte>) returns (queued: bool)
      requires Valid() && i < peers.Length && |data| <= sQueue.mtu
      modifies sQueue.frames
      ensures Valid() && Here(i) == PutUi(old(Here(i)), data) && Only(i, old(peers[..]))
      ensures queued <==> AnyFree(old(sQueue.Model()))
    {
      queued := PutService(UnnumberedSlot, UFrame(peers[i].station, false, UI, false, data));
    }

    /** `tiny_fd_send_ui_packet_to`. */
    method SendUiPacketTo(address: byte, data: seq<byte>) returns (queued: bool)
      requires Valid()
      modifies sQueue.frames
      ensures Valid() && Model() == SendUi(old(Model()), address, data)
      ensures var was := old(Model());
              queued <==>
              |data| <= was.sq.mtu && AddressToPeer(was, AddressField(was, address)).Some? && AnyFree(was.sq)
    {
      hide PutUi;
      hide AnyFree;
      hide AddressToPeer;
      ghost var was := Model();
      if |data| > sQueue.mtu {
        return false;
      }
      var field := ((if !config.primary && address == 0 then addr else address) << 2) | 0x01;
      assert field == AddressField(was, address);
      var peer := FindPeer(field);
      if peer.None? {
        return false;
      }
      queued := SendUiToPeer(peer.value, data);
      Served(peer.value, was, PutUi(View(was, peer.value), data));
    }

    /** The primary takes the marker back in `tiny_fd_get_tx_data`. */
    method TakeMarkerBack()
      requires Valid()
      modifies `marker
      ensures Valid() && Model() == Reclaim(old(Model()))
    {
      if config.primary {
        marker := true;
      }
    }

    /** `tiny_fd_register_peer`. */
    method RegisterPeer(address: byte) returns (done: bool)
      requires Valid()
      modifies peers
      ensures Valid() && Model() == Register(old(Model()), address)
      ensures done <==> 0 < address <= 63 && AddressToPeer(old(Model()), (address << 2) | 0x01).None?
                        && exists i :: 0 <= i < peers.Length && !old(peers[i].registered)
    {
      ghost var was := Model();
      var a := (address << 2) | 0x01;
      if address > 63 || address == 0 {
        return false;
      }
      var known := FindPeer(a);
      if known.Some? {
        return false;
      }
      var i: nat := 0;
      while i < peers.Length
        invariant i <= peers.Length && Model() == was
        invariant RegisterAt(was, a, 0) == RegisterAt(was, a, i)
        invariant forall j | 0 <= j < i :: peers[j].registered
      {
        if !peers[i].registered {
          peers[i] := peers[i].(registered := true, station := a);
          return true;
        }
        i := i + 1;
      }
      return false;
    }
  }
}
