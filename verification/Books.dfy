/**
 * The books of all peers over whole runs of a station: every entry point in any order, any received frame except
 * RSET with any N(S) and N(R), any timeouts.
 */
module Books {
  import opened Frames
  import opened FramesQueue
  import opened InfoStore
  import opened Station
  import opened Handle
  import opened Window
  import opened Bookkeeping

  ghost predicate Known(h: Handle, station: byte) {
    exists i: nat :: InUse(h, i) && h.peers[i].station == station
  }

  predicate Blank(p: Peer) { !p.canAccept && p.confirm == p.next == p.last == p.nextNr == 0 }

  /** The table as all peers share it. */
  ghost predicate Shared(h: Handle) {
    && Wf(h) && Store(h.iq) && |h.iq.slots| <= 7 && (h.hasFree ==> AnyFree(h.iq))
    && (!Polls(h.config) ==> h.nextPeer == 0 && forall i | 0 <= i < |h.peers| :: h.peers[i].registered)
    && (forall i: nat, j: nat | i < j && InUse(h, i) && InUse(h, j) :: h.peers[i].station != h.peers[j].station)
    && (forall station: byte, n: Seq8 | Stored(h.iq, station, n).Some? :: Known(h, station))
  }

  ghost predicate Balanced(h: Handle) {
    && Shared(h)
    && (forall i | 0 <= i < |h.peers| :: if InUse(h, i) then Sane(View(h, i)) else Blank(h.peers[i]))
  }

  lemma InitialBalanced(h: Handle)
    requires Initial(h)
    ensures Balanced(h)
  {
    EmptyStore(h.iq);
    FindFinds(h.iq, {FreeSlot}, 0, 0);
    assert Matches(h.iq.slots[0], {FreeSlot}, 0, 0);
    forall i | 0 <= i < |h.peers|
      ensures if InUse(h, i) then Sane(View(h, i)) else Blank(h.peers[i])
    {
      assert FreshPeer(h.peers[i], h.config);
    }
  }

  // ------------------------------------------------------------------ confirmations, packets and resets of one peer

  /** The confirmation loop reports one frame for every number it passes: "cannot be confirmed" never happens. */
  lemma EveryFrameFound(c: Config, l: Link, nr: Seq8)
    requires Booked(l)
    ensures var r := ConfirmUpTo(c, l, nr);
            |r.peer.log.confirmed| == |l.peer.log.confirmed| + Ahead(r.peer.confirm, l.peer.confirm)
  {
    var w := Contents(l);
    ConfirmSettles(c, l, w, nr);
    assert Confirmed(c, l, ConfirmUpTo(c, l, nr), w, Settled(|w|, l.peer.confirm, nr));
  }

  lemma FromPut(l: Link, m: Link, w: seq<seq<byte>>, r: Link)
    requires Sane(l) && Up(l.peer) && Held(m, w) && |m.iq.slots| <= 7 && OthersKept(l.iq, m.iq, l.peer.station)
    requires m.peer.station == l.peer.station && m.peer.registered == l.peer.registered && m.peer.state == l.peer.state
    requires r == m.(peer := m.peer.(canAccept := !TxFull(m.peer)), hasFree := AnyFree(m.iq))
    ensures Keeps(l, r)
  {
    hide Holds;
    hide Store;
    hide Stored;
    HeldBooked(m, w);
    assert Booked(r);
  }

  /** The flags guard the window: a packet they let through always finds a slot, and the window never closes up. */
  lemma PutSane(l: Link, data: seq<byte>)
    requires Sane(l)
    ensures Keeps(l, Put(l, data).0)
    ensures Put(l, data).1 == Success <==> |data| <= l.iq.mtu && l.peer.canAccept && l.hasFree
  {
    if |data| <= l.iq.mtu && l.peer.canAccept && l.hasFree {
      var w := Contents(l);
      PutAppends(l, w, data);
      FromPut(l, PutInfo(l, data), w + [data], Put(l, data).0);
    } else {
      SameWindow(l, l);
    }
  }

  /** RSET zeroes the counters and leaves the queued frames where they are: the books stay right if there are none. */
  lemma ResetExact(c: Config, l: Link, f: Frame)
    requires Sane(l) && f.UFrame? && f.ukind == RSET && l.peer.state != Disconnected
    ensures Booked(OnUFrame(c, l, f)) <==> !Unconfirmed(l.peer)
  {
    var r := OnUFrame(c, l, f);
    assert r.iq == l.iq && Size(r.peer) == 0;
    if Unconfirmed(l.peer) {
      assert InWindow(l.peer, l.peer.confirm);
      assert Stored(r.iq, r.peer.station, l.peer.confirm).Some? && !InWindow(r.peer, l.peer.confirm);
    }
  }

  // ------------------------------------------------------------------ one peer served

  lemma ServeShared(h: Handle, i: nat, l: Link)
    requires Balanced(h) && InUse(h, i) && Keeps(View(h, i), l)
    ensures Shared(Back(h, i, l))
  {
    var r := Back(h, i, l);
    forall station: byte, n: Seq8 | Stored(r.iq, station, n).Some?
      ensures Known(r, station)
    {
      if station == h.peers[i].station {
        assert InUse(r, i) && r.peers[i].station == station;
      } else {
        assert Stored(h.iq, station, n).Some?;
        assert Known(h, station);
        var j: nat :| InUse(h, j) && h.peers[j].station == station;
        assert r.peers[j] == h.peers[j] && InUse(r, j);
      }
    }
  }

  lemma ServeOther(h: Handle, i: nat, l: Link, j: nat)
    requires Balanced(h) && InUse(h, i) && Keeps(View(h, i), l)
    requires j != i && InUse(h, j)
    ensures Sane(View(Back(h, i, l), j))
  {
    var v, r := View(h, j), View(Back(h, i, l), j);
    assert v.peer.station != h.peers[i].station && r.peer == v.peer;
    assert forall n: Seq8 :: Stored(r.iq, v.peer.station, n) == Stored(v.iq, v.peer.station, n);
    assert Sane(v);
    assert forall n: Seq8 :: Stored(r.iq, r.peer.station, n).Some? <==> InWindow(r.peer, n);
  }

  lemma ServeKeeps(h: Handle, i: nat, l: Link)
    requires Balanced(h) && InUse(h, i) && Keeps(View(h, i), l)
    ensures Balanced(Back(h, i, l))
  {
    var r := Back(h, i, l);
    ServeShared(h, i, l);
    forall j | 0 <= j < |r.peers|
      ensures if InUse(r, j) then Sane(View(r, j)) else Blank(r.peers[j])
    {
      if j == i {
        assert View(r, i) == l;
      } else if InUse(h, j) {
        ServeOther(h, i, l, j);
      }
    }
  }

  /** Steps that touch neither the I-frame table nor any window. */
  lemma AsideKeeps(h: Handle, r: Handle)
    requires Balanced(h) && Wf(r) && r.config == h.config && r.iq == h.iq && r.hasFree == h.hasFree
    requires r.peers == h.peers && (!Polls(h.config) ==> r.nextPeer == h.nextPeer)
    ensures Balanced(r)
  {
    forall i | 0 <= i < |r.peers|
      ensures if InUse(r, i) then Sane(View(r, i)) else Blank(r.peers[i])
    {
      assert InUse(h, i) ==> Sane(View(h, i));
    }
  }

  lemma BlankHangup(h: Handle)
    requires Balanced(h) && !InUse(h, 0)
    ensures Balanced(Leave(h))
  {
    var r := Leave(h);
    forall station: byte, n: Seq8 | Stored(r.iq, station, n).Some?
      ensures Known(r, station)
    {
      assert Known(h, station);
      var j: nat :| InUse(h, j) && h.peers[j].station == station;
      assert r.peers[j] == h.peers[j] && InUse(r, j);
    }
    forall i | 0 <= i < |r.peers|
      ensures if InUse(r, i) then Sane(View(r, i)) else Blank(r.peers[i])
    {
      assert i > 0 && InUse(h, i) ==> Sane(View(h, i));
    }
  }

  // ------------------------------------------------------------------ a new peer

  lemma FieldAddress(x: byte)
    ensures var a := (x << 2) | 0x01; a & 0xfd == a && a & 0x01 != 0
  {
  }

  lemma NewPeerAt(h: Handle, a: byte, i: nat)
    requires Balanced(h) && Polls(h.config) && i < |h.peers| && !h.peers[i].registered && !Known(h, a)
    ensures Balanced(h.(peers := h.peers[i := h.peers[i].(registered := true, station := a)]))
  {
    var r := h.(peers := h.peers[i := h.peers[i].(registered := true, station := a)]);
    forall station: byte, n: Seq8 | Stored(r.iq, station, n).Some?
      ensures Known(r, station) && station != a
    {
      assert Known(h, station);
      var j: nat :| InUse(h, j) && h.peers[j].station == station;
      assert r.peers[j] == h.peers[j] && InUse(r, j);
    }
    forall j | 0 <= j < |r.peers|
      ensures if InUse(r, j) then Sane(View(r, j)) else Blank(r.peers[j])
    {
      if j == i {
        assert forall n: Seq8 :: Stored(r.iq, a, n) == None;
      } else if InUse(h, j) {
        assert Sane(View(h, j));
      }
    }
  }

  lemma {:induction false} NewPeerFrom(h: Handle, a: byte, i: nat)
    requires Balanced(h) && Polls(h.config) && i <= |h.peers| && !Known(h, a)
    ensures Balanced(RegisterAt(h, a, i))
    decreases |h.peers| - i
  {
    if i < |h.peers| {
      if h.peers[i].registered { NewPeerFrom(h, a, i + 1); } else { NewPeerAt(h, a, i); }
    }
  }

  lemma {:induction false} AllTaken(h: Handle, a: byte, i: nat)
    requires i <= |h.peers| && forall j | i <= j < |h.peers| :: h.peers[j].registered
    ensures RegisterAt(h, a, i) == h
    decreases |h.peers| - i
  {
    if i < |h.peers| { AllTaken(h, a, i + 1); }
  }

  lemma RegisterKeeps(h: Handle, address: byte)
    requires Balanced(h)
    ensures Balanced(Register(h, address))
  {
    var a := (address << 2) | 0x01;
    FieldAddress(address);
    if Polls(h.config) {
      if AddressToPeer(h, a).None? { NewPeerFrom(h, a, 0); }
    } else {
      AllTaken(h, a, 0);
    }
  }

  // ------------------------------------------------------------------ every run

  predicate NoReset(e: Event) { e.Incoming? && e.frame.UFrame? ==> e.frame.ukind != RSET }

  lemma PeerFound(h: Handle, address: byte)
    requires Shared(h)
    ensures var r := AddressToPeer(h, address); r.Some? ==> InUse(h, r.value)
  {
  }

  lemma MarkerKeeps(h: Handle)
    requires Balanced(h)
    ensures Balanced(h.(marker := true))
  {
    AsideKeeps(h, h.(marker := true));
  }

  lemma ReadBalanced(h: Handle, f: Frame)
    requires Balanced(h) && (f.UFrame? ==> f.ukind != RSET)
    ensures Balanced(Read(h, f))
  {
    PeerFound(h, f.station);
    match AddressToPeer(h, f.station)
    case None =>
    case Some(i) =>
      var l := OnRead(h.config, View(h, i), f);
      ReadSane(h.config, View(h, i), f);
      ServeKeeps(h, i, l);
      MarkerKeeps(Back(h, i, l));
  }

  lemma SendBalanced(h: Handle, address: byte, data: seq<byte>)
    requires Balanced(h)
    ensures Balanced(SendPacket(h, address, data).0) && Balanced(SendUi(h, address, data))
  {
    PeerFound(h, AddressField(h, address));
    match AddressToPeer(h, AddressField(h, address))
    case None =>
    case Some(i) =>
      PutSane(View(h, i), data);
      ServeKeeps(h, i, Put(View(h, i), data).0);
      SameWindow(View(h, i), PutUi(View(h, i), data));
      ServeKeeps(h, i, PutUi(View(h, i), data));
  }

  lemma BeginBalanced(h: Handle)
    requires Balanced(h)
    ensures Balanced(Begin(h).0)
  {
    if InUse(h, h.nextPeer) {
      var l := NextFrame(h.config, View(h, h.nextPeer)).0;
      NextSane(h.config, View(h, h.nextPeer));
      ServeKeeps(h, h.nextPeer, l);
      var r := Back(h, h.nextPeer, l);
      AsideKeeps(r, r.(sending := NextFrame(h.config, View(h, h.nextPeer)).1));
    }
  }

  lemma DoneBalanced(h: Handle)
    requires Balanced(h)
    ensures Balanced(Done(h))
  {
    assert h.peers[h.nextPeer := h.peers[h.nextPeer]] == h.peers;
    AsideKeeps(h, Done(h));
  }

  lemma CheckBalanced(h: Handle, e: Event)
    requires Balanced(h) && e.Timeout?
    ensures Balanced(Step(h, e))
  {
    if InUse(h, e.peer) {
      IdleSane(h.config, View(h, e.peer), e.retryDue, e.silent, e.quiet);
      ServeKeeps(h, e.peer, Idle(h.config, View(h, e.peer), e.retryDue, e.silent, e.quiet));
    }
  }

  lemma LeaveBalanced(h: Handle)
    requires Balanced(h)
    ensures Balanced(Leave(h))
  {
    if InUse(h, 0) {
      HangupSane(View(h, 0));
      ServeKeeps(h, 0, Disconnect(View(h, 0)));
    } else {
      BlankHangup(h);
    }
  }

  lemma StepBalanced(h: Handle, e: Event)
    requires Balanced(h) && NoReset(e)
    ensures Balanced(Step(h, e))
  {
    match e
    case Incoming(f) => ReadBalanced(h, f);
    case Packet(address, data) => SendBalanced(h, address, data);
    case UiPacket(address, data) => SendBalanced(h, address, data);
    case Timeout(_, _, _, _) => CheckBalanced(h, e);
    case Start => BeginBalanced(h);
    case Finish => DoneBalanced(h);
    case TakeMarker => AsideKeeps(h, Reclaim(h));
    case Hangup => LeaveBalanced(h);
    case NewPeer(address) => RegisterKeeps(h, address);
  }

  /** In every run without RSET the books of every peer balance. */
  lemma {:induction false} RunBalanced(h: Handle, events: seq<Event>)
    requires Balanced(h) && forall e | e in events :: NoReset(e)
    ensures Balanced(Steps(h, events))
    decreases |events|
  {
    if events != [] {
      assert events[0] in events;
      StepBalanced(h, events[0]);
      assert forall e | e in events[1..] :: e in events;
      RunBalanced(Step(h, events[0]), events[1..]);
    }
  }

  /** At any point of such a run the numbers outstanding for a peer and its I-frame slots match one to one. */
  lemma NumbersMatchSlots(h: Handle, events: seq<Event>, i: nat, n: Seq8)
    requires Initial(h) && (forall e | e in events :: NoReset(e))
    requires InUse(Steps(h, events), i)
    ensures var r := Steps(h, events);
            && (Stored(r.iq, r.peers[i].station, n).Some? <==> InWindow(r.peers[i], n))
            && forall a, b | 0 <= a < |r.iq.slots| && 0 <= b < |r.iq.slots|
                 && SameKey(r.iq.slots[a], r.iq.slots[b]) :: a == b
  {
    InitialBalanced(h);
    RunBalanced(h, events);
    assert Sane(View(Steps(h, events), i));
  }

  /** At any point of such a run a packet that fits is stored whenever the two flags let it through. */
  lemma FlagsKeepTheirWord(h: Handle, events: seq<Event>, i: nat, data: seq<byte>)
    requires Initial(h) && (forall e | e in events :: NoReset(e))
    requires InUse(Steps(h, events), i)
    ensures var l := View(Steps(h, events), i);
            Put(l, data).1 == Success <==> |data| <= l.iq.mtu && l.peer.canAccept && l.hasFree
  {
    InitialBalanced(h);
    RunBalanced(h, events);
    assert Sane(View(Steps(h, events), i));
    PutSane(View(Steps(h, events), i), data);
  }

  // ------------------------------------------------------------------ the shared table

  /** The frames outstanding for the first `n` peers. */
  function Outstanding(h: Handle, n: nat): nat {
    if n == 0 then 0 else Outstanding(h, n - 1) + if InUse(h, n - 1) then Size(h.peers[n - 1]) else 0
  }

  /** The slots of one peer, as many as its outstanding frames. */
  lemma Mine(l: Link) returns (s: set<nat>)
    requires Booked(l)
    ensures |s| == Size(l.peer)
    ensures forall k | k in s :: k < |l.iq.slots| && l.iq.slots[k].frame.station == l.peer.station
  {
    forall n: Seq8 | Ahead(n, l.peer.confirm) < Size(l.peer)
      ensures Stored(l.iq, l.peer.station, n).Some?
    {
      assert InWindow(l.peer, n);
    }
    s := Places(l.iq, l.peer.station, l.peer.confirm, Size(l.peer));
  }

  lemma PeerSlots(h: Handle, i: nat) returns (s: set<nat>)
    requires Balanced(h) && i < |h.peers|
    ensures |s| == (if InUse(h, i) then Size(h.peers[i]) else 0) && (s != {} ==> InUse(h, i))
    ensures forall k | k in s :: k < |h.iq.slots| && h.iq.slots[k].frame.station == h.peers[i].station
  {
    s := {};
    if InUse(h, i) {
      assert Sane(View(h, i));
      s := Mine(View(h, i));
    }
  }

  /** The slots of the first `n` peers, as many as their outstanding frames. */
  lemma {:induction false} Taken(h: Handle, n: nat) returns (s: set<nat>)
    requires Balanced(h) && n <= |h.peers|
    ensures |s| == Outstanding(h, n)
    ensures OwnedSlots(h, n, s)
  {
    if n == 0 {
      s := {};
    } else {
      var less := Taken(h, n - 1);
      var mine := PeerSlots(h, n - 1);
      s := less + mine;
      Joined(h, n, less, mine);
    }
  }

  ghost predicate OwnedSlots(h: Handle, n: nat, s: set<nat>)
    requires n <= |h.peers|
  {
    forall k | k in s :: k < |h.iq.slots| && OwnedBelow(h, n, k)
  }

  lemma Joined(h: Handle, n: nat, less: set<nat>, mine: set<nat>)
    requires Shared(h) && 0 < n <= |h.peers| && OwnedSlots(h, n - 1, less) && (mine != {} ==> InUse(h, n - 1))
    requires forall k | k in mine :: k < |h.iq.slots| && h.iq.slots[k].frame.station == h.peers[n - 1].station
    ensures |less + mine| == |less| + |mine| && OwnedSlots(h, n, less + mine)
  {
    forall k | k in less
      ensures k !in mine && OwnedBelow(h, n, k)
    {
      assert OwnedBelow(h, n - 1, k);
      var j: nat :| j < n - 1 && InUse(h, j) && h.iq.slots[k].frame.station == h.peers[j].station;
    }
    forall k | k in mine
      ensures OwnedBelow(h, n, k)
    {
      assert InUse(h, n - 1);
    }
    assert less !! mine;
  }

  ghost predicate OwnedBelow(h: Handle, n: nat, k: nat)
    requires n <= |h.peers| && k < |h.iq.slots|
  {
    exists j: nat :: j < n && InUse(h, j) && h.iq.slots[k].frame.station == h.peers[j].station
  }

  /** Over all peers together no more frames are ever outstanding than the window has slots. */
  lemma TotalInWindow(h: Handle, events: seq<Event>)
    requires Initial(h) && forall e | e in events :: NoReset(e)
    ensures var r := Steps(h, events); Outstanding(r, |r.peers|) <= |r.iq.slots| <= 7
  {
    InitialBalanced(h);
    RunBalanced(h, events);
    var r := Steps(h, events);
    var s := Taken(r, |r.peers|);
    AtMost(s, |r.iq.slots|, |r.iq.slots|);
  }
}
