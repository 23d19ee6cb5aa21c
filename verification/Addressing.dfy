/**
 * Who a packet goes to and who a frame comes from: the peer record in use under an address, found by every entry
 * point that is given one, from its registration on.
 */
module Addressing {
  import opened Frames
  import opened FramesQueue
  import opened InfoStore
  import opened Station
  import opened Handle
  import opened Connections

  /** Record `i` is the one in use under the address field `a`. */
  ghost predicate Owner(h: Handle, i: nat, a: byte) {
    && InUse(h, i) && PlainAddress(a) && h.peers[i].station == a
    && (if Polls(h.config) then forall j: nat | InUse(h, j) && j != i :: h.peers[j].station != a else h.addr == a)
  }

  /** No record is in use under it. */
  ghost predicate Unowned(h: Handle, a: byte) {
    if Polls(h.config) then forall j: nat | InUse(h, j) :: h.peers[j].station != a else h.addr != a
  }

  lemma OwnerFound(h: Handle, i: nat, a: byte)
    requires Wf(h) && Owner(h, i, a)
    ensures AddressToPeer(h, a) == Some(i)
  {
    if Polls(h.config) {
      var r := SearchPeer(h.peers, a, 0);
      assert r.Some? ==> InUse(h, r.value);
    }
  }

  lemma UnownedMissed(h: Handle, a: byte)
    requires Wf(h) && Unowned(h, a) && PlainAddress(a)
    ensures AddressToPeer(h, a) == None
  {
    if Polls(h.config) {
      var r := SearchPeer(h.peers, a, 0);
      assert r.Some? ==> InUse(h, r.value);
    }
  }

  /** Nothing but peer `i`, the two tables and the flag of free slots has changed. */
  ghost predicate OnlyPeer(h: Handle, r: Handle, i: nat) {
    && |r.peers| == |h.peers| && (forall j | 0 <= j < |h.peers| && j != i :: r.peers[j] == h.peers[j])
    && r.config == h.config && r.addr == h.addr && r.nextPeer == h.nextPeer && r.sending == h.sending
  }

  lemma BackOnly(h: Handle, i: nat, l: Link)
    requires i < |h.peers|
    ensures OnlyPeer(h, Back(h, i, l), i) && Back(h, i, l).marker == h.marker && View(Back(h, i, l), i) == l
  {
  }

  lemma ShiftPlain(a: byte)
    ensures PlainAddress((a << 2) | 0x01)
    ensures a <= 63 && a != 0 ==> (a << 2) | 0x01 != 0x01
  {
  }

  lemma ShiftOneToOne(a: byte, b: byte)
    requires a <= 63 && b <= 63 && (a << 2) | 0x01 == (b << 2) | 0x01
    ensures a == b
  {
  }

  // ------------------------------------------------------------------ registration of one peer

  lemma {:induction false} RegisterAtTakes(h: Handle, a: byte, i: nat) returns (k: nat)
    requires i <= |h.peers|
    ensures RegisterAt(h, a, i) == h ==> forall j | i <= j < |h.peers| :: h.peers[j].registered
    ensures RegisterAt(h, a, i) != h ==> Taken(h, RegisterAt(h, a, i), a, k)
    decreases |h.peers| - i
  {
    k := i;
    if i < |h.peers| {
      if h.peers[i].registered { k := RegisterAtTakes(h, a, i + 1); }
    }
  }

  /** Record `k`, free before, has been taken for `a`, and that is all. */
  ghost predicate Taken(h: Handle, r: Handle, a: byte, k: nat) {
    && k < |h.peers| && !h.peers[k].registered
    && r == h.(peers := h.peers[k := h.peers[k].(registered := true, station := a)])
  }

  // ------------------------------------------------------------------ packets

  /** What the application's call does: as much as it does to one peer and no other, or nothing. */
  ghost predicate Reaches(h: Handle, address: byte, data: seq<byte>, i: nat)
    requires Wf(h) && i < |h.peers|
  {
    && (var (r, result) := SendPacket(h, address, data);
        (View(r, i), result) == Put(View(h, i), data) && OnlyPeer(h, r, i) && r.marker == h.marker)
    && (var u := SendUi(h, address, data);
        if |data| <= h.sq.mtu then View(u, i) == PutUi(View(h, i), data) && OnlyPeer(h, u, i) && u.marker == h.marker
        else u == h)
  }

  ghost predicate Misses(h: Handle, address: byte, data: seq<byte>)
    requires Wf(h)
  {
    SendPacket(h, address, data) == (h, UnknownPeer) && SendUi(h, address, data) == h
  }

  lemma FoundReaches(h: Handle, address: byte, data: seq<byte>, i: nat)
    requires Wf(h) && AddressToPeer(h, AddressField(h, address)) == Some(i)
    ensures Reaches(h, address, data, i)
  {
    hide Put;
    hide PutUi;
    BackOnly(h, i, Put(View(h, i), data).0);
    BackOnly(h, i, PutUi(View(h, i), data));
  }

  /** A packet for address `a` goes to the peer registered under the address field of `a`, or to nobody. */
  lemma PacketReaches(h: Handle, a: byte, data: seq<byte>)
    requires Wf(h) && Polls(h.config) && 0 < a <= 63
    ensures forall i: nat | Owner(h, i, (a << 2) | 0x01) :: Reaches(h, a, data, i)
    ensures Unowned(h, (a << 2) | 0x01) ==> Misses(h, a, data)
  {
    hide Reaches;
    var f := (a << 2) | 0x01;
    ShiftPlain(a);
    forall i: nat | Owner(h, i, f)
      ensures Reaches(h, a, data, i)
    {
      OwnerFound(h, i, f);
      FoundReaches(h, a, data, i);
    }
    if Unowned(h, f) { UnownedMissed(h, f); }
  }

  // ------------------------------------------------------------------ frames

  /** Peer `i` is given the frame, which leaves the others alone; in NRM its P/F bit hands over the marker. */
  ghost predicate Hears(h: Handle, f: Frame, i: nat)
    requires Wf(h) && i < |h.peers|
  {
    var r := Read(h, f);
    && View(r, i) == OnRead(h.config, View(h, i), f) && OnlyPeer(h, r, i)
    && (r.marker <==> h.marker || (h.config.mode == NRM && f.poll))
  }

  lemma FoundHears(h: Handle, f: Frame, i: nat)
    requires Wf(h) && AddressToPeer(h, f.station) == Some(i)
    ensures Hears(h, f, i)
  {
    hide OnRead;
    hide AddressToPeer;
    BackOnly(h, i, OnRead(h.config, View(h, i), f));
  }

  /** The C/R bit does not matter to the search. */
  lemma Unmarked(h: Handle, b: byte)
    requires Wf(h)
    ensures AddressToPeer(h, b) == AddressToPeer(h, b & 0xfd)
    ensures if b & 0x01 == 0 then AddressToPeer(h, b) == None else PlainAddress(b & 0xfd)
  {
    MaskTwice(b);
  }

  /**
   * A frame is heard by the record in use under its address field, whether it is a command or a response, and by
   * nobody if there is none or the field goes on in a second byte.
   */
  lemma FrameHeard(h: Handle, f: Frame)
    requires Wf(h)
    ensures forall i: nat | Owner(h, i, f.station & 0xfd) :: Hears(h, f, i)
    ensures f.station & 0x01 == 0 || Unowned(h, f.station & 0xfd) ==> Read(h, f) == h
  {
    hide Hears;
    hide OnRead;
    hide AddressToPeer;
    hide PlainAddress;
    var a := f.station & 0xfd;
    Unmarked(h, f.station);
    forall i: nat | Owner(h, i, a)
      ensures Hears(h, f, i)
    {
      OwnerFound(h, i, a);
      FoundHears(h, f, i);
    }
    if f.station & 0x01 != 0 && Unowned(h, a) { UnownedMissed(h, a); }
  }

  lemma MaskTwice(b: byte)
    ensures (b & 0xfd) & 0xfd == b & 0xfd && (b & 0xfd) & 0x01 == b & 0x01
    ensures b & 0x01 == 0 || b & 0x01 == 1
  {
  }

  // ------------------------------------------------------------------ stations that do not poll

  /** A station that does not poll works with its first record, under its own address. */
  ghost predicate OwnPeer(h: Handle) {
    Wf(h) && !Polls(h.config) && InUse(h, 0) && h.peers[0].station == h.addr
  }

  lemma StepOwnPeer(h: Handle, e: Event)
    requires OwnPeer(h)
    ensures OwnPeer(Step(h, e))
  {
    if e.NewPeer? {
      hide AddressToPeer;
      var _ := RegisterAtTakes(h, (e.address << 2) | 0x01, 0);
    } else {
      hide Step;
      StepIdentity(h, e, 0);
    }
  }

  lemma {:induction false} RunOwnPeer(h: Handle, events: seq<Event>)
    requires OwnPeer(h)
    ensures OwnPeer(Steps(h, events)) && Steps(h, events).addr == h.addr
    decreases |events|
  {
    if events != [] {
      StepOwnPeer(h, events[0]);
      RunOwnPeer(Step(h, events[0]), events[1..]);
    }
  }

  lemma OwnFieldReaches(h: Handle, own: byte, a: byte, data: seq<byte>)
    requires OwnPeer(h) && own <= 63 && a <= 63 && h.addr == (own << 2) | 0x01 && (h.config.primary || a != 0)
    ensures if a == own then Reaches(h, a, data, 0) else Misses(h, a, data)
  {
    hide Reaches;
    var f := (a << 2) | 0x01;
    ShiftPlain(a);
    if a == own {
      OwnerFound(h, 0, f);
      FoundReaches(h, a, data, 0);
    } else {
      if f == h.addr { ShiftOneToOne(a, own); }
      UnownedMissed(h, f);
    }
  }

  /**
   * At any point of a run of a balanced station or a secondary: a packet for its own address reaches its one peer, and
   * a packet for another address nobody. Only a secondary's packet for address 0 takes another way.
   */
  lemma OwnPacketReaches(h: Handle, events: seq<Event>, own: byte, a: byte, data: seq<byte>)
    requires Initial(h) && !Polls(h.config) && own <= 63 && h.addr == (own << 2) | 0x01
    requires a <= 63 && (h.config.primary || a != 0)
    ensures var r := Steps(h, events); if a == own then Reaches(r, a, data, 0) else Misses(r, a, data)
  {
    RunOwnPeer(h, events);
    OwnFieldReaches(Steps(h, events), own, a, data);
  }

  // ------------------------------------------------------------------ stations that poll

  /** No two records are in use under one address. */
  ghost predicate Distinct(h: Handle) {
    && Wf(h) && Polls(h.config)
    && forall i: nat, j: nat | InUse(h, i) && InUse(h, j) && i != j :: h.peers[i].station != h.peers[j].station
  }

  /** A registration that changes anything takes one free record, which from then on owns the address. */
  lemma RegisterTakes(h: Handle, a: byte) returns (k: nat)
    requires Distinct(h) && Register(h, a) != h
    ensures 0 < a <= 63 && Taken(h, Register(h, a), (a << 2) | 0x01, k)
    ensures Distinct(Register(h, a)) && Owner(Register(h, a), k, (a << 2) | 0x01)
  {
    var f, r := (a << 2) | 0x01, Register(h, a);
    ShiftPlain(a);
    k := RegisterAtTakes(h, f, 0);
    assert AddressToPeer(h, f).None?;
    assert forall j: nat | InUse(h, j) :: h.peers[j].station != f;
    assert forall j: nat | InUse(r, j) && j != k :: InUse(h, j) && r.peers[j].station == h.peers[j].station;
  }

  lemma StepOwners(h: Handle, e: Event, i: nat, a: byte)
    requires Distinct(h) && Owner(h, i, a)
    ensures Distinct(Step(h, e)) && Owner(Step(h, e), i, a)
  {
    var r := Step(h, e);
    if e.NewPeer? {
      if r != h {
        var k := RegisterTakes(h, e.address);
        assert k != i && InUse(r, i);
      }
    } else {
      forall j | 0 <= j < |h.peers|
        ensures SameId(h.peers[j], r.peers[j])
      {
        StepIdentity(h, e, j);
      }
      assert forall j: nat :: InUse(r, j) <==> InUse(h, j);
    }
  }

  lemma {:induction false} OwnersStay(h: Handle, events: seq<Event>, i: nat, a: byte)
    requires Distinct(h) && Owner(h, i, a)
    ensures Distinct(Steps(h, events)) && Owner(Steps(h, events), i, a)
    decreases |events|
  {
    if events != [] {
      StepOwners(h, events[0], i, a);
      OwnersStay(Step(h, events[0]), events[1..], i, a);
    }
  }

  lemma {:induction false} RunDistinct(h: Handle, events: seq<Event>)
    requires Distinct(h)
    ensures Distinct(Steps(h, events))
    decreases |events|
  {
    if events != [] {
      var e, r := events[0], Step(h, events[0]);
      if e.NewPeer? {
        if r != h { var _ := RegisterTakes(h, e.address); }
      } else {
        forall j | 0 <= j < |h.peers|
          ensures SameId(h.peers[j], r.peers[j])
        {
          StepIdentity(h, e, j);
        }
      }
      RunDistinct(r, events[1..]);
    }
  }

  /**
   * From a fresh polling station on, whatever happens before and after: once an address has been registered, every
   * packet for it goes to the record then taken.
   */
  lemma RegisteredIsReached(h: Handle, before: seq<Event>, a: byte, after: seq<Event>, data: seq<byte>) returns (k: nat)
    requires Initial(h) && Polls(h.config)
    requires var m := Steps(h, before); Register(m, a) != m
    ensures var m := Steps(h, before); Taken(m, Register(m, a), (a << 2) | 0x01, k)
    ensures Reaches(Steps(Register(Steps(h, before), a), after), a, data, k)
  {
    RunDistinct(h, before);
    var m := Steps(h, before);
    k := RegisterTakes(m, a);
    OwnersStay(Register(m, a), after, k, (a << 2) | 0x01);
    PacketReaches(Steps(Register(m, a), after), a, data);
  }
}
