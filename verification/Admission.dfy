/**
 * Which packets of the application are taken: with one peer, exactly those the window of frames has room for; with
 * several, a disconnection can leave slots free that nobody is told of.
 */
module Admission {
  import opened Frames
  import opened FramesQueue
  import opened InfoStore
  import opened Station
  import opened Handle
  import opened Window
  import opened Bookkeeping
  import opened Books
  import opened Connections
  import opened Addressing
  import opened Replies
  import opened Serving
  import opened Flags
  import opened Stall
  import Handshake

  // ------------------------------------------------------------------ one peer: slots and outstanding frames

  /** The places in the window of the frames in the first `n` slots, all different. */
  lemma {:induction false} WindowPlaces(l: Link, n: nat) returns (s: set<nat>)
    requires Booked(l) && n <= |l.iq.slots| && forall i | 0 <= i < n :: OwnFrame(l, l.iq.slots[i])
    ensures |s| == n && forall k | k in s :: k < Size(l.peer) && exists i: nat :: i < n && Place(l, i) == k
    decreases n
  {
    if n == 0 {
      s := {};
    } else {
      s := WindowPlaces(l, n - 1);
      var k := Place(l, n - 1);
      FoundAt(l.iq, n - 1, l.peer.station, l.iq.slots[n - 1].frame.ns);
      assert InWindow(l.peer, l.iq.slots[n - 1].frame.ns);
      if k in s {
        var i: nat :| i < n - 1 && Place(l, i) == k;
        SamePlace(l.iq.slots[i].frame.ns, l.iq.slots[n - 1].frame.ns, l.peer.confirm);
        assert SameKey(l.iq.slots[i], l.iq.slots[n - 1]);
      }
      s := s + {k};
      assert Place(l, n - 1) == k;
    }
  }

  ghost predicate OwnFrame(l: Link, s: Slot) {
    s.kind == InfoSlot && s.frame.IFrame? && s.frame.station == l.peer.station
  }

  ghost function Place(l: Link, i: nat): nat {
    if i < |l.iq.slots| && l.iq.slots[i].frame.IFrame? then Ahead(l.iq.slots[i].frame.ns, l.peer.confirm) else 0
  }

  lemma SamePlace(a: Seq8, b: Seq8, c: Seq8)
    requires Ahead(a, c) == Ahead(b, c)
    ensures a == b
  {
  }

  /**
   * With every frame in the table the peer's own, a slot is free exactly while fewer are outstanding than there
   * are.
   */
  lemma RoomExact(l: Link)
    requires Booked(l)
    requires forall i | 0 <= i < |l.iq.slots| :: l.iq.slots[i].kind == FreeSlot || OwnFrame(l, l.iq.slots[i])
    ensures AnyFree(l.iq) <==> Size(l.peer) < |l.iq.slots|
  {
    FindFinds(l.iq, {FreeSlot}, 0, 0);
    var w := Contents(l);
    HeldSize(l, w);
    RoomInWindow(l.iq, l.peer.station, l.peer.confirm, w);
    if !AnyFree(l.iq) {
      forall i | 0 <= i < |l.iq.slots|
        ensures OwnFrame(l, l.iq.slots[i])
      {
        assert !Matches(l.iq.slots[i], {FreeSlot}, 0, 0);
      }
      var s := WindowPlaces(l, |l.iq.slots|);
      AtMost(s, Size(l.peer), Size(l.peer));
    }
  }

  /** The table of a station that does not poll holds frames of its one peer only. */
  lemma OwnTable(h: Handle, i: nat)
    requires Balanced(h) && OwnPeer(h) && i < |h.iq.slots|
    ensures h.iq.slots[i].kind == FreeSlot || OwnFrame(View(h, 0), h.iq.slots[i])
  {
    var s := h.iq.slots[i];
    if s.kind != FreeSlot {
      FoundAt(h.iq, i, s.frame.station, s.frame.ns);
      assert Known(h, s.frame.station);
    }
  }

  // ------------------------------------------------------------------ one peer: nothing is hidden

  lemma StepShown(h: Handle, e: Event, hidden: bool)
    requires Balanced(h) && OwnPeer(h) && (hidden ==> !Told(h.peers[0]))
    ensures StepHidden(h, e, hidden) ==> !Told(Step(h, e).peers[0])
  {
    StepServes(h, e);
    ServedInUse(h, e);
    StepPasses(h, e, 0);
  }

  lemma {:induction false} RunShown(h: Handle, events: seq<Event>, hidden: bool)
    requires Balanced(h) && OwnPeer(h) && (hidden ==> !Told(h.peers[0])) && forall e | e in events :: NoReset(e)
    ensures Balanced(Steps(h, events)) && OwnPeer(Steps(h, events))
    ensures Hidden(h, events, hidden) ==> !Told(Steps(h, events).peers[0])
    decreases |events|
  {
    hide Balanced;
    hide StepHidden;
    hide Step;
    hide Told;
    if events != [] {
      assert events[0] in events && forall e | e in events[1..] :: e in events;
      StepBalanced(h, events[0]);
      StepOwnPeer(h, events[0]);
      StepShown(h, events[0], hidden);
      RunShown(Step(h, events[0]), events[1..], StepHidden(h, events[0], hidden));
    }
  }

  /**
   * From the "connected" callback to the "disconnected" one, over every run without RSET of a station with one peer: a
   * packet that fits is taken if and only if fewer frames are outstanding than the window has slots.
   */
  lemma WindowAccepts(h: Handle, events: seq<Event>, data: seq<byte>)
    requires Initial(h) && !Polls(h.config) && (forall e | e in events :: NoReset(e))
    requires Told(Steps(h, events).peers[0])
    ensures var l := View(Steps(h, events), 0);
            Put(l, data).1 == if |data| > l.iq.mtu then TooLarge
                              else if Size(l.peer) < |l.iq.slots| then Success else PutResult.Timeout
  {
    InitialBalanced(h);
    assert FreshPeer(h.peers[0], h.config);
    RunShown(h, events, false);
    var r := Steps(h, events);
    assert Sane(View(r, 0));
    forall i | 0 <= i < |r.iq.slots|
      ensures r.iq.slots[i].kind == FreeSlot || OwnFrame(View(r, 0), r.iq.slots[i])
    {
      OwnTable(r, i);
    }
    RoomExact(View(r, 0));
    PacketAccepted(h, events, 0, data);
  }

  // ------------------------------------------------------------------ slots nobody is told of

  /** The frames of a peer that is dropped become free slots. */
  lemma FlushShows(l: Link)
    requires Booked(l) && Size(l.peer) > 0
    ensures AnyFree(ResetFor(l.iq, l.peer.station))
  {
    var n, q := l.peer.confirm, ResetFor(l.iq, l.peer.station);
    assert InWindow(l.peer, n);
    assert Stored(l.iq, l.peer.station, n).Some?;
    var i := Find(l.iq, INFO, l.peer.station, n).value;
    FindFinds(q, {FreeSlot}, 0, 0);
    assert Matches(q.slots[i], {FreeSlot}, 0, 0);
  }

  lemma DropHides(c: Config, l: Link, f: Frame)
    requires Sane(l) && Up(l.peer) && Size(l.peer) > 0 && !AnyFree(l.iq) && f.UFrame?
             && (f.ukind == DISC || f.ukind == DM)
    ensures var r := OnRead(c, l, f); AnyFree(r.iq) && !r.hasFree
  {
    FlushShows(l);
    hide AnyFree;
    hide ResetFor;
  }

  /**
   * When a peer with frames in a full table disconnects, their slots are free, but the event is not set: every packet
   * for another peer times out, whatever room its window has.
   */
  lemma OthersStarved(h: Handle, i: nat, j: nat, f: Frame, data: seq<byte>)
    requires Balanced(h) && Owner(h, i, f.station) && j < |h.peers| && j != i
    requires f.UFrame? && (f.ukind == DISC || f.ukind == DM)
    requires Up(h.peers[i]) && Size(h.peers[i]) > 0 && !AnyFree(h.iq)
    ensures var r := Read(h, f);
            && AnyFree(r.iq) && r.peers[j] == h.peers[j]
            && Put(View(r, j), data).1 == if |data| > r.iq.mtu then TooLarge else PutResult.Timeout
  {
    var l := View(h, i);
    assert Sane(l);
    DropHides(h.config, l, f);
    OwnerFound(h, i, f.station);
    hide OnRead;
    BackOnly(h, i, OnRead(h.config, l, f));
  }

  /** Two packets fill an open window of two slots. */
  lemma TwoFill(l: Link, a: seq<byte>, b: seq<byte>)
    requires Sane(l) && Size(l.peer) == 0 && |l.iq.slots| == 2 && l.peer.canAccept && l.hasFree
             && Handshake.AllFree(l.iq)
    requires |a| <= l.iq.mtu && |b| <= l.iq.mtu
    ensures var r := Put(Put(l, a).0, b).0;
            Sane(r) && Size(r.peer) == 2 && !AnyFree(r.iq) && !r.hasFree && r.peer.state == l.peer.state
  {
    var w := Contents(l);
    HeldSize(l, w);
    PutSane(l, a);
    PutAppends(l, w, a);
    OneTaken(l.iq, IFrame(l.peer.station, false, l.peer.last, 0, false, a));
    var m := Put(l, a).0;
    HeldSize(m, w + [a]);
    PutSane(m, b);
    PutAppends(m, w + [a], b);
    var r := Put(m, b).0;
    HeldSize(r, w + [a] + [b]);
    RoomInWindow(r.iq, r.peer.station, r.peer.confirm, w + [a] + [b]);
  }

  /** The connection request of the peer. */
  function Setup(h: Handle): Frame { UFrame(h.addr, true, SABM, true, []) }

  lemma SetupOpens(h: Handle)
    requires Initial(h) && h.config.mode == ABM
    ensures var l := View(Read(h, Setup(h)), 0);
            && Sane(l) && Size(l.peer) == 0 && l.peer.canAccept && l.hasFree && Handshake.AllFree(l.iq)
            && l.peer.state == Connected
            && l.iq.mtu == h.iq.mtu && |l.iq.slots| == |h.iq.slots|
  {
    InitialBalanced(h);
    ReadBalanced(h, Setup(h));
    assert FreshPeer(h.peers[0], h.config);
    var m := Read(h, Setup(h));
    assert Sane(View(m, 0));
    assert m.iq == ResetFor(h.iq, h.addr) && m.hasFree;
    hide Read;
    hide Balanced;
    hide Enqueued;
    ReadAnswers(h, 0, Setup(h));
  }

  /** The input: a balanced station with two slots gets a connection request, two packets and a disconnection. */
  lemma SlotsHidden(h: Handle, a: seq<byte>, b: seq<byte>)
    requires Initial(h) && h.config.mode == ABM && |h.iq.slots| == 2 && |a| <= h.iq.mtu && |b| <= h.iq.mtu
    ensures var l := Put(Put(View(Read(h, Setup(h)), 0), a).0, b).0;
            var r := OnRead(h.config, l, UFrame(h.addr, true, DISC, true, []));
            AnyFree(r.iq) && !r.hasFree
  {
    SetupOpens(h);
    hide Read;
    var l0 := View(Read(h, Setup(h)), 0);
    TwoFill(l0, a, b);
    hide Put;
    DropHides(h.config, Put(Put(l0, a).0, b).0, UFrame(h.addr, true, DISC, true, []));
  }
}
