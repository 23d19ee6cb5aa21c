/**
 * The sending window of one peer as a queue of payloads: the slots of its I-frames carry exactly the numbers
 * from `confirm` up to `last`, and the payloads behind them are put, searched and confirmed in that order.
 */
module Window {
  import opened Frames
  import opened FramesQueue
  import opened InfoStore
  import opened Station

  function Plus(n: Seq8, k: nat): Seq8
    requires k <= 8
  {
    if n + k < 8 then n + k else n + k - 8
  }

  function Size(p: Peer): nat { Ahead(p.last, p.confirm) }

  predicate InWindow(p: Peer, n: Seq8) { Ahead(n, p.confirm) < Size(p) }

  /** Under one address the table holds the payloads `w`, numbered from `confirm` on, and nothing else. */
  ghost predicate Holds(q: Queue, station: byte, confirm: Seq8, w: seq<seq<byte>>) {
    && Store(q) && |w| < 8
    && forall n: Seq8 :: Stored(q, station, n) == if Ahead(n, confirm) < |w| then Some(w[Ahead(n, confirm)]) else None
  }

  /** `w` is what the peer has put and not yet seen confirmed: the bijection between numbers and slots. */
  ghost predicate Held(l: Link, w: seq<seq<byte>>) {
    Holds(l.iq, l.peer.station, l.peer.confirm, w) && l.peer.last == Plus(l.peer.confirm, |w|)
  }

  lemma HeldSize(l: Link, w: seq<seq<byte>>)
    requires Held(l, w)
    ensures |w| == Size(l.peer)
  {
  }

  /** The frames stored for all other addresses are untouched. */
  ghost predicate OthersKept(q: Queue, r: Queue, mine: byte) {
    && |r.slots| == |q.slots| && r.mtu == q.mtu
    && forall station: byte, n: Seq8 | station != mine :: Stored(r, station, n) == Stored(q, station, n)
  }

  lemma StepDown(n: Seq8, c: Seq8)
    ensures Ahead(n, Inc(c)) == if n == c then 7 else Ahead(n, c) - 1
  {
  }

  // ------------------------------------------------------------------ acknowledgements

  lemma PopHolds(q: Queue, station: byte, confirm: Seq8, w: seq<seq<byte>>) returns (i: nat)
    requires Holds(q, station, confirm, w) && w != []
    ensures Find(q, INFO, station, confirm) == Some(i) && i < |q.slots| && Payload(q.slots[i].frame) == w[0]
    ensures Holds(FreeAt(q, i), station, Inc(confirm), w[1..]) && OthersKept(q, FreeAt(q, i), station)
  {
    assert Stored(q, station, confirm) == Some(w[0]);
    i := Find(q, INFO, station, confirm).value;
    FreeRemoves(q, i);
    forall n: Seq8
      ensures Stored(FreeAt(q, i), station, n) ==
              if Ahead(n, Inc(confirm)) < |w[1..]| then Some(w[1..][Ahead(n, Inc(confirm))]) else None
    {
      StepDown(n, confirm);
    }
  }

  function Acknowledged(c: Config, p: Peer, data: seq<seq<byte>>): Peer
    requires |data| <= 8
  {
    if data == [] then p
    else p.(confirm := Plus(p.confirm, |data|), retries := c.maxRetries,
      log := p.log.(confirmed := p.log.confirmed + data))
  }

  /** The `d` oldest of the payloads `w` have been confirmed, and nothing else has happened. */
  ghost predicate Confirmed(c: Config, l: Link, r: Link, w: seq<seq<byte>>, d: nat)
    requires d <= |w|
  {
    && Held(l, w) && Held(r, w[d..]) && OthersKept(l.iq, r.iq, l.peer.station) && r.sq == l.sq
    && r.peer == Acknowledged(c, l.peer, w[..d])
  }

  lemma ConfirmedOnce(c: Config, l: Link, w: seq<seq<byte>>)
    requires Held(l, w) && w != []
    ensures Confirmed(c, l, ConfirmOne(c, l), w, 1)
  {
    var _ := PopHolds(l.iq, l.peer.station, l.peer.confirm, w);
    assert w[..1] == [w[0]];
  }

  lemma ConfirmedMore(c: Config, l: Link, m: Link, r: Link, w: seq<seq<byte>>, d: nat)
    requires 0 < d <= |w| && Confirmed(c, l, m, w, 1) && Confirmed(c, m, r, w[1..], d - 1)
    ensures Confirmed(c, l, r, w, d)
  {
    assert w[1..][d - 1..] == w[d..];
    assert w[..d] == w[..1] + w[1..][..d - 1];
    var rest := w[1..][..d - 1];
    assert l.peer.log.confirmed + w[..1] + rest == l.peer.log.confirmed + (w[..1] + rest);
  }

  /** How many of `size` outstanding frames an N(R) settles: all of them when it lies outside the window. */
  function Settled(size: nat, confirm: Seq8, nr: Seq8): (d: nat)
    ensures d <= size
  {
    if Ahead(nr, confirm) <= size then Ahead(nr, confirm) else size
  }

  /** An acknowledgement confirms exactly the oldest frames it covers, in order, and reports each of them once. */
  lemma {:induction false} ConfirmSettles(c: Config, l: Link, w: seq<seq<byte>>, nr: Seq8)
    requires Held(l, w)
    ensures Confirmed(c, l, ConfirmUpTo(c, l, nr), w, Settled(|w|, l.peer.confirm, nr))
    decreases |w|
  {
    var d := Settled(|w|, l.peer.confirm, nr);
    HeldSize(l, w);
    if d == 0 {
      assert w[0..] == w;
    } else {
      var m := ConfirmOne(c, l);
      ConfirmedOnce(c, l, w);
      ConfirmSettles(c, m, w[1..], nr);
      StepDown(nr, l.peer.confirm);
      ConfirmedMore(c, l, m, ConfirmUpTo(c, m, nr), w, d);
    }
  }

  // ------------------------------------------------------------------ room

  /** Numbers below `n` without `hole` are at most `n - 1`. */
  lemma {:induction false} AtMost(s: set<nat>, n: nat, hole: nat)
    requires (forall i | i in s :: i < n) && hole !in s
    ensures |s| <= n && (hole < n ==> |s| < n)
  {
    if n > 0 {
      AtMost(s - {n - 1}, n - 1, hole);
      assert s == s - {n - 1} || s == (s - {n - 1}) + {n - 1};
    } else {
      assert s == {};
    }
  }

  /** The slots that hold `k` consecutive numbers of one address. */
  lemma {:induction false} Places(q: Queue, station: byte, from: Seq8, k: nat) returns (s: set<nat>)
    requires Store(q) && k <= 8 && forall n: Seq8 | Ahead(n, from) < k :: Stored(q, station, n).Some?
    ensures |s| == k
    ensures forall i | i in s :: i < |q.slots| && q.slots[i].kind == InfoSlot && q.slots[i].frame.station == station
    ensures forall i | i in s :: Ahead(q.slots[i].frame.ns, from) < k
  {
    if k == 0 {
      s := {};
    } else {
      s := Places(q, station, from, k - 1);
      var n := Plus(from, k - 1);
      assert Ahead(n, from) == k - 1;
      assert Stored(q, station, n).Some?;
      var i := Find(q, INFO, station, n).value;
      s := s + {i};
    }
  }

  /** While a slot is free, fewer frames are outstanding than there are slots. */
  lemma RoomInWindow(q: Queue, station: byte, confirm: Seq8, w: seq<seq<byte>>)
    requires Holds(q, station, confirm, w)
    ensures |w| <= |q.slots| && (AnyFree(q) ==> |w| < |q.slots|)
  {
    var s := Places(q, station, confirm, |w|);
    var free := Find(q, {FreeSlot}, 0, 0);
    AtMost(s, |q.slots|, if free.Some? then free.value else |q.slots|);
  }

  lemma PushHolds(q: Queue, station: byte, confirm: Seq8, w: seq<seq<byte>>, f: Frame)
    requires Holds(q, station, confirm, w) && |q.slots| <= 7 && HasRoom(q, f)
    requires f.IFrame? && f.station == station && f.ns == Plus(confirm, |w|)
    ensures |w| < 7 && Holds(Allocate(q, InfoSlot, f), station, confirm, w + [f.payload])
    ensures OthersKept(q, Allocate(q, InfoSlot, f), station)
  {
    RoomInWindow(q, station, confirm, w);
    assert Ahead(f.ns, confirm) == |w|;
    AllocateAdds(q, f);
    var q' := Allocate(q, InfoSlot, f);
    forall n: Seq8
      ensures Stored(q', station, n) ==
              if Ahead(n, confirm) < |w| + 1 then Some((w + [f.payload])[Ahead(n, confirm)]) else None
    {
      assert Ahead(n, confirm) == |w| <==> n == f.ns;
    }
  }

  /** A put appends to the payloads pending, whenever at most seven slots exist. */
  lemma PutAppends(l: Link, w: seq<seq<byte>>, data: seq<byte>)
    requires Held(l, w) && |l.iq.slots| <= 7
    ensures var r, room := PutInfo(l, data), |data| <= l.iq.mtu && AnyFree(l.iq);
            && Held(r, if room then w + [data] else w) && OthersKept(l.iq, r.iq, l.peer.station) && r.sq == l.sq
            && r.peer == l.peer.(last := if room then Inc(l.peer.last) else l.peer.last) && r.hasFree == l.hasFree
  {
    if |data| <= l.iq.mtu && AnyFree(l.iq) {
      PushHolds(l.iq, l.peer.station, l.peer.confirm, w, IFrame(l.peer.station, false, l.peer.last, 0, false, data));
      assert Plus(l.peer.confirm, |w + [data]|) == Inc(l.peer.last);
    }
  }

  // ------------------------------------------------------------------ emission, connection

  /** Emitting a stored frame, or setting its poll bit, changes nothing in the store. */
  lemma RewriteHolds(q: Queue, i: nat, f: Frame, station: byte, confirm: Seq8, w: seq<seq<byte>>)
    requires Holds(q, station, confirm, w) && i < |q.slots| && q.slots[i].kind == InfoSlot && f.IFrame?
    requires var g := q.slots[i].frame; f.station == g.station && f.ns == g.ns && f.payload == g.payload
    ensures Holds(Rewrite(q, i, f), station, confirm, w) && OthersKept(q, Rewrite(q, i, f), station)
  {
    RewriteKeeps(q, i, f);
  }

  /** After a reset the address has nothing queued and no other address has lost anything. */
  lemma FlushHolds(q: Queue, station: byte, confirm: Seq8)
    requires Store(q)
    ensures Holds(ResetFor(q, station), station, confirm, []) && OthersKept(q, ResetFor(q, station), station)
  {
    ResetRemoves(q, station);
  }
}
