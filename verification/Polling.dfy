/**
 * The order in which an NRM primary polls its peers: between two polls of one peer every other registered peer
 * is polled exactly once.
 */
module Polling {
  import opened Frames
  import opened FramesQueue
  import opened Station
  import opened Handle

  /** The peers whose turns come next after `from`, `n` of them. */
  function Turns(peers: seq<Peer>, from: nat, n: nat): seq<nat>
    requires from < |peers|
    decreases n
  {
    if n == 0 then []
    else var next := NextRegistered(peers, from, |peers|); [next] + Turns(peers, next, n - 1)
  }

  /** `n` turns beginning with `first`. */
  function Round(peers: seq<Peer>, first: nat, n: nat): (r: seq<nat>)
    requires first < |peers|
    ensures |r| == n
    decreases n
  {
    if n == 0 then [] else [first] + Round(peers, NextRegistered(peers, first, |peers|), n - 1)
  }

  lemma {:induction false} RoundIsTurns(peers: seq<Peer>, first: nat, n: nat)
    requires first < |peers|
    ensures Round(peers, first, n + 1) == [first] + Turns(peers, first, n)
    decreases n
  {
    if n > 0 { RoundIsTurns(peers, NextRegistered(peers, first, |peers|), n - 1); }
  }

  /** One walk around the table from place `d` behind `start`, noting the registered peers. */
  function Walk(peers: seq<Peer>, start: nat, d: nat): seq<nat>
    requires start < |peers| && d <= |peers|
    decreases |peers| - d
  {
    if d == |peers| then []
    else
      var i := Around(start, d + 1, |peers|);
      (if peers[i].registered then [i] else []) + Walk(peers, start, d + 1)
  }

  lemma WalkStep(peers: seq<Peer>, start: nat, d: nat)
    requires start < |peers| && d < |peers|
    ensures var i := Around(start, d + 1, |peers|);
            Walk(peers, start, d) == if peers[i].registered then [i] + Walk(peers, start, d + 1)
              else Walk(peers, start, d + 1)
  {
    assert [] + Walk(peers, start, d + 1) == Walk(peers, start, d + 1);
  }

  lemma SearchStep(peers: seq<Peer>, start: nat, d: nat, left: nat)
    requires start < |peers| && peers[start].registered && d < |peers| && |peers| - d <= left
    ensures var i := Around(start, d + 1, |peers|);
            NextRegistered(peers, Around(start, d, |peers|), left) ==
            if peers[i].registered then i else NextRegistered(peers, i, left - 1)
    ensures !peers[Around(start, d + 1, |peers|)].registered ==> d + 1 < |peers|
  {
  }

  /** A search that starts `d` places behind `start` ends at the next registered peer of the walk. */
  lemma {:induction false} NextOnWalk(peers: seq<Peer>, start: nat, d: nat, left: nat) returns (k: nat)
    requires start < |peers| && peers[start].registered && d < |peers| && |peers| - d <= left
    ensures d < k <= |peers|
    ensures NextRegistered(peers, Around(start, d, |peers|), left) == Around(start, k, |peers|)
    ensures Walk(peers, start, d) == [Around(start, k, |peers|)] + Walk(peers, start, k)
    decreases |peers| - d
  {
    WalkStep(peers, start, d);
    SearchStep(peers, start, d, left);
    k := d + 1;
    if !peers[Around(start, d + 1, |peers|)].registered {
      k := NextOnWalk(peers, start, d + 1, left - 1);
    }
  }

  lemma {:induction false} TurnsWalk(peers: seq<Peer>, start: nat, d: nat)
    requires start < |peers| && peers[start].registered && d <= |peers|
    ensures Turns(peers, Around(start, d, |peers|), |Walk(peers, start, d)|) == Walk(peers, start, d)
    decreases |peers| - d
  {
    if d < |peers| {
      var k := NextOnWalk(peers, start, d, |peers|);
      TurnsWalk(peers, start, k);
    }
  }

  /** What a walk holds: the registered peers at the places still ahead, none of them twice, `start` last. */
  lemma {:induction false} WalkHolds(peers: seq<Peer>, start: nat, d: nat)
    requires start < |peers| && peers[start].registered && d <= |peers|
    ensures var v := Walk(peers, start, d);
            && (forall i | i in v :: i < |peers| && peers[i].registered && Distance(start, i, |peers|) > d)
            && (forall i | 0 <= i < |peers| && peers[i].registered && Distance(start, i, |peers|) > d :: i in v)
            && (forall a, b | 0 <= a < b < |v| :: v[a] != v[b])
            && (d < |peers| ==> v != [] && v[|v| - 1] == start)
    decreases |peers| - d
  {
    if d < |peers| {
      WalkHolds(peers, start, d + 1);
      DistanceIs(start, d + 1, |peers|);
      var i, rest := Around(start, d + 1, |peers|), Walk(peers, start, d + 1);
      forall j | 0 <= j < |peers| && Distance(start, j, |peers|) == d + 1
        ensures j == i
      {
      }
      assert i !in rest;
      assert d + 1 == |peers| ==> i == start;
    }
  }

  /** How many places `i` lies ahead of `start`, from one up to the whole table. */
  function Distance(start: nat, i: nat, n: nat): int { if i > start then i - start else i + n - start }

  lemma DistanceIs(start: nat, k: nat, n: nat)
    requires start < n && 0 < k <= n
    ensures Distance(start, Around(start, k, n), n) == k
  {
  }

  ghost predicate EachOnce(peers: seq<Peer>, turns: seq<nat>) {
    && (forall i | 0 <= i < |peers| :: i in turns <==> peers[i].registered)
    && (forall i | i in turns :: i < |peers|)
    && (forall a, b | 0 <= a < b < |turns| :: turns[a] != turns[b])
  }

  /**
   * From a poll of `start` to the next one, each registered peer gets its turn once; the last turn is `start`
   * again.
   */
  lemma RoundRobin(peers: seq<Peer>, start: nat) returns (n: nat)
    requires start < |peers| && peers[start].registered
    ensures n > 0 && |Turns(peers, start, n)| == n && Turns(peers, start, n)[n - 1] == start
    ensures EachOnce(peers, Turns(peers, start, n))
  {
    var v := Walk(peers, start, 0);
    n := |v|;
    TurnsWalk(peers, start, 0);
    WalkHolds(peers, start, 0);
    assert Turns(peers, start, n) == v;
  }

  lemma {:induction false} TurnsPrefix(peers: seq<Peer>, from: nat, n: nat, m: nat)
    requires from < |peers| && n <= m
    ensures |Turns(peers, from, m)| == m && Turns(peers, from, m)[..n] == Turns(peers, from, n)
    decreases m
  {
    if m > 0 {
      var next := NextRegistered(peers, from, |peers|);
      TurnsPrefix(peers, next, if n > 0 then n - 1 else 0, m - 1);
      if n > 0 { assert Turns(peers, from, m)[..n] == [next] + Turns(peers, next, m - 1)[..n - 1]; }
    }
  }

  /** `__switch_to_next_peer` as the loop it is. */
  method SwitchPeer(peers: array<Peer>, nextPeer: nat) returns (next: nat, switched: bool)
    requires nextPeer < peers.Length
    ensures next == NextRegistered(peers[..], nextPeer, peers.Length)
    ensures switched <==> next != nextPeer
  {
    next := nextPeer;
    ghost var left := peers.Length;
    while true
      invariant next < peers.Length && 0 < left <= peers.Length
      invariant NextRegistered(peers[..], nextPeer, peers.Length) == NextRegistered(peers[..], next, left)
      invariant next == Around(nextPeer, peers.Length - left, peers.Length)
      decreases left
    {
      next := next + 1;
      if next >= peers.Length {
        next := 0;
      }
      if peers[next].registered || next == nextPeer {
        break;
      }
      left := left - 1;
    }
    switched := next != nextPeer;
  }
}
