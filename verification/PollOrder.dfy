/**
 * The polls an NRM primary makes over a run of the line follow the round of its registered peers, losses or not.
 */
module PollOrder {
  import opened Frames
  import opened Station
  import opened Handle
  import opened Connections
  import opened Token
  import Polling

  /** The peers polled, one entry for every P/F frame the primary sends. */
  function Polled(b: Line, acts: seq<Act>): seq<nat>
    requires Wf(b.primary) && forall i | 0 <= i < |b.others| :: Wf(b.others[i])
    decreases |acts|
  {
    if acts == [] then []
    else
      var out := Speak(b.primary).1;
      (if acts[0].PrimarySends? && out.Some? && out.value.poll then [b.primary.nextPeer] else [])
      + Polled(After(b, acts[0]), acts[1..])
  }

  lemma {:induction false} SameRound(peers: seq<Peer>, others: seq<Peer>, first: nat, n: nat)
    requires |others| == |peers| && (forall i | 0 <= i < |peers| :: SameId(peers[i], others[i])) && first < |peers|
    ensures Polling.Round(others, first, n) == Polling.Round(peers, first, n)
    decreases n
  {
    if n > 0 {
      SameTurn(peers, others, first, |peers|);
      SameRound(peers, others, NextRegistered(peers, first, |peers|), n - 1);
    }
  }

  /** Anything but a poll leaves the turn with the same peer. */
  lemma TurnKept(b: Line, a: Act)
    requires Ready(b)
    ensures var p, q := b.primary, After(b, a).primary; var out := Speak(p).1;
            && Sober(q) && Polls(q.config) && SameIds(p, q)
            && q.nextPeer == if a.PrimarySends? && out.Some? && out.value.poll
                             then NextRegistered(p.peers, p.nextPeer, |p.peers|)
                             else p.nextPeer
  {
    hide Speak;
    hide Read;
    hide Step;
    hide NextRegistered;
    SpeakPasses(b.primary);
    match a
    case HeardAbove => if b.up != [] { ReadCaptures(b.primary, b.up[0]); }
    case AtPrimary(e) => if Local(e) { LocalKeeps(b.primary, e); }
    case _ =>
  }

  lemma OthersReady(b: Line, a: Act)
    requires Ready(b)
    ensures var r := After(b, a); forall i | 0 <= i < |r.others| :: Sober(r.others[i]) && !r.others[i].config.primary
  {
    match a
    case Sends(i) => if i < |b.others| { SpeakPasses(b.others[i]); }
    case HeardBelow =>
      if b.down != [] {
        forall i | 0 <= i < |b.others|
          ensures Sober(Read(b.others[i], b.down[0])) && !Read(b.others[i], b.down[0]).config.primary
        {
          ReadCaptures(b.others[i], b.down[0]);
        }
      }
    case At(i, e) => if i < |b.others| && Local(e) { LocalKeeps(b.others[i], e); }
    case _ =>
  }

  /** An action leaves the line ready, its peers who they were, and the turn where it belongs. */
  lemma Turned(b: Line, a: Act)
    requires Ready(b)
    ensures var r := After(b, a); var out := Speak(b.primary).1;
            && Ready(r) && SameIds(b.primary, r.primary)
            && r.primary.nextPeer == if a.PrimarySends? && out.Some? && out.value.poll
                                     then NextRegistered(b.primary.peers, b.primary.nextPeer, |b.primary.peers|)
                                     else b.primary.nextPeer
  {
    hide Speak;
    hide After;
    hide Sober;
    hide NextRegistered;
    TurnKept(b, a);
    OthersReady(b, a);
  }

  lemma RoundStep(peers: seq<Peer>, others: seq<Peer>, first: nat, next: nat, polled: bool, rest: seq<nat>)
    requires |others| == |peers| && (forall i | 0 <= i < |peers| :: SameId(peers[i], others[i])) && first < |peers|
    requires next == if polled then NextRegistered(peers, first, |peers|) else first
    requires rest == Polling.Round(others, next, |rest|)
    ensures var v := (if polled then [first] else []) + rest; v == Polling.Round(peers, first, |v|)
  {
    hide NextRegistered;
    SameRound(peers, others, next, |rest|);
    assert [] + rest == rest;
  }

  lemma ReadyWf(b: Line)
    requires Ready(b)
    ensures Wf(b.primary) && forall i | 0 <= i < |b.others| :: Wf(b.others[i])
  {
  }

  /**
   * In every run, with or without losses, the peers are polled in the order of the round, beginning with the one
   * whose turn it is.
   */
  lemma {:induction false} PollsInTurn(b: Line, acts: seq<Act>)
    requires Ready(b)
    ensures var v := Polled(b, acts); v == Polling.Round(b.primary.peers, b.primary.nextPeer, |v|)
    decreases |acts|
  {
    hide Ready;
    hide Speak;
    hide After;
    hide NextRegistered;
    ReadyWf(b);
    if acts != [] {
      var a, r, out := acts[0], After(b, acts[0]), Speak(b.primary).1;
      Turned(b, a);
      ReadyWf(r);
      PollsInTurn(r, acts[1..]);
      RoundStep(b.primary.peers, r.primary.peers, b.primary.nextPeer, r.primary.nextPeer,
                a.PrimarySends? && out.Some? && out.value.poll, Polled(r, acts[1..]));
    }
  }

  /** Between two polls of one peer every other registered peer is polled exactly once. */
  lemma EachOnceBetween(b: Line, acts: seq<Act>) returns (n: nat)
    requires Ready(b) && b.primary.peers[b.primary.nextPeer].registered
    ensures n > 0 && Polling.EachOnce(b.primary.peers, Polling.Turns(b.primary.peers, b.primary.nextPeer, n))
    ensures var v := Polled(b, acts);
            |v| > n ==> v[0] == v[n] == b.primary.nextPeer && Polling.EachOnce(b.primary.peers, v[1..n + 1])
  {
    hide Polled;
    var v, first, peers := Polled(b, acts), b.primary.nextPeer, b.primary.peers;
    PollsInTurn(b, acts);
    n := Polling.RoundRobin(peers, first);
    if |v| > n {
      Polling.RoundIsTurns(peers, first, |v| - 1);
      Polling.TurnsPrefix(peers, first, n, |v| - 1);
      assert v[1..] == Polling.Turns(peers, first, |v| - 1);
      assert v[1..n + 1] == v[1..][..n];
    }
  }
}
