/**
 * The timeouts of a connection: when frames are sent again, when a keep-alive is sent and when the peer is given up.
 */
module KeepAlive {
  import opened Frames
  import opened FramesQueue
  import opened InfoStore
  import opened Station
  import opened Handle
  import opened Connections
  import opened Endpoint
  import opened Retransmission
  import opened Addressing
  import opened Replies
  import opened Sending
  import opened Serving

  /** All frames are sent, some are not confirmed, and the retry time has passed. */
  predicate RetryNow(p: Peer, retryDue: bool) { p.confirm != p.last && p.last == p.next && retryDue }

  function Question(p: Peer): Frame { SFrame(p.station, false, RR, p.nextNr, true) }

  /** One check of a connection, from peer `p` and table `s` to peer `q` and table `t`. */
  ghost predicate Checked(p: Peer, q: Peer, s: Queue, t: Queue, retryDue: bool, silent: bool, quiet: bool) {
    if RetryNow(p, retryDue) then
      && t == s
      && if p.retries == 0 then Dropped(p, q) else q == p.(next := p.confirm, retries := p.retries - 1)
    else if silent then t == s && if p.kaConfirmed then q == p else Dropped(p, q)
    else if quiet then Enqueued(s, t, Question(p)) && q == p.(kaConfirmed := false)
    else q == p && t == s
  }

  lemma CheckExact(c: Config, l: Link, retryDue: bool, silent: bool, quiet: bool)
    requires Up(l.peer)
    ensures var r := Idle(c, l, retryDue, silent, quiet); Checked(l.peer, r.peer, l.sq, r.sq, retryDue, silent, quiet)
  {
    hide Enqueued;
    hide Allocate;
    hide SwitchDisconnected;
    hide Rewind;
    var p := l.peer;
    Switches(l);
    AllocateEnqueues(l.sq, SupervisorySlot, Question(p));
    if p.retries > 0 { RewindToOldest(l.(peer := p.(retries := p.retries - 1)), 0); }
  }

  // ------------------------------------------------------------------ over runs

  /** A frame for peer `i` arrives. */
  predicate Arrives(h: Handle, e: Event, i: nat)
    requires Wf(h)
  {
    e.Incoming? && AddressToPeer(h, e.frame.station) == Some(i)
  }

  /** The time has come to send peer `i` a keep-alive. */
  predicate KeepAliveDue(h: Handle, e: Event, i: nat) {
    && e.Timeout? && e.peer == i && InUse(h, i) && Up(h.peers[i])
    && e.quiet && !e.silent && !RetryNow(h.peers[i], e.retryDue)
  }

  /** Whether no frame has come from peer `i` since a keep-alive was last due; `so` says what held at the start. */
  predicate Unanswered(h: Handle, events: seq<Event>, i: nat, so: bool)
    requires Wf(h)
    decreases |events|
  {
    if events == [] then so
    else
      var e := events[0];
      Unanswered(Step(h, e), events[1..], i, if Arrives(h, e, i) then false else so || KeepAliveDue(h, e, i))
  }

  lemma IdleKa(c: Config, l: Link, retryDue: bool, silent: bool, quiet: bool)
    ensures Idle(c, l, retryDue, silent, quiet).peer.kaConfirmed ==
            (l.peer.kaConfirmed && !(Up(l.peer) && quiet && !silent && !RetryNow(l.peer, retryDue)))
  {
    if Up(l.peer) {
      CheckExact(c, l, retryDue, silent, quiet);
      Switches(l);
    }
  }

  lemma PutKa(l: Link, data: seq<byte>)
    ensures Put(l, data).0.peer.kaConfirmed == PutUi(l, data).peer.kaConfirmed == Disconnect(l).peer.kaConfirmed
            == l.peer.kaConfirmed
  {
  }

  /** The flag tells whether the last keep-alive due is still unanswered. */
  lemma StepKa(h: Handle, e: Event, i: nat)
    requires Wf(h) && i < |h.peers|
    ensures var so := !h.peers[i].kaConfirmed;
            Step(h, e).peers[i].kaConfirmed == !(if Arrives(h, e, i) then false else so || KeepAliveDue(h, e, i))
  {
    hide OnRead;
    hide Put;
    hide PutUi;
    hide Idle;
    hide NextFrame;
    hide Disconnect;
    hide AddressToPeer;
    hide Step;
    StepServes(h, e);
    if Served(h, e) == Some(i) {
      var l := View(h, i);
      match e
      case Incoming(f) => LinkAnswered(h.config, l, f);
      case Timeout(_, retryDue, silent, quiet) => IdleKa(h.config, l, retryDue, silent, quiet);
      case Start => NextSentOnly(h.config, l);
      case Packet(_, data) => PutKa(l, data);
      case UiPacket(_, data) => PutKa(l, data);
      case Hangup => PutKa(l, []);
    }
  }

  lemma {:induction false} RunKa(h: Handle, events: seq<Event>, i: nat)
    requires Wf(h) && i < |h.peers|
    ensures Steps(h, events).peers[i].kaConfirmed == !Unanswered(h, events, i, !h.peers[i].kaConfirmed)
    decreases |events|
  {
    hide Arrives;
    hide KeepAliveDue;
    if events != [] {
      StepKa(h, events[0], i);
      RunKa(Step(h, events[0]), events[1..], i);
    }
  }

  /**
   * At any point of any run from a fresh station, for a peer that is up and owes no retry: the check ends the
   * connection, and tells the application, if and only if the time of silence has passed and no frame has come since a
   * keep-alive was last due. When only the time of quiet has passed, one keep-alive is queued.
   */
  lemma SilenceEnds(h: Handle, events: seq<Event>, i: nat, retryDue: bool, silent: bool, quiet: bool)
    requires Initial(h)
    requires var e := Steps(h, events); InUse(e, i) && Up(e.peers[i]) && !RetryNow(e.peers[i], retryDue)
    ensures var e := Steps(h, events); var r := Step(e, Event.Timeout(i, retryDue, silent, quiet));
            var p, q := e.peers[i], r.peers[i];
            && OnlyPeer(e, r, i)
            && (Dropped(p, q) <==> silent && Unanswered(h, events, i, true))
            && (!Dropped(p, q) ==> q.state == p.state && q.log.links == p.log.links)
            && (if quiet && !silent then Enqueued(e.sq, r.sq, Question(p)) else r.sq == e.sq)
  {
    hide Idle;
    hide Steps;
    hide Enqueued;
    assert FreshPeer(h.peers[i], h.config);
    RunKa(h, events, i);
    var e := Steps(h, events);
    CheckExact(e.config, View(e, i), retryDue, silent, quiet);
    BackOnly(e, i, Idle(e.config, View(e, i), retryDue, silent, quiet));
  }

  /** Any frame that has come from a peer keeps its connection up at the next check. */
  lemma HeardKeepsUp(h: Handle, i: nat, f: Frame, retryDue: bool, silent: bool, quiet: bool)
    requires Wf(h) && Owner(h, i, f.station)
    requires var m := Read(h, f); Up(m.peers[i]) && !RetryNow(m.peers[i], retryDue)
    ensures var m := Read(h, f); var r := Step(m, Event.Timeout(i, retryDue, silent, quiet));
            r.peers[i].state == m.peers[i].state && r.peers[i].log.links == m.peers[i].log.links
  {
    hide Idle;
    hide Enqueued;
    ReadAnswers(h, i, f);
    hide Read;
    var m := Read(h, f);
    CheckExact(m.config, View(m, i), retryDue, silent, quiet);
  }
}
