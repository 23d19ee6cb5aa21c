/**
 * How long a stall lasts: over every run of a connection, the events that end it, and that nothing else does.
 */
module StallRuns {
  import opened Frames
  import opened FramesQueue
  import opened InfoStore
  import opened Station
  import opened Window
  import opened Endpoint
  import opened Flow
  import opened Duplex
  import opened Safety
  import opened Retransmission
  import ServiceFifo

  /**
   * What ends the stall of a connected sender: a REJ that reaches it, or a put that is accepted and brings the number
   * behind the newest frame round to the stale number to send.
   */
  predicate Frees(x: Host, y: Host, act: Action) {
    match act
    case Send(data) =>
      && Put(x.link, data).1 == Success
      && Ahead(x.link.peer.next, x.link.peer.confirm) == Size(x.link.peer) + 1
    case Deliver => y.out != [] && y.out[0].frame.station == x.link.peer.station && IsRej(y.out[0].frame)
    case _ => false
  }

  predicate Stuck(x: Host) { Alive(x) && !InOrder(x.link.peer) }

  // ------------------------------------------------------------------ one action

  lemma StuckStalled(x: Host, y: Host)
    requires Inv(x, y) && Stuck(x)
    ensures var w := x.put[|Reported(x)|..];
            Stalled(x.link, w) && |w| == Size(x.link.peer) && Live(x.link, w) && x.config.mode == ABM
  {
    HeldSize(x.link, x.put[|Reported(x)|..]);
  }

  lemma SendFrees(x: Host, y: Host, data: seq<byte>)
    requires Inv(x, y) && Stuck(x)
    ensures var x' := DoSend(x, data);
            Alive(x') && (InOrder(x'.link.peer) <==> Frees(x, y, Action.Send(data))) && x'.out == x.out
  {
    hide ServiceFifo.Ordered;
    var w := x.put[|Reported(x)|..];
    StuckStalled(x, y);
    hide Inv;
    PutMoves(x.link, w, data);
    var (r, result) := Put(x.link, data);
    if result == Success {
      PutAndStall(x.link, w, data);
    } else {
      HeldSize(r, w);
    }
  }

  lemma TransmitFrees(x: Host, y: Host)
    requires Inv(x, y) && Stuck(x)
    ensures var x' := DoTransmit(x); Stuck(x') && forall p | p in x'.out && p.frame.IFrame? :: p in x.out
  {
    hide Emit;
    hide Live;
    var w := x.put[|Reported(x)|..];
    StuckStalled(x, y);
    hide Inv;
    StalledSend(x.config, x.link, w);
    StateKept(x.config, x.link, w);
  }

  lemma StateKept(c: Config, l: Link, w: seq<seq<byte>>)
    requires Live(l, w) && c.mode == ABM
    ensures Emit(c, l).0.peer.state == Connected
  {
    EmitMoves(c, l, w);
  }

  lemma TickFrees(x: Host, y: Host, act: Action)
    requires Inv(x, y) && Stuck(x) && act.Tick?
    ensures var x' := DoTick(x, act); (Stuck(x') || x'.link.peer.state == Disconnected) && x'.out == x.out
  {
    hide Held;
    hide ServiceFifo.Ordered;
    var w := x.put[|Reported(x)|..];
    StuckStalled(x, y);
    hide Inv;
    var _ := IdleMoves(x.config, x.link, w, act.retryDue, act.silent, act.quiet);
    StalledClock(x.config, x.link, w, act.retryDue, act.quiet);
  }

  lemma ReadFrees(x: Host, y: Host)
    requires Inv(x, y) && Stuck(x) && y.out != [] && y.out[0].frame.station == x.link.peer.station
    ensures var x' := DoRead(x, y.out[0].frame);
            Alive(x') && (InOrder(x'.link.peer) <==> Frees(x, y, Deliver)) && x'.out == x.out
  {
    hide Sound;
    hide OnRead;
    hide Held;
    hide ServiceFifo.Ordered;
    var f, w := y.out[0].frame, x.put[|Reported(x)|..];
    assert y.out[0] in y.out;
    StuckStalled(x, y);
    var g := HeardMoves(x, y);
    if Hello(f) {
      GreetingIgnored(x.config, x.link, f);
    } else {
      AckInStep(x, y);
      StallRead(x.config, x.link, w, f);
    }
  }

  lemma GreetingIgnored(c: Config, l: Link, f: Frame)
    requires l.peer.state == Connected && Hello(f)
    ensures OnRead(c, l, f) == l.(peer := l.peer.(kaConfirmed := true))
  {
  }

  lemma Deaf(h: Host, f: Frame)
    requires f.station != h.link.peer.station
    ensures DoRead(h, f) == h
  {
  }

  /** The sender's own actions: the stall ends exactly with one that frees it, and no I-frame is sent before. */
  lemma OwnAction(x: Host, y: Host, act: Action)
    requires Inv(x, y) && Stuck(x)
    ensures var (x', _) := Act(x, y, act);
            && (Alive(x') ==> (InOrder(x'.link.peer) <==> Frees(x, y, act)))
            && (!Alive(x') ==> x'.link.peer.state == Disconnected && !Frees(x, y, act))
            && forall p | p in x'.out && p.frame.IFrame? :: p in x.out
  {
    hide Inv;
    hide DoSend;
    hide DoTransmit;
    hide DoTick;
    hide DoRead;
    match act
    case Send(data) =>
      SendFrees(x, y, data);
    case Transmit => TransmitFrees(x, y);
    case Tick(_, _, _) => TickFrees(x, y, act);
    case Lose(_) =>
    case Deliver =>
      if y.out != [] {
        if y.out[0].frame.station == x.link.peer.station { ReadFrees(x, y); } else { Deaf(x, y.out[0].frame); }
      }
  }

  /** What the other side does leaves the sender's link alone. */
  lemma OtherAction(x: Host, y: Host, act: Action)
    ensures var (_, x') := Act(y, x, act); x'.link == x.link && forall p | p in x'.out :: p in x.out
  {
    hide DoSend;
    hide DoTransmit;
    hide DoTick;
    hide DoRead;
  }

  // ------------------------------------------------------------------ whole runs

  /** At every point of the run the first side, as long as it is up, is stuck. */
  predicate Throughout(s: System, moves: seq<Move>)
    decreases |moves|
  {
    && (Alive(s.a) ==> !InOrder(s.a.link.peer))
    && (moves != [] ==> Throughout(Step(s, moves[0]), moves[1..]))
  }

  /** At some point of the run the first side, still up, does what frees it. */
  predicate Freed(s: System, moves: seq<Move>)
    decreases |moves|
  {
    && moves != []
    && ((Alive(s.a) && moves[0].first && Frees(s.a, s.b, moves[0].act)) || Freed(Step(s, moves[0]), moves[1..]))
  }

  predicate Down(x: Host) { x.link.peer.state == Disconnected }

  lemma DownStays(s: System, m: Move)
    requires Down(s.a)
    ensures Down(Step(s, m).a) && forall p | p in Step(s, m).a.out :: p in s.a.out
  {
    hide DoSend;
    hide DoTransmit;
    hide DoTick;
    hide DoRead;
  }

  lemma {:induction false} DownForever(s: System, moves: seq<Move>)
    requires Down(s.a)
    ensures Throughout(s, moves) && !Freed(s, moves) && forall p | p in Run(s, moves).a.out :: p in s.a.out
    decreases |moves|
  {
    if moves != [] {
      DownStays(s, moves[0]);
      DownForever(Step(s, moves[0]), moves[1..]);
    }
  }

  lemma StepStuck(s: System, m: Move)
    requires Inv(s.a, s.b) && Stuck(s.a)
    ensures var t, freed := Step(s, m), m.first && Frees(s.a, s.b, m.act);
            && Inv(t.a, t.b) && (Stuck(t.a) || Down(t.a) || (Alive(t.a) && InOrder(t.a.link.peer)))
            && (freed <==> Alive(t.a) && InOrder(t.a.link.peer))
            && forall p | p in t.a.out && p.frame.IFrame? :: p in s.a.out
  {
    hide Inv;
    hide Act;
    hide Frees;
    hide InOrder;
    if m.first {
      ActKeeps(s.a, s.b, m.act);
      OwnAction(s.a, s.b, m.act);
    } else {
      InvSymmetric(s.a, s.b);
      ActKeeps(s.b, s.a, m.act);
      InvSymmetric(Step(s, m).b, Step(s, m).a);
      OtherAction(s.a, s.b, m.act);
    }
  }

  lemma {:induction false} StuckRun(s: System, moves: seq<Move>)
    requires Inv(s.a, s.b) && Stuck(s.a)
    ensures Throughout(s, moves) <==> !Freed(s, moves)
    ensures Throughout(s, moves) ==> forall p | p in Run(s, moves).a.out && p.frame.IFrame? :: p in s.a.out
    decreases |moves|
  {
    hide Inv;
    hide Step;
    hide Frees;
    hide InOrder;
    if moves != [] {
      var t := Step(s, moves[0]);
      StepStuck(s, moves[0]);
      if Stuck(t.a) {
        StuckRun(t, moves[1..]);
      } else if Down(t.a) {
        DownForever(t, moves[1..]);
      }
    }
  }

  /**
   * Wherever a run from the opening of a connection leaves its first side connected and stuck, it goes on being stuck,
   * as long as it is up, through any further moves if and only if none of them frees it; and until then no I-frame of
   * it leaves.
   */
  lemma StallLasts(s: System, before: seq<Move>, moves: seq<Move>)
    requires Begins(s.a) && Begins(s.b) && Stuck(Run(s, before).a)
    ensures var t := Run(s, before);
            && (Throughout(t, moves) <==> !Freed(t, moves))
            && (Throughout(t, moves) ==> forall p | p in Run(t, moves).a.out && p.frame.IFrame? :: p in t.a.out)
  {
    hide Inv;
    hide Run;
    RunInv(s, before);
    StuckRun(Run(s, before), moves);
  }
}
