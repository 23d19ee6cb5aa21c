/**
 * Recovery: from any point of a connection, once a timeout has taken the sender back and the frames of one round
 * get through, everything put has been delivered.
 */
module Recovery {
  import opened Frames
  import opened FramesQueue
  import opened InfoStore
  import opened Station
  import opened Window
  import opened Endpoint
  import opened Flow
  import opened Duplex
  import opened Safety
  import opened Retransmission
  import ServiceFifo

  /** `x` emits a frame and `y` gets it. */
  function Exchange(x: Host, y: Host): (Host, Host) {
    var (x1, _) := Act(x, y, Transmit);
    var (y1, x2) := Act(y, x1, Deliver);
    (x2, y1)
  }

  function Round(x: Host, y: Host, n: nat): (Host, Host)
    decreases n
  {
    if n == 0 then (x, y) else var (x1, y1) := Exchange(x, y); Round(x1, y1, n - 1)
  }

  function Position(x: Host): nat { Ahead(x.link.peer.next, x.link.peer.confirm) }

  ghost function Due(x: Host): seq<seq<byte>>
    requires |Reported(x)| <= |x.put|
  {
    x.put[|Reported(x)|..]
  }

  /** Both sides up on one address, nothing under way from `x` but what it will emit next, nothing skipped. */
  ghost predicate Tidy(x: Host, y: Host) {
    && Inv(x, y) && Alive(x) && Alive(y) && x.link.peer.station == y.link.peer.station
    && x.out == [] && ServiceFifo.Fifo(x.link.sq) == []
    && Position(x) <= |Due(x)| && |Reported(x)| + Position(x) <= |Received(y)|
  }

  /** The receiver takes the frame if it is the next one and has it already otherwise. */
  lemma Takes(x: Host, y: Host, f: Frame)
    requires Inv(x, y) && Alive(y) && x.out == [Packet(f, |x.put|)] && f.IFrame? && f.station == y.link.peer.station
    requires |Reported(x)| <= |Received(y)|
    ensures var (y1, x1) := Act(y, x, Deliver);
            && Inv(x1, y1) && Alive(y1) && y1.link.peer.station == y.link.peer.station && x1 == x.(out := [])
            && |Received(y1)| == |Received(y)| + if f.ns == Mod8(|Received(y)|) then 1 else 0
  {
    hide Sound;
    hide Held;
    hide ServiceFifo.Ordered;
    hide OnRead;
    assert x.out[0] == Packet(f, |x.put|) && x.out[1..] == [];
    ReadKeeps(y, x);
    AckInStep(y, x);
    var _ := ReadMoves(y.config, y.link, y.put[|Reported(y)|..], f);
  }

  lemma Leaves(x: Host, y: Host)
    requires Tidy(x, y) && Position(x) < |Due(x)|
    ensures var x1 := DoTransmit(x);
            && Inv(x1, y) && Alive(x1) && Reported(x1) == Reported(x) && x1.put == x.put
                 && x1.link.peer.station == x.link.peer.station
            && ServiceFifo.Fifo(x1.link.sq) == [] && Position(x1) == Position(x) + 1
            && |x1.out| == 1 && x1.out[0].stamp == |x.put|
            && var f := x1.out[0].frame;
               f.IFrame? && f.station == x.link.peer.station && f.ns == Mod8(|Reported(x)| + Position(x))
  {
    hide Sound;
    hide Held;
    hide ServiceFifo.Ordered;
    hide Emit;
    hide FlowOf;
    hide Greets;
    hide Patient;
    hide Receives;
    var w, k := Due(x), Position(x);
    var (r, out) := Emit(x.config, x.link);
    TransmitKeeps(x, y);
    InfoTurn(x.config, x.link, w);
    EmitInfo(x.config, x.link, w);
    PositionNumber(x.link.peer.next, x.link.peer.confirm);
    StepUp(x.link.peer.next, x.link.peer.confirm);
    ModPlus(|Reported(x)|, k);
  }

  lemma ExchangeTidy(x: Host, y: Host)
    requires Tidy(x, y) && Position(x) < |Due(x)|
    ensures var (x1, y1) := Exchange(x, y);
            && Tidy(x1, y1) && x1.put == x.put && Reported(x1) == Reported(x) && Position(x1) == Position(x) + 1
  {
    hide Inv;
    hide DoTransmit;
    hide DoRead;
    var x1 := DoTransmit(x);
    Leaves(x, y);
    var f := x1.out[0].frame;
    assert x1.out == [Packet(f, |x1.put|)];
    Takes(x1, y, f);
  }

  lemma {:induction false} RoundTidy(x: Host, y: Host, n: nat)
    requires Tidy(x, y) && Position(x) + n == |Due(x)|
    ensures var (x1, y1) := Round(x, y, n); Inv(x1, y1) && x1.put == x.put && |Received(y1)| >= |x.put|
    decreases n
  {
    hide Inv;
    hide Exchange;
    if n > 0 {
      ExchangeTidy(x, y);
      var (x1, y1) := Exchange(x, y);
      RoundTidy(x1, y1, n - 1);
    }
  }

  /**
   * At any point of a run at which nothing is under way from one side, no service frame of it waits, all its frames
   * have been sent and a retry is left: a retry timeout and one round without loss deliver everything it has put.
   */
  lemma TimeoutAndOneRound(s: System, moves: seq<Move>, n: nat)
    requires Begins(s.a) && Begins(s.b)
    requires var e := Run(s, moves);
             && Alive(e.a) && Alive(e.b) && e.a.link.peer.station == e.b.link.peer.station
             && e.a.out == [] && ServiceFifo.Fifo(e.a.link.sq) == []
             && Unconfirmed(e.a.link.peer) && AllSent(e.a.link.peer) && e.a.link.peer.retries > 0
             && n == |e.a.put| - |Reported(e.a)|
    ensures var e := Run(s, moves);
            var back := DoTick(e.a, Tick(true, false, false));
            var (x, y) := Round(back, e.b, n);
            Received(y) == e.a.put == x.put
  {
    hide Inv;
    hide Run;
    hide Round;
    hide DoTick;
    var e := Run(s, moves);
    RunInv(s, moves);
    InvSafe(e.a, e.b);
    GoesBack(e.a, e.b);
    var back := DoTick(e.a, Tick(true, false, false));
    RoundTidy(back, e.b, n);
    var (x, y) := Round(back, e.b, n);
    InvSafe(x, y);
  }

  lemma GoesBack(x: Host, y: Host)
    requires Inv(x, y) && Alive(x) && Alive(y) && x.link.peer.station == y.link.peer.station
    requires x.out == [] && ServiceFifo.Fifo(x.link.sq) == []
    requires Unconfirmed(x.link.peer) && AllSent(x.link.peer) && x.link.peer.retries > 0
    ensures var back := DoTick(x, Tick(true, false, false));
            Tidy(back, y) && Position(back) == 0 && back.put == x.put && Reported(back) == Reported(x)
  {
    hide Sound;
    hide Held;
    hide ServiceFifo.Ordered;
    hide Idle;
    TickKeeps(x, y, Tick(true, false, false));
    HeldSize(x.link, Due(x));
    TimeoutGoesBack(x.config, x.link, Due(x), false, false);
    InvSafe(x, y);
  }
}
