/**
 * A frame lost on the way is asked for and sent again: from the first frame behind the gap, one REJ and one round
 * without loss deliver everything.
 */
module GapRecovery {
  import opened Frames
  import opened FramesQueue
  import opened InfoStore
  import opened Station
  import opened Window
  import opened Endpoint
  import opened Flow
  import opened Duplex
  import opened Safety
  import opened Retransmission
  import opened Recovery
  import Replies
  import ServiceFifo

  /** `y` gets what is under way from `x`, sends a frame, and `x` gets it. */
  function Complain(x: Host, y: Host): (Host, Host) {
    var (y1, x1) := Act(y, x, Deliver);
    var (y2, _) := Act(y1, x1, Transmit);
    var (x2, y3) := Act(x1, y2, Deliver);
    (x2, y3)
  }

  /**
   * Both up on one address; one frame is under way from `x`, and it is not the one `y` expects; `y` has asked for
   * nothing yet and nothing else is queued or under way.
   */
  ghost predicate Gap(x: Host, y: Host) {
    && Alive(x) && Alive(y) && x.link.peer.station == y.link.peer.station
    && |x.out| == 1 && y.out == [] && ServiceFifo.Fifo(x.link.sq) == [] == ServiceFifo.Fifo(y.link.sq)
    && !y.link.peer.sentReject
    && var f := x.out[0].frame;
       f.IFrame? && f.station == x.link.peer.station && f.ns != Mod8(|Received(y)|)
  }

  /** The frame behind the gap is taken off the line, not delivered, and answered by REJ. */
  lemma Noticed(x: Host, y: Host)
    requires Inv(x, y) && Gap(x, y)
    ensures var (y1, x1) := Act(y, x, Deliver);
            && Inv(x1, y1) && x1 == x.(out := []) && Alive(y1) && y1.out == [] && |Received(y1)| == |Received(y)|
            && y1.link.peer.station == y.link.peer.station && y1.config == y.config
            && ServiceFifo.Fifo(y1.link.sq) == [Replies.Reject(y.link.peer)]
  {
    hide Sound;
    hide Held;
    hide ServiceFifo.Ordered;
    hide OnRead;
    hide Greets;
    hide Patient;
    hide FlowOf;
    var f, r := x.out[0].frame, OnRead(y.config, y.link, x.out[0].frame);
    assert x.out[0] in x.out && x.out[1..] == [];
    InvSymmetric(x, y);
    ReadKeeps(y, x);
    InvSymmetric(DoRead(y, f), x.(out := []));
    Replies.MissingFrameAsked(y.config, y.link, Due(y), f);
    assert [] + [Replies.Reject(y.link.peer)] == [Replies.Reject(y.link.peer)];
    AckInStep(y, x);
    var _ := ReadMoves(y.config, y.link, Due(y), f);
  }

  /** REJ for the number expected settles everything that has been delivered. */
  lemma Settles(x: Host, y: Host, g: Frame)
    requires Inv(x, y) && Alive(x) && Alive(y) && y.out != [] && y.out[0].frame == g && g.SFrame? && g.kind == REJ
    requires g.nr == Mod8(|Received(y)|)
    ensures |Reported(x)| + Ahead(g.nr, x.link.peer.confirm) == |Received(y)|
  {
    var f := FlowOf(x, y);
    AfterAck(f);
    LatestIs(f.got, f.got);
  }

  lemma ComplaintLeaves(x: Host, y: Host, g: Frame)
    requires Inv(x, y) && Alive(y) && y.out == [] && ServiceFifo.Fifo(y.link.sq) == [g] && g.SFrame?
    ensures var y1 := DoTransmit(y);
            && Inv(x, y1) && Alive(y1) && y1.out == [Packet(g, |y.put|)] && |Received(y1)| == |Received(y)|
            && y1.link.peer.station == y.link.peer.station
  {
    hide Sound;
    hide Held;
    hide ServiceFifo.Ordered;
    hide Emit;
    hide Greets;
    hide Patient;
    hide FlowOf;
    InvSymmetric(x, y);
    TransmitKeeps(y, x);
    InvSymmetric(DoTransmit(y), x);
    EmitService(y.config, y.link, Due(y));
  }

  lemma ComplaintTaken(x: Host, y: Host, g: Frame)
    requires Inv(x, y) && Alive(x) && Alive(y) && x.link.peer.station == y.link.peer.station && x.out == []
    requires y.out != [] && y.out[0].frame == g && ServiceFifo.Fifo(x.link.sq) == []
    requires g.SFrame? && g.kind == REJ && g.station == x.link.peer.station && g.nr == Mod8(|Received(y)|)
    ensures var (x1, y2) := Act(x, y, Deliver);
            && Tidy(x1, y2) && Position(x1) == 0 && x1.put == x.put && |Reported(x1)| == |Received(y2)| == |Received(y)|
  {
    hide Sound;
    hide Held;
    hide ServiceFifo.Ordered;
    hide OnRead;
    hide Greets;
    hide Patient;
    hide FlowOf;
    AckInStep(x, y);
    ReadKeeps(x, y);
    RejectGoesBack(x.config, x.link, Due(x), g);
    var _ := ReadMoves(x.config, x.link, Due(x), g);
    Settles(x, y, g);
  }

  /**
   * Whenever in a run the only frame under way from one side is not the one the other expects, which has asked for
   * nothing yet: this frame, the REJ it draws and one round without loss deliver everything put.
   */
  lemma RejectAndOneRound(s: System, moves: seq<Move>, n: nat)
    requires Begins(s.a) && Begins(s.b)
    requires var e := Run(s, moves); Gap(e.a, e.b) && n == |e.a.put| - |Received(e.b)|
    ensures var e := Run(s, moves);
            var (x, y) := Complain(e.a, e.b);
            var (x1, y1) := Round(x, y, n);
            Received(y1) == e.a.put == x1.put
  {
    hide Run;
    hide Inv;
    var e := Run(s, moves);
    RunInv(s, moves);
    GapFills(e.a, e.b, n);
  }

  lemma GapFills(x: Host, y: Host, n: nat)
    requires Inv(x, y) && Gap(x, y) && n == |x.put| - |Received(y)|
    ensures var (x1, y1) := Complain(x, y);
            var (x2, y2) := Round(x1, y1, n);
            Received(y2) == x.put == x2.put
  {
    hide Inv;
    hide Round;
    hide DoTransmit;
    hide DoRead;
    Noticed(x, y);
    var (y1, x1) := Act(y, x, Deliver);
    var g := Replies.Reject(y.link.peer);
    Expected(x, y);
    ComplaintLeaves(x1, y1, g);
    var y2 := DoTransmit(y1);
    ComplaintTaken(x1, y2, g);
    var (x2, y3) := Act(x1, y2, Deliver);
    RoundTidy(x2, y3, n);
    var (x4, y4) := Round(x2, y3, n);
    InvSafe(x4, y4);
  }

  lemma Expected(x: Host, y: Host)
    requires Inv(x, y) && Alive(y)
    ensures y.link.peer.nextNr == Mod8(|Received(y)|)
  {
  }
}
