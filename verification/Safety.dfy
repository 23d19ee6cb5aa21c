/**
 * What holds in every run of two stations from the moment one of them has answered the other's request:
 * delivery in order and without gaps or repetition, confirmation of what was delivered, monotone acknowledgements,
 * and no frame reject.
 */
module Safety {
  import opened Frames
  import opened FramesQueue
  import opened InfoStore
  import opened Station
  import opened Window
  import opened Endpoint
  import opened Flow
  import opened Duplex
  import ServiceFifo

  /**
   * How a station comes into a connection, with nothing put, delivered or confirmed yet: waiting for the answer to
   * its request; or connected, with the answer it gave first in its queue, already under way, or through.
   */
  ghost predicate Begins(h: Host) {
    Waits(h) || (Opened(h) && Greeting(h.out, ServiceFifo.Fifo(h.link.sq), h.marks))
  }

  ghost predicate Opened(h: Host) {
    var p := h.link.peer;
    && h.config.mode == ABM && h.put == [] && h.left == [] && p.state == Connected && Received(h) == Reported(h) == []
    && p.confirm == p.next == p.last == p.nextNr == 0 && p.srej == {}
    && |h.link.iq.slots| <= 7
    && (forall i | 0 <= i < |h.link.iq.slots| :: h.link.iq.slots[i].kind == FreeSlot)
    && ServiceFifo.Ordered(h.link.sq, p.station)
  }

  /** At most one frame is queued or under way, and that is UA. */
  ghost predicate Greeting(out: seq<Packet>, queued: seq<Frame>, marks: seq<nat>) {
    && |out| + |queued| <= 1 && |marks| == |queued|
    && (forall p | p in out :: Hello(p.frame) && p.stamp == 0)
    && (forall f | f in queued :: Hello(f)) && (forall m | m in marks :: m == 0)
  }

  lemma FreshBegins(h: Host)
    requires Fresh(h)
    ensures Begins(h)
  {
    ServiceFifo.EmptyTable(h.link.sq, h.link.peer.station);
  }

  /** One direction of a connection of which at most a greeting is under way. */
  lemma OpeningSound(data: seq<Packet>, back: seq<Seq8>, waiting: seq<Seq8>, marks: seq<nat>)
    requires forall p | p in data :: Hello(p.frame) && p.stamp == 0
    requires |data| <= 1 && |back| + |waiting| <= 1 && |marks| == |waiting| && forall m | m in marks :: m == 0
    requires (forall n | n in back :: n == 0) && forall n | n in waiting :: n == 0
    ensures Sound(Flow([], 0, 0, data, back, waiting, marks, []))
  {
    hide Latest;
    LatestIs(0, 0);
    assert Mod8(0) == 0;
    var acks := back + waiting;
    assert forall i | 0 <= i < |acks| :: acks[i] in back || acks[i] in waiting;
    assert forall i | 0 <= i < |marks| :: marks[i] in marks && waiting[i] in waiting;
    assert Rising(acks, 0, 0);
    assert Marked(marks, waiting, 0);
    assert DataSound([], 0, data);
  }

  lemma BeginsSends(h: Host)
    requires Begins(h)
    ensures Sends(h) && h.put == [] && h.left == [] && Received(h) == Reported(h) == [] && Patient(h)
    ensures Alive(h) ==> h.link.peer.nextNr == 0 && |h.marks| == |ServiceFifo.Fifo(h.link.sq)|
    ensures Greeting(h.out, if Alive(h) then ServiceFifo.Fifo(h.link.sq) else [], if Alive(h) then h.marks else [])
  {
    EmptyStore(h.link.iq);
    if Alive(h) { assert Live(h.link, []); }
  }

  lemma NrsZero(frames: seq<Frame>)
    requires forall f | f in frames :: Hello(f)
    ensures |Nrs(frames)| == |frames| && forall n | n in Nrs(frames) :: n == 0
  {
    assert forall i | 0 <= i < |frames| :: frames[i] in frames;
  }

  lemma OutNrsZero(out: seq<Packet>)
    requires forall p | p in out :: Hello(p.frame)
    ensures |OutNrs(out)| == |out| && forall n | n in OutNrs(out) :: n == 0
  {
    assert forall i | 0 <= i < |out| :: out[i] in out;
  }

  lemma BeginsFlow(x: Host, y: Host)
    requires Begins(x) && Begins(y)
    ensures Sound(FlowOf(x, y)) && Greets(x, y)
  {
    BeginsSends(x);
    BeginsSends(y);
    hide Begins;
    hide Sends;
    hide Sound;
    var queued := if Alive(y) then ServiceFifo.Fifo(y.link.sq) else [];
    NrsZero(queued);
    OutNrsZero(y.out);
    assert Nrs([]) == [];
    var f := FlowOf(x, y);
    OpeningSound(f.data, f.back, f.waiting, f.marks);
    assert f == Flow([], 0, 0, f.data, f.back, f.waiting, f.marks, []);
    assert forall i | 0 <= i < |y.out| :: y.out[i] in y.out;
  }

  lemma BeginsInv(x: Host, y: Host)
    requires Begins(x) && Begins(y)
    ensures Inv(x, y)
  {
    BeginsSends(x);
    BeginsSends(y);
    BeginsFlow(x, y);
    BeginsFlow(y, x);
  }

  ghost predicate EndsSound(s: System, moves: seq<Move>) { var e := Run(s, moves); Inv(e.a, e.b) }

  lemma {:induction false} RunKeeps(s: System, moves: seq<Move>)
    requires Inv(s.a, s.b)
    ensures EndsSound(s, moves)
    decreases |moves|
  {
    hide Inv;
    hide Act;
    if moves != [] {
      var m := moves[0];
      if m.first {
        ActKeeps(s.a, s.b, m.act);
      } else {
        InvSymmetric(s.a, s.b);
        ActKeeps(s.b, s.a, m.act);
        InvSymmetric(Step(s, m).b, Step(s, m).a);
      }
      RunKeeps(Step(s, m), moves[1..]);
    }
  }

  lemma RunInv(s: System, moves: seq<Move>)
    requires Begins(s.a) && Begins(s.b)
    ensures var e := Run(s, moves); Inv(e.a, e.b)
  {
    BeginsInv(s.a, s.b);
    RunKeeps(s, moves);
  }

  ghost predicate Safe(x: Host, y: Host) {
    && Reported(x) <= Received(y) <= x.put
    && |x.put| <= |Reported(x)| + 7
  }

  lemma InvSafe(x: Host, y: Host)
    requires Inv(x, y)
    ensures Safe(x, y)
  {
    assert Sound(FlowOf(x, y));
  }

  /** Both directions, wherever the run ends. */
  ghost predicate EndsSafely(s: System, moves: seq<Move>) {
    var e := Run(s, moves);
    Safe(e.a, e.b) && Safe(e.b, e.a)
  }

  /** In every run: confirmed is a prefix of delivered, and delivered is a prefix of put, in both directions. */
  lemma DeliverySafety(s: System, moves: seq<Move>)
    requires Begins(s.a) && Begins(s.b)
    ensures EndsSafely(s, moves)
  {
    RunInv(s, moves);
    var e := Run(s, moves);
    InvSafe(e.a, e.b);
    InvSafe(e.b, e.a);
  }

  ghost predicate NonDecreasing(left: seq<nat>) { forall i, j | 0 <= i < j < |left| :: left[i] <= left[j] }

  /** The number recorded for each service frame waiting reads its N(R) and is none that has not been delivered. */
  ghost predicate Recorded(h: Host) {
    var q := ServiceFifo.Fifo(h.link.sq);
    Alive(h) ==>
      |h.marks| == |q| && forall i | 0 <= i < |q| :: h.marks[i] <= |Received(h)| && NrOf(q[i]) == Mod8(h.marks[i])
  }

  lemma InvMonotone(x: Host, y: Host)
    requires Inv(x, y)
    ensures NonDecreasing(y.left) && Recorded(y)
  {
    var f, q := FlowOf(x, y), ServiceFifo.Fifo(y.link.sq);
    assert Sound(f);
    if Alive(y) {
      forall i | 0 <= i < |q|
        ensures y.marks[i] <= |Received(y)| && NrOf(q[i]) == Mod8(y.marks[i])
      {
        assert f.waiting[i] == NrOf(q[i]);
        LatestReads(f.got, f.waiting[i]);
      }
    }
  }

  ghost predicate EndsMonotone(s: System, moves: seq<Move>) {
    var e := Run(s, moves);
    NonDecreasing(e.a.left) && NonDecreasing(e.b.left) && Recorded(e.a) && Recorded(e.b)
  }

  /**
   * In every run the absolute N(R) of the frames leaving either side, recorded when each frame was made, never
   * decrease, and what is recorded for the frames still waiting is what they say.
   */
  lemma MonotoneAcks(s: System, moves: seq<Move>)
    requires Begins(s.a) && Begins(s.b)
    ensures EndsMonotone(s, moves)
  {
    RunInv(s, moves);
    var e := Run(s, moves);
    InvMonotone(e.a, e.b);
    InvMonotone(e.b, e.a);
  }

  /**
   * The next frame on its way to `x` has an N(R) in the window, and no U-frame is on its way but a UA before all
   * others.
   */
  ghost predicate InStep(x: Host, y: Host) {
    && (Alive(x) && y.out != [] && !y.out[0].frame.UFrame? ==>
          Ahead(y.out[0].frame.nr, x.link.peer.confirm) <= Size(x.link.peer))
    && forall i | 0 <= i < |y.out| && y.out[i].frame.UFrame? :: i == 0 && Hello(y.out[i].frame) && Reported(x) == []
  }

  lemma InvInStep(x: Host, y: Host)
    requires Inv(x, y)
    ensures InStep(x, y)
  {
    assert forall i | 0 <= i < |y.out| :: y.out[i] in y.out;
    if Alive(x) && y.out != [] { AckInStep(x, y); }
  }

  ghost predicate EndsInStep(s: System, moves: seq<Move>) {
    var e := Run(s, moves);
    InStep(e.a, e.b) && InStep(e.b, e.a)
  }

  /** In every run each N(R) that arrives is in step, and no U-frame is ever sent after the UA that opens a side. */
  lemma AcksInStep(s: System, moves: seq<Move>)
    requires Begins(s.a) && Begins(s.b)
    ensures EndsInStep(s, moves)
  {
    RunInv(s, moves);
    var e := Run(s, moves);
    InvInStep(e.a, e.b);
    InvInStep(e.b, e.a);
  }
}
