/**
 * Two balanced stations joined by two first-in first-out channels that may lose any frame, and the invariant that
 * every put, emission, delivery, loss and timeout of one connection keeps.
 */
module Duplex {
  import opened Frames
  import opened FramesQueue
  import opened InfoStore
  import opened Station
  import opened Window
  import opened Endpoint
  import opened Flow
  import ServiceFifo

  /**
   * One station: its link, the payloads its application has put, the frames under way to the other side;
   * how many payloads had been delivered when each service frame now waiting was queued, and the number so recorded
   * for every frame with an N(R) that has left.
   */
  datatype Host = Host(
    config: Config, link: Link, put: seq<seq<byte>>, out: seq<Packet>, marks: seq<nat>, left: seq<nat>)

  predicate Alive(h: Host) { h.link.peer.state == Connected }

  function Received(h: Host): seq<seq<byte>> { h.link.peer.log.received }
  function Reported(h: Host): seq<seq<byte>> { h.link.peer.log.confirmed }

  // ------------------------------------------------------------------ what a connected station does

  datatype Action =
    | Send(data: seq<byte>)
    | Transmit
    | Deliver
    | Lose(index: nat)
    | Tick(retryDue: bool, silent: bool, quiet: bool)

  /** A U-frame has no N(R); 0 stands in for it. */
  function NrOf(f: Frame): Seq8 { if f.UFrame? then 0 else f.nr }

  function DoSend(h: Host, data: seq<byte>): Host {
    var (r, result) := Put(h.link, data);
    h.(link := r, put := if result == Success then h.put + [data] else h.put)
  }

  /** `h` after `f` has left and its link has become `r`. */
  function Left(h: Host, r: Link, f: Frame): Host {
    var sent := h.(link := r, out := h.out + [Packet(f, |h.put|)]);
    if f.IFrame? then sent.(left := h.left + [|Received(h)|])
    else if h.marks == [] then sent
    else sent.(marks := h.marks[1..], left := if f.UFrame? then h.left else h.left + [h.marks[0]])
  }

  function DoTransmit(h: Host): Host {
    var (r, out) := Emit(h.config, h.link);
    match out
    case None => h.(link := r)
    case Some(f) => Left(h, r, f)
  }

  /** `h` with its link become `r`; if a service frame was queued, the number of payloads delivered is recorded. */
  function Noted(h: Host, r: Link): Host {
    var queued := |ServiceFifo.Fifo(r.sq)| > |ServiceFifo.Fifo(h.link.sq)|;
    h.(link := r, marks := if queued then h.marks + [|r.peer.log.received|] else h.marks)
  }

  function DoTick(h: Host, act: Action): Host
    requires act.Tick?
  {
    Noted(h, Idle(h.config, h.link, act.retryDue, act.silent, act.quiet))
  }

  /** A frame reaches a station if it carries its address. */
  function DoRead(h: Host, f: Frame): Host {
    if f.station == h.link.peer.station then Noted(h, OnRead(h.config, h.link, f)) else h
  }

  /** A connected station hears everything, one that has asked for a connection the answer. */
  predicate Hears(h: Host, f: Frame) { Alive(h) || (h.link.peer.state == Connecting && Hello(f)) }

  /** An action of `x`; before its link is up and once it is down it takes no part in the connection. */
  function Act(x: Host, y: Host, act: Action): (Host, Host) {
    match act
    case Send(data) => (if Alive(x) then DoSend(x, data) else x, y)
    case Transmit => (if Alive(x) then DoTransmit(x) else x, y)
    case Tick(_, _, _) => (if Alive(x) then DoTick(x, act) else x, y)
    case Deliver =>
      if y.out == [] then (x, y)
      else (if Hears(x, y.out[0].frame) then DoRead(x, y.out[0].frame) else x, y.(out := y.out[1..]))
    case Lose(i) => (if i < |x.out| then x.(out := x.out[..i] + x.out[i + 1..]) else x, y)
  }

  datatype System = System(a: Host, b: Host)

  datatype Move = Move(first: bool, act: Action)

  function Step(s: System, m: Move): System {
    if m.first then var (x, y) := Act(s.a, s.b, m.act); System(x, y)
    else var (y, x) := Act(s.b, s.a, m.act); System(x, y)
  }

  function Run(s: System, moves: seq<Move>): System
    decreases |moves|
  {
    if moves == [] then s else Run(Step(s, moves[0]), moves[1..])
  }

  // ------------------------------------------------------------------ the invariant

  function Nrs(frames: seq<Frame>): seq<Seq8> { seq(|frames|, i requires 0 <= i < |frames| => NrOf(frames[i])) }

  function OutNrs(out: seq<Packet>): seq<Seq8> { seq(|out|, i requires 0 <= i < |out| => NrOf(out[i].frame)) }

  /** The direction from `x` to `y`. */
  function FlowOf(x: Host, y: Host): Flow {
    Flow(x.put, |Received(y)|, |Reported(x)|, x.out, OutNrs(y.out),
         if Alive(y) then Nrs(ServiceFifo.Fifo(y.link.sq)) else [], if Alive(y) then y.marks else [], y.left)
  }

  /** As a sender: confirmed is a prefix of put, and only I-frames, RR, REJ and UA are under way. */
  ghost predicate Tallies(x: Host) {
    && |Reported(x)| <= |x.put| && Reported(x) == x.put[..|Reported(x)|]
    && (forall p | p in x.out :: p.frame.IFrame? || Ack(p.frame) || Hello(p.frame))
    && (Alive(x) ==> x.link.peer.confirm == Mod8(|Reported(x)|) && x.config.mode == ABM)
  }

  /** And what is pending is what has been put and is not confirmed. */
  ghost predicate Sends(x: Host) { Tallies(x) && (Alive(x) ==> Live(x.link, x.put[|Reported(x)|..])) }

  ghost predicate Receives(x: Host, y: Host) {
    && |Received(y)| <= |x.put| && Received(y) == x.put[..|Received(y)|]
    && (Alive(y) ==> y.link.peer.nextNr == Mod8(|Received(y)|))
  }

  /** A UA of `y` comes before everything else it sends, and until it is through nothing of `x` is confirmed. */
  ghost predicate Greets(x: Host, y: Host) {
    && (forall i | 0 <= i < |y.out| :: Hello(y.out[i].frame) ==> i == 0 && Reported(x) == [])
    && (Alive(y) ==> forall i | 0 <= i < |ServiceFifo.Fifo(y.link.sq)| ::
          Hello(ServiceFifo.Fifo(y.link.sq)[i]) ==> i == 0 && y.out == [] && Reported(x) == [])
  }

  /** A station that has asked for a connection and has no other business. */
  ghost predicate Waits(h: Host) {
    && h.config.mode == ABM && h.put == [] && h.out == [] && h.marks == [] && h.left == []
    && h.link.peer.state == Connecting && Received(h) == Reported(h) == []
    && |h.link.iq.slots| <= 7
    && (forall i | 0 <= i < |h.link.iq.slots| :: h.link.iq.slots[i].kind == FreeSlot)
    && (forall i | 0 <= i < |h.link.sq.slots| :: h.link.sq.slots[i].kind == FreeSlot)
  }

  ghost predicate Patient(h: Host) { h.link.peer.state == Connecting ==> Waits(h) }

  ghost predicate Inv(x: Host, y: Host) {
    && Sends(x) && Sends(y) && Receives(x, y) && Receives(y, x) && Patient(x) && Patient(y)
    && Sound(FlowOf(x, y)) && Sound(FlowOf(y, x)) && Greets(x, y) && Greets(y, x)
  }

  // ------------------------------------------------------------------ each action keeps it

  /** A put touches nothing but what is put and pending. */
  lemma SendOnly(x: Host, y: Host, r: Link, put: seq<seq<byte>>)
    requires r.sq == x.link.sq && r.peer.log == x.link.peer.log && r.peer.state == x.link.peer.state
    ensures var x' := x.(link := r, put := put);
            && FlowOf(x', y) == FlowOf(x, y).(put := put) && FlowOf(y, x') == FlowOf(y, x)
            && (Greets(x, y) ==> Greets(x', y)) && (Greets(y, x) ==> Greets(y, x')) && (Alive(x) ==> Patient(x'))
  {
  }

  /** What is put is pending: the books of the sender after a put. */
  lemma SendTallies(x: Host, data: seq<byte>)
    requires Sends(x) && Alive(x)
    ensures var x' := DoSend(x, data);
            Sends(x') && (x'.put == x.put || (x'.put == x.put + [data] && |x.put| < |Reported(x)| + 7))
    ensures var r := DoSend(x, data).link;
            && r.sq == x.link.sq && r.peer.log == x.link.peer.log && r.peer.state == x.link.peer.state
            && r.peer.nextNr == x.link.peer.nextNr
  {
    hide Put;
    hide ServiceFifo.Ordered;
    var w := x.put[|Reported(x)|..];
    PutMoves(x.link, w, data);
    var x' := DoSend(x, data);
    if x'.put != x.put { assert x'.put[|Reported(x)|..] == w + [data]; }
  }

  lemma SendKeeps(x: Host, y: Host, data: seq<byte>)
    requires Inv(x, y) && Alive(x)
    ensures Inv(DoSend(x, data), y)
  {
    hide Put;
    hide Sends;
    hide Sound;
    hide Greets;
    hide Patient;
    assert Receives(x, y) && Receives(y, x);
    SendTallies(x, data);
    var x' := DoSend(x, data);
    if x'.put != x.put { AfterPut(FlowOf(x, y), data); }
    SendOnly(x, y, x'.link, x'.put);
  }

  /** What an emission leaves alone. */
  predicate SameCounts(l: Link, r: Link) {
    && r.peer.state == l.peer.state && r.peer.station == l.peer.station && r.peer.confirm == l.peer.confirm
    && r.peer.nextNr == l.peer.nextNr && r.peer.log == l.peer.log
  }

  lemma LeftTallies(x: Host, r: Link, f: Frame)
    requires Tallies(x) && SameCounts(x.link, r) && (f.IFrame? || Ack(f) || Hello(f))
    ensures Tallies(Left(x, r, f)) && OutNrs(Left(x, r, f).out) == OutNrs(x.out) + [NrOf(f)]
  {
  }

  lemma LeftReceives(x: Host, y: Host, r: Link, f: Frame)
    requires Receives(x, y) && Receives(y, x) && SameCounts(x.link, r)
    ensures Receives(Left(x, r, f), y) && Receives(y, Left(x, r, f))
  {
  }

  lemma InfoLeaves(x: Host, y: Host, r: Link, f: Frame, k: nat)
    requires Sound(FlowOf(x, y)) && Sound(FlowOf(y, x)) && Alive(x) && SameCounts(x.link, r)
    requires f.IFrame? && |Reported(x)| <= k < |x.put| && f.ns == Mod8(k) && f.payload == x.put[k]
             && f.nr == Mod8(|Received(x)|)
    requires ServiceFifo.Fifo(x.link.sq) == [] == ServiceFifo.Fifo(r.sq)
    ensures Sound(FlowOf(Left(x, r, f), y)) && Sound(FlowOf(y, Left(x, r, f)))
  {
    hide Sound;
    var x', fx, fy := Left(x, r, f), FlowOf(x, y), FlowOf(y, x);
    AfterSend(fx, Packet(f, |x.put|), k);
    AfterInfoLeaves(fy);
    assert OutNrs(x'.out) == OutNrs(x.out) + [f.nr];
    assert FlowOf(x', y) == fx.(data := fx.data + [Packet(f, |x.put|)]);
    assert FlowOf(y, x') == fy.(back := fy.back + [Mod8(fy.got)], left := fy.left + [fy.got]);
  }

  lemma NrsHead(f: Frame, rest: seq<Frame>)
    ensures Nrs([f] + rest) == [NrOf(f)] + Nrs(rest) && Nrs([f] + rest)[1..] == Nrs(rest)
  {
  }

  /** `f` is the oldest service frame of `l`, as it leaves. */
  ghost predicate Heads(l: Link, r: Link, f: Frame) {
    var q := ServiceFifo.Fifo(l.sq);
    q != [] && f == Leaving(q[0]) && ServiceFifo.Fifo(r.sq) == q[1..]
  }

  /** The same departure on the numbers of both directions. */
  lemma ServiceFlow(x: Host, y: Host, r: Link, f: Frame)
    requires Alive(x) && SameCounts(x.link, r) && !f.IFrame? && Heads(x.link, r, f)
    requires |x.marks| == |ServiceFifo.Fifo(x.link.sq)|
    ensures var fx := FlowOf(x, y); FlowOf(Left(x, r, f), y) == fx.(data := fx.data + [Packet(f, |x.put|)])
    ensures var fy := FlowOf(y, x);
            && fy.waiting != [] && |fy.marks| == |fy.waiting|
            && FlowOf(y, Left(x, r, f)) ==
               fy.(back := fy.back + [fy.waiting[0]], waiting := fy.waiting[1..], marks := fy.marks[1..],
                   left := if f.UFrame? then fy.left else fy.left + [fy.marks[0]])
  {
    var q := ServiceFifo.Fifo(x.link.sq);
    assert q == [q[0]] + ServiceFifo.Fifo(r.sq);
    NrsHead(q[0], ServiceFifo.Fifo(r.sq));
    assert OutNrs(Left(x, r, f).out) == OutNrs(x.out) + [NrOf(f)];
  }

  lemma ServiceLeaves(x: Host, y: Host, r: Link, f: Frame)
    requires Sound(FlowOf(x, y)) && Sound(FlowOf(y, x)) && Alive(x) && SameCounts(x.link, r)
    requires !f.IFrame? && Heads(x.link, r, f)
    ensures Sound(FlowOf(Left(x, r, f), y)) && Sound(FlowOf(y, Left(x, r, f)))
  {
    assert |x.marks| == |ServiceFifo.Fifo(x.link.sq)|;
    hide Sound;
    ServiceFlow(x, y, r, f);
    assert FlowOf(x, y).put == x.put;
    hide FlowOf;
    hide Heads;
    AfterSend(FlowOf(x, y), Packet(f, |x.put|), 0);
    AfterServiceLeaves(FlowOf(y, x));
    AfterGreetingLeaves(FlowOf(y, x));
  }

  /** The order of a greeting and what follows it is kept when the oldest frame leaves. */
  lemma LeftGreets(x: Host, y: Host, r: Link, f: Frame)
    requires Greets(x, y) && Greets(y, x) && Alive(x) && SameCounts(x.link, r)
    requires if f.IFrame? then ServiceFifo.Fifo(x.link.sq) == [] == ServiceFifo.Fifo(r.sq) else Heads(x.link, r, f)
    ensures Greets(Left(x, r, f), y) && Greets(y, Left(x, r, f))
  {
    var q, x' := ServiceFifo.Fifo(x.link.sq), Left(x, r, f);
    assert !f.IFrame? ==> (Hello(f) <==> Hello(q[0]));
    assert forall i | 0 <= i < |ServiceFifo.Fifo(r.sq)| :: ServiceFifo.Fifo(r.sq)[i] == q[i + 1];
  }

  lemma NothingLeaves(x: Host, y: Host, r: Link)
    requires Receives(x, y) && Receives(y, x) && Tallies(x) && SameCounts(x.link, r) && Greets(x, y) && Greets(y, x)
    requires ServiceFifo.Fifo(r.sq) == ServiceFifo.Fifo(x.link.sq)
    ensures var x' := x.(link := r);
            && Receives(x', y) && Receives(y, x') && Tallies(x') && Greets(x', y) && Greets(y, x')
            && FlowOf(x', y) == FlowOf(x, y) && FlowOf(y, x') == FlowOf(y, x)
  {
  }

  /** What an emission is, on the numbers of the connection. */
  lemma EmittedNumbers(x: Host, r: Link, f: Frame) returns (k: nat)
    requires Sends(x) && Alive(x) && Emitted(x.link, x.put[|Reported(x)|..], r, Some(f))
    ensures SameCounts(x.link, r) && Live(r, x.put[|Reported(x)|..])
    ensures if f.IFrame? then |Reported(x)| <= k < |x.put| && f.ns == Mod8(k) && f.payload == x.put[k]
                              && f.nr == x.link.peer.nextNr
                              && ServiceFifo.Fifo(x.link.sq) == [] == ServiceFifo.Fifo(r.sq)
            else (Ack(f) || Hello(f)) && Heads(x.link, r, f)
  {
    hide Held;
    hide ServiceFifo.Ordered;
    var c := |Reported(x)|;
    if f.IFrame? {
      k := c + Ahead(f.ns, x.link.peer.confirm);
      ModPlus(c, k - c);
    } else {
      k := 0;
      assert ServiceFifo.Fifo(x.link.sq)[0] in ServiceFifo.Fifo(x.link.sq);
    }
  }

  lemma TransmitKeeps(x: Host, y: Host)
    requires Inv(x, y) && Alive(x)
    ensures Inv(DoTransmit(x), y)
  {
    hide Emit;
    hide Sound;
    hide Live;
    hide Mod8;
    var w := x.put[|Reported(x)|..];
    EmitMoves(x.config, x.link, w);
    var (r, out) := Emit(x.config, x.link);
    match out
    case None => NothingLeaves(x, y, r);
    case Some(f) =>
      hide Emitted;
      var k := EmittedNumbers(x, r, f);
      LeftTallies(x, r, f);
      LeftReceives(x, y, r, f);
      LeftGreets(x, y, r, f);
      if f.IFrame? { InfoLeaves(x, y, r, f, k); } else { ServiceLeaves(x, y, r, f); }
  }

  lemma NrsOfQueued(before: seq<Frame>, queued: seq<Frame>, n: Seq8) returns (more: seq<Seq8>)
    requires |queued| <= 1 && forall f | f in queued :: Ack(f) && f.nr == n
    ensures |more| == |queued| <= 1 && Nrs(before + queued) == Nrs(before) + more && forall m | m in more :: m == n
  {
    more := Nrs(queued);
    assert queued != [] ==> queued[0] in queued;
    assert Nrs(before + queued) == Nrs(before) + more;
  }

  /** What is queued behind a greeting is no greeting. */
  lemma QueuedGreets(x: Host, y: Host, r: Link, queued: seq<Frame>)
    requires Greets(x, y) && Greets(y, x) && Alive(x) && r.peer.log.confirmed == Reported(x)
    requires r.peer.state == Connected ==>
               ServiceFifo.Fifo(r.sq) == ServiceFifo.Fifo(x.link.sq) + queued && forall f | f in queued :: Ack(f)
    ensures Greets(Noted(x, r), y) && Greets(y, Noted(x, r))
  {
    if r.peer.state == Connected {
      var q := ServiceFifo.Fifo(x.link.sq);
      assert forall i | |q| <= i < |q + queued| :: (q + queued)[i] in queued;
    }
  }

  /** The service frames queued by a move of `x` that takes in nothing, on the numbers of the connection. */
  lemma QueuedSound(x: Host, y: Host, r: Link, queued: seq<Frame>)
    requires Sound(FlowOf(y, x)) && Alive(x) && Receives(y, x) && |queued| <= 1
    requires r.peer.state == Connected && r.peer.nextNr == x.link.peer.nextNr && r.peer.log.received == Received(x)
    requires ServiceFifo.Fifo(r.sq) == ServiceFifo.Fifo(x.link.sq) + queued
    requires forall f | f in queued :: Ack(f) && f.nr == r.peer.nextNr
    ensures Sound(FlowOf(y, Noted(x, r)))
  {
    hide Sound;
    var fy := FlowOf(y, x);
    var more := NrsOfQueued(ServiceFifo.Fifo(x.link.sq), queued, x.link.peer.nextNr);
    AfterQueue(fy, more);
    assert FlowOf(y, Noted(x, r)) ==
           fy.(waiting := fy.waiting + more, marks := if more == [] then fy.marks else fy.marks + [fy.got]);
  }

  lemma LapseKeeps(x: Host, y: Host, r: Link, queued: seq<Frame>)
    requires Inv(x, y) && Alive(x) && Lapsed(x.link, x.put[|Reported(x)|..], r, queued)
    ensures Inv(Noted(x, r), y)
  {
    hide Sound;
    hide Held;
    hide ServiceFifo.Ordered;
    hide Greets;
    var w, x', fy := x.put[|Reported(x)|..], Noted(x, r), FlowOf(y, x);
    assert Reported(x) + w[..0] == Reported(x);
    assert FlowOf(x', y) == FlowOf(x, y);
    QueuedGreets(x, y, r, queued);
    if Alive(x') {
      assert w[0..] == w;
      QueuedSound(x, y, r, queued);
    } else {
      WaitingGone(fy);
      assert FlowOf(y, x') == fy.(waiting := [], marks := []);
    }
  }

  lemma TickKeeps(x: Host, y: Host, act: Action)
    requires Inv(x, y) && Alive(x) && act.Tick?
    ensures Inv(DoTick(x, act), y)
  {
    hide Idle;
    hide Lapsed;
    hide Sound;
    var queued := IdleMoves(x.config, x.link, x.put[|Reported(x)|..], act.retryDue, act.silent, act.quiet);
    LapseKeeps(x, y, DoTick(x, act).link, queued);
  }

  lemma DropGreets(x: Host, y: Host, i: nat)
    requires Greets(x, y) && Greets(y, x) && i < |x.out|
    ensures var x' := x.(out := x.out[..i] + x.out[i + 1..]); Greets(x', y) && Greets(y, x')
  {
  }

  /** A frame taken off the channel that has no effect is a loss. */
  lemma DropKeeps(x: Host, y: Host, i: nat)
    requires Inv(x, y) && i < |x.out|
    ensures Inv(x.(out := x.out[..i] + x.out[i + 1..]), y)
  {
    hide Sound;
    hide Held;
    hide ServiceFifo.Ordered;
    hide Greets;
    var x', fy := x.(out := x.out[..i] + x.out[i + 1..]), FlowOf(y, x);
    AfterLoss(FlowOf(x, y), i);
    AfterAckLoss(fy, i);
    DropGreets(x, y, i);
    assert OutNrs(x'.out) == OutNrs(x.out)[..i] + OutNrs(x.out)[i + 1..];
    assert FlowOf(x', y) == FlowOf(x, y).(data := x'.out);
    assert FlowOf(y, x') == fy.(back := fy.back[..i] + fy.back[i + 1..]);
  }

  /** An N(R) that arrives lies in the window: the out-of-sync branch of the confirmation loop is never taken. */
  lemma AckInStep(x: Host, y: Host)
    requires Inv(x, y) && Alive(x) && y.out != []
    ensures Ahead(NrOf(y.out[0].frame), x.link.peer.confirm) <= |x.put| - |Reported(x)| == Size(x.link.peer)
  {
    AfterAck(FlowOf(x, y));
    HeldSize(x.link, x.put[|Reported(x)|..]);
  }

  /** What settling `d` frames on the first N(R) of `y` means for the direction `x` sends in. */
  lemma MovedConfirms(x: Host, y: Host, r: Link, d: nat)
    requires Tallies(x) && Alive(x) && y.out != [] && Sound(FlowOf(x, y))
    requires d == Ahead(NrOf(y.out[0].frame), x.link.peer.confirm) && |Reported(x)| + d <= |x.put|
    requires r.peer.log.confirmed == Reported(x) + x.put[|Reported(x)|..][..d]
             && r.peer.confirm == Plus(x.link.peer.confirm, d)
    ensures var x', y' := Noted(x, r), y.(out := y.out[1..]);
            Tallies(x') && Sound(FlowOf(x', y')) && x.put[|Reported(x)|..][d..] == x.put[|Reported(x')|..]
  {
    hide Sound;
    var c, x', y', fx := |Reported(x)|, Noted(x, r), y.(out := y.out[1..]), FlowOf(x, y);
    AfterAck(fx);
    assert x.put[c..][d..] == x.put[c + d..];
    assert x.put[..c] + x.put[c..][..d] == x.put[..c + d];
    ModPlus(c, d);
    assert OutNrs(y'.out) == OutNrs(y.out)[1..];
    assert FlowOf(x', y') == fx.(back := fx.back[1..], settled := c + d);
  }

  /** What a move means on the receiving side. */
  ghost predicate Took(x: Host, r: Link, g: Gain) {
    && r.peer.state == Connected && g.counted <= 1 && |g.queued| <= 1
    && r.peer.nextNr == Plus(x.link.peer.nextNr, g.counted)
    && r.peer.log.received == Received(x) + g.data
    && ServiceFifo.Fifo(r.sq) == ServiceFifo.Fifo(x.link.sq) + g.queued
    && forall f | f in g.queued :: Ack(f) && f.nr == r.peer.nextNr
  }

  ghost predicate Takes(x: Host, y: Host, g: Gain)
    requires y.out != []
  {
    var f := y.out[0].frame;
    if f.IFrame? && f.ns == x.link.peer.nextNr
    then g.counted == 1 && g.data == [f.payload]
    else g.counted == 0 && g.data == []
  }

  lemma OneMore(got: seq<seq<byte>>, put: seq<seq<byte>>)
    requires |got| < |put| && got == put[..|got|]
    ensures got + [put[|got|]] == put[..|got| + 1]
  {
  }

  lemma NotedLink(x: Host, r: Link)
    ensures Noted(x, r).link == r && Noted(x, r).put == x.put && Noted(x, r).config == x.config
  {
  }

  /** For the direction it receives in: the next payload was delivered, or none. */
  lemma MovedReceives(x: Host, y: Host, r: Link, g: Gain)
    requires Receives(y, x) && Alive(x) && y.out != [] && Took(x, r, g) && Takes(x, y, g) && Sound(FlowOf(y, x))
    ensures Receives(y.(out := y.out[1..]), Noted(x, r)) && |Received(Noted(x, r))| == |Received(x)| + g.counted
  {
    hide Sound;
    hide Noted;
    hide Mod8;
    NotedLink(x, r);
    if g.counted == 1 {
      NextPayload(FlowOf(y, x));
      OneMore(Received(x), y.put);
    }
    ModPlus(|Received(x)|, g.counted);
  }

  lemma MovedTakes(x: Host, y: Host, r: Link, g: Gain)
    requires Receives(y, x) && Alive(x) && y.out != [] && Took(x, r, g) && Takes(x, y, g) && Sound(FlowOf(y, x))
    ensures Sound(FlowOf(y.(out := y.out[1..]), Noted(x, r)))
  {
    hide Sound;
    var x', y', fy := Noted(x, r), y.(out := y.out[1..]), FlowOf(y, x);
    MovedReceives(x, y, r, g);
    assert x'.link.peer.nextNr == Mod8(fy.got + g.counted);
    AfterTake(fy, g.counted == 1);
    var more := NrsOfQueued(ServiceFifo.Fifo(x.link.sq), g.queued, x'.link.peer.nextNr);
    var taken := fy.(data := fy.data[1..], got := fy.got + g.counted);
    AfterQueue(taken, more);
    assert FlowOf(y', x') ==
           taken.(waiting := taken.waiting + more,
                  marks := if more == [] then taken.marks else taken.marks + [taken.got]);
  }

  lemma MovedGave(x: Host, w: seq<seq<byte>>, r: Link, g: Gain)
    requires Moved(x.link, w, r, g)
    ensures g.confirmed <= |w| <= 7 && Live(r, w[g.confirmed..])
    ensures r.peer.log.confirmed == Reported(x) + w[..g.confirmed]
            && r.peer.confirm == Plus(x.link.peer.confirm, g.confirmed)
  {
  }

  lemma MovedTook(x: Host, w: seq<seq<byte>>, r: Link, g: Gain)
    requires Moved(x.link, w, r, g)
    ensures Took(x, r, g)
  {
    hide Held;
    hide ServiceFifo.Ordered;
  }

  lemma PopKeeps(x: Host, y: Host, r: Link)
    requires Sends(y) && Patient(y) && Receives(x, y) && y.out != []
    ensures var y' := y.(out := y.out[1..]); Sends(y') && Patient(y') && Receives(Noted(x, r), y')
  {
    hide Live;
  }

  /** Whatever is taken off the channel, no greeting is left behind it. */
  lemma PopGreets(x: Host, y: Host, r: Link, g: Gain)
    requires Greets(x, y) && Greets(y, x) && Alive(x) && y.out != [] && Took(x, r, g)
    ensures Greets(Noted(x, r), y.(out := y.out[1..])) && Greets(y.(out := y.out[1..]), Noted(x, r))
  {
    var q := ServiceFifo.Fifo(x.link.sq);
    assert forall i | |q| <= i < |q + g.queued| :: (q + g.queued)[i] in g.queued;
  }

  /** A greeting that arrives stands for an acknowledgement of nothing. */
  lemma GreetingSettles(x: Host, y: Host)
    requires Greets(x, y) && Tallies(x) && Alive(x) && y.out != [] && Hello(y.out[0].frame)
    ensures Ahead(NrOf(y.out[0].frame), x.link.peer.confirm) == 0
  {
  }

  /** What the frame at the head of the channel does to a connected station. */
  lemma HeardMoves(x: Host, y: Host) returns (g: Gain)
    requires Inv(x, y) && Alive(x) && y.out != []
    ensures Moved(x.link, x.put[|Reported(x)|..], OnRead(x.config, x.link, y.out[0].frame), g) && Takes(x, y, g)
    ensures g.confirmed == Ahead(NrOf(y.out[0].frame), x.link.peer.confirm)
  {
    hide OnRead;
    hide Moved;
    hide Sound;
    hide Live;
    hide Receives;
    var f, w := y.out[0].frame, x.put[|Reported(x)|..];
    assert y.out[0] in y.out;
    if Hello(f) {
      GreetingSettles(x, y);
      HelloMoves(x.config, x.link, w, f);
      g := NONE;
    } else {
      AckInStep(x, y);
      var queued := ReadMoves(x.config, x.link, w, f);
      var hit := f.IFrame? && f.ns == x.link.peer.nextNr;
      g := Gain(Ahead(f.nr, x.link.peer.confirm), if hit then 1 else 0, if hit then [f.payload] else [], queued);
    }
  }

  lemma ReadKeeps(x: Host, y: Host)
    requires Inv(x, y) && Alive(x) && y.out != [] && y.out[0].frame.station == x.link.peer.station
    ensures Inv(DoRead(x, y.out[0].frame), y.(out := y.out[1..]))
  {
    hide OnRead;
    hide Moved;
    hide Sound;
    hide Live;
    hide Mod8;
    hide Receives;
    hide Greets;
    hide Noted;
    var w, r := x.put[|Reported(x)|..], OnRead(x.config, x.link, y.out[0].frame);
    AckInStep(x, y);
    PopKeeps(x, y, r);
    var g := HeardMoves(x, y);
    MovedGave(x, w, r, g);
    MovedConfirms(x, y, r, g.confirmed);
    MovedTook(x, w, r, g);
    MovedReceives(x, y, r, g);
    MovedTakes(x, y, r, g);
    PopGreets(x, y, r, g);
    NotedLink(x, r);
  }

  /** A connection just made: nothing pending, nothing under way, nothing delivered or confirmed. */
  ghost predicate Fresh(h: Host) {
    var p := h.link.peer;
    && h.config.mode == ABM && h.put == [] && h.out == [] && h.marks == [] && h.left == []
    && p.state == Connected && p.log.received == [] == p.log.confirmed
    && p.confirm == p.next == p.last == p.nextNr == 0 && p.srej == {}
    && |h.link.iq.slots| <= 7
    && (forall i | 0 <= i < |h.link.iq.slots| :: h.link.iq.slots[i].kind == FreeSlot)
    && (forall i | 0 <= i < |h.link.sq.slots| :: h.link.sq.slots[i].kind == FreeSlot)
  }

  ghost predicate Quiet(h: Host) {
    && Sends(h) && h.put == [] && h.out == [] && h.marks == [] && h.left == [] && Received(h) == Reported(h) == []
    && h.link.peer.nextNr == 0 && ServiceFifo.Fifo(h.link.sq) == []
  }

  lemma FreshQuiet(h: Host)
    requires Fresh(h)
    ensures Quiet(h)
  {
    EmptyStore(h.link.iq);
    ServiceFifo.EmptyTable(h.link.sq, h.link.peer.station);
    assert Live(h.link, []);
  }

  /** The answer to its request makes a waiting station a freshly connected one. */
  lemma AnswerConnects(h: Host, f: Frame)
    requires Waits(h) && Hello(f) && f.station == h.link.peer.station
    ensures Fresh(DoRead(h, f))
  {
    var r := OnRead(h.config, h.link, f);
    assert r.sq == h.link.sq;
    assert r.iq == ResetFor(h.link.iq, h.link.peer.station);
  }

  lemma PoppedFlow(x: Host, x': Host, y: Host)
    requires x'.put == x.put && x'.out == x.out && Reported(x') == Reported(x) && y.out != []
    ensures FlowOf(x', y.(out := y.out[1..])) == FlowOf(x, y).(back := FlowOf(x, y).back[1..])
  {
    assert OutNrs(y.out[1..]) == OutNrs(y.out)[1..];
  }

  /** What is waiting on a quiet side: nothing, be it connected or not. */
  lemma QuietFlow(x: Host, x': Host, y: Host)
    requires Waits(x) && Quiet(x') && y.out != []
    ensures FlowOf(y.(out := y.out[1..]), x') == FlowOf(y, x).(data := FlowOf(y, x).data[1..])
  {
    hide Live;
    assert OutNrs(x'.out) == OutNrs(x.out);
    assert Nrs([]) == [];
  }

  lemma ConnectSound(x: Host, x': Host, y: Host)
    requires Waits(x) && Quiet(x') && y.out != [] && Hello(y.out[0].frame)
    requires Sound(FlowOf(x, y)) && Sound(FlowOf(y, x))
    ensures var y' := y.(out := y.out[1..]); Sound(FlowOf(x', y')) && Sound(FlowOf(y', x'))
  {
    hide Sound;
    hide Live;
    AfterNothing(FlowOf(x, y));
    AfterTake(FlowOf(y, x), false);
    PoppedFlow(x, x', y);
    QuietFlow(x, x', y);
  }

  lemma ConnectGreets(x: Host, x': Host, y: Host)
    requires Greets(x, y) && Quiet(x') && y.out != []
    ensures var y' := y.(out := y.out[1..]); Greets(x', y') && Greets(y', x')
  {
    hide Live;
  }

  lemma ConnectTallies(x: Host, x': Host, y: Host)
    requires Sends(y) && Receives(x, y) && Receives(y, x) && Patient(y)
    requires Waits(x) && Quiet(x') && Alive(x') && y.out != []
    ensures var y' := y.(out := y.out[1..]);
            Sends(x') && Sends(y') && Receives(x', y') && Receives(y', x') && Patient(x') && Patient(y')
  {
    hide Live;
  }

  lemma ConnectKeeps(x: Host, y: Host)
    requires Inv(x, y) && x.link.peer.state == Connecting && y.out != []
    requires Hello(y.out[0].frame) && y.out[0].frame.station == x.link.peer.station
    ensures Inv(DoRead(x, y.out[0].frame), y.(out := y.out[1..]))
  {
    hide Sends;
    hide Receives;
    hide Sound;
    hide Greets;
    hide Waits;
    hide DoRead;
    var x' := DoRead(x, y.out[0].frame);
    AnswerConnects(x, y.out[0].frame);
    FreshQuiet(x');
    hide Quiet;
    ConnectTallies(x, x', y);
    ConnectSound(x, x', y);
    ConnectGreets(x, x', y);
  }

  lemma InvSymmetric(x: Host, y: Host)
    requires Inv(x, y)
    ensures Inv(y, x)
  {
    hide Sends;
    hide Receives;
    hide Sound;
    hide FlowOf;
    hide Greets;
    hide Patient;
  }

  lemma DeliverKeeps(x: Host, y: Host)
    requires Inv(x, y) && y.out != []
    ensures var f := y.out[0].frame; Inv(if Hears(x, f) then DoRead(x, f) else x, y.(out := y.out[1..]))
  {
    hide Inv;
    var f := y.out[0].frame;
    if Hears(x, f) && f.station == x.link.peer.station {
      if Alive(x) { ReadKeeps(x, y); } else { ConnectKeeps(x, y); }
    } else {
      InvSymmetric(x, y);
      DropKeeps(y, x, 0);
      assert y.out[..0] + y.out[1..] == y.out[1..];
      InvSymmetric(y.(out := y.out[1..]), x);
    }
  }

  lemma ActKeeps(x: Host, y: Host, act: Action)
    requires Inv(x, y)
    ensures var (x', y') := Act(x, y, act); Inv(x', y')
  {
    hide Inv;
    hide DoSend;
    hide DoTransmit;
    hide DoTick;
    hide DoRead;
    match act
    case Send(data) => if Alive(x) { SendKeeps(x, y, data); }
    case Transmit => if Alive(x) { TransmitKeeps(x, y); }
    case Tick(_, _, _) => if Alive(x) { TickKeeps(x, y, act); }
    case Lose(i) => if i < |x.out| { DropKeeps(x, y, i); }
    case Deliver => if y.out != [] { DeliverKeeps(x, y); }
  }
}
