/**
 * The stalled sender is reached: a run of two freshly connected stations, without any loss, that ends in it.
 */
module Stall {
  import opened Frames
  import opened FramesQueue
  import opened InfoStore
  import opened Station
  import opened Window
  import opened Endpoint
  import opened Flow
  import opened Duplex
  import opened Safety
  import opened Retransmission
  import ServiceFifo

  /** As a connection leaves it: the application may send, no number has been acknowledged, retries are left. */
  ghost predicate JustConnected(h: Host) {
    && Fresh(h) && h.link.peer.sentNr == 0 && !h.link.peer.sentReject
    && h.link.peer.canAccept && h.link.hasFree && |h.link.iq.slots| >= 2 && h.link.peer.retries > 0
  }

  // ------------------------------------------------------------------ the sender puts two packets and sends them

  /** Somewhere in the table a slot is free. */
  lemma FreeFound(q: Queue, i: nat)
    requires i < |q.slots| && q.slots[i].kind == FreeSlot
    ensures AnyFree(q)
  {
    FindFinds(q, {FreeSlot}, 0, 0);
    assert Matches(q.slots[i], {FreeSlot}, 0, 0);
  }

  lemma OneTaken(q: Queue, f: Frame)
    requires |q.slots| >= 2 && (forall i | 0 <= i < |q.slots| :: q.slots[i].kind == FreeSlot)
    ensures AnyFree(q) && AnyFree(Allocate(q, InfoSlot, f))
  {
    FreeFound(q, 0);
    var r := Allocate(q, InfoSlot, f);
    var i := Find(q, {FreeSlot}, 0, 0).value;
    var j := if i == 0 then 1 else 0;
    assert r.slots[j] == q.slots[j];
    FreeFound(r, j);
  }

  /** Open for packets, with `w` put and nothing sent yet. */
  ghost predicate Loaded(h: Host, w: seq<seq<byte>>) {
    && Live(h.link, w) && h.put == w && h.out == [] && h.config.mode == ABM && |w| <= 2
    && ServiceFifo.Fifo(h.link.sq) == []
    && h.link.peer.confirm == h.link.peer.next == h.link.peer.nextNr == 0 && h.link.peer.retries > 0
  }

  lemma FirstLoaded(h: Host, p: seq<byte>)
    requires JustConnected(h) && |p| <= h.link.iq.mtu
    ensures var r := DoSend(h, p);
            && Loaded(r, [p]) && r.link.peer.canAccept && r.link.hasFree && AnyFree(r.link.iq)
            && r.link.iq.mtu == h.link.iq.mtu && r.link.peer.station == h.link.peer.station
  {
    FreshQuiet(h);
    assert h.put[|Reported(h)|..] == [];
    PutMoves(h.link, [], p);
    OneTaken(h.link.iq, IFrame(h.link.peer.station, false, h.link.peer.last, 0, false, p));
    assert [] + [p] == [p];
  }

  lemma SecondLoaded(h: Host, p: seq<byte>, q: seq<byte>)
    requires Loaded(h, [p]) && h.link.peer.canAccept && h.link.hasFree && AnyFree(h.link.iq) && |q| <= h.link.iq.mtu
    ensures var r := DoSend(h, q); Loaded(r, [p, q]) && r.link.peer.station == h.link.peer.station
  {
    PutMoves(h.link, [p], q);
    assert [p] + [q] == [p, q];
  }

  lemma BothSent(h: Host, p: seq<byte>, q: seq<byte>)
    requires Loaded(h, [p, q])
    ensures var r := DoTransmit(DoTransmit(h));
            && Live(r.link, [p, q]) && r.link.peer.next == r.link.peer.last == 2 && r.link.peer.confirm == 0
            && r.link.peer.retries > 0 && r.link.peer.station == h.link.peer.station && r.config == h.config
            && r.out != [] && var f := r.out[0].frame;
               f.IFrame? && f.ns == 0 && f.nr == 0 && f.station == h.link.peer.station
  {
    hide Emit;
    InfoTurn(h.config, h.link, [p, q]);
    EmitInfo(h.config, h.link, [p, q]);
    var m := DoTransmit(h);
    InfoTurn(h.config, m.link, [p, q]);
    EmitInfo(h.config, m.link, [p, q]);
    HeldSize(DoTransmit(m).link, [p, q]);
  }

  // ------------------------------------------------------------------ the receiver answers the first one

  /** The expected frame, with nothing of its own to send, is answered by RR. */
  lemma Answers(c: Config, l: Link, f: Frame)
    requires Live(l, []) && ServiceFifo.Fifo(l.sq) == []
    requires l.peer.next == l.peer.last && l.peer.sentNr == l.peer.nextNr
    requires f.IFrame? && f.ns == l.peer.nextNr && f.nr == l.peer.confirm
    ensures var r := OnRead(c, l, f);
            Live(r, []) && ServiceFifo.Fifo(r.sq) == [SFrame(l.peer.station, false, RR, Inc(l.peer.nextNr), false)]
  {
    var queued := ReadMoves(c, l, [], f);
    var none: seq<seq<byte>> := [];
    assert none[0..] == [];
    var g := SFrame(l.peer.station, false, RR, Inc(l.peer.nextNr), false);
    ServiceFifo.AllocateAppends(l.sq, l.peer.station, SupervisorySlot, g);
    assert OnRead(c, l, f).sq == Allocate(l.sq, SupervisorySlot, g);
    assert [] + [g] == [g];
  }

  lemma ReceiverAnswers(h: Host, f: Frame)
    requires JustConnected(h) && f.IFrame? && f.ns == 0 && f.nr == 0 && f.station == h.link.peer.station
    ensures var r := DoTransmit(DoRead(h, f));
            r.out == [Packet(SFrame(h.link.peer.station, false, RR, 1, false), 0)]
  {
    FreshQuiet(h);
    assert h.put[|Reported(h)|..] == [];
    Answers(h.config, h.link, f);
    Sends1(DoRead(h, f), SFrame(h.link.peer.station, false, RR, 1, false));
  }

  lemma Sends1(h: Host, g: Frame)
    requires Live(h.link, []) && h.config.mode == ABM && h.out == [] && h.put == []
    requires g.SFrame? && ServiceFifo.Fifo(h.link.sq) == [g]
    ensures DoTransmit(h).out == [Packet(g, 0)]
  {
    hide Emit;
    EmitService(h.config, h.link, []);
    var (r, out) := Emit(h.config, h.link);
    assert out == Some(Leaving(g));
    assert h.out + [Packet(g, 0)] == [Packet(g, 0)];
  }

  // ------------------------------------------------------------------ the acknowledgement comes after the timeout

  /** Two packets put and sent; the first is answered, but the retry timer fires before the answer arrives. */
  function LateAnswer(p: seq<byte>, q: seq<byte>): seq<Move> {
    [Move(true, Action.Send(p)), Move(true, Action.Send(q)), Move(true, Transmit), Move(true, Transmit),
     Move(false, Deliver), Move(false, Transmit), Move(true, Tick(true, false, false)), Move(true, Deliver)]
  }

  lemma {:induction false} RunSplit(s: System, first: seq<Move>, rest: seq<Move>)
    ensures Run(s, first + rest) == Run(Run(s, first), rest)
    decreases |first|
  {
    if first == [] {
      assert first + rest == rest;
    } else {
      assert (first + rest)[1..] == first[1..] + rest;
      RunSplit(Step(s, first[0]), first[1..], rest);
    }
  }

  lemma RunTwo(s: System, m: Move, n: Move)
    ensures Run(s, [m, n]) == Step(Step(s, m), n)
  {
    var s1 := Step(s, m);
    assert [m, n][1..] == [n] && [n][1..] == [];
    assert Run(s1, [n]) == Run(Step(s1, n), []);
  }

  lemma TwoPut(s: System, p: seq<byte>, q: seq<byte>)
    requires JustConnected(s.a) && |p| <= s.a.link.iq.mtu && |q| <= s.a.link.iq.mtu
    ensures var e := Run(s, [Move(true, Action.Send(p)), Move(true, Action.Send(q))]);
            Loaded(e.a, [p, q]) && Alive(e.a) && e.a.link.peer.station == s.a.link.peer.station && e.b == s.b
  {
    RunTwo(s, Move(true, Action.Send(p)), Move(true, Action.Send(q)));
    FirstLoaded(s.a, p);
    SecondLoaded(DoSend(s.a, p), p, q);
  }

  lemma TwoLeave(s: System, p: seq<byte>, q: seq<byte>)
    requires Loaded(s.a, [p, q]) && Alive(s.a)
    ensures var e := Run(s, [Move(true, Transmit), Move(true, Transmit)]);
            e.a == DoTransmit(DoTransmit(s.a)) && e.b == s.b
  {
    hide Emit;
    RunTwo(s, Move(true, Transmit), Move(true, Transmit));
    InfoTurn(s.a.config, s.a.link, [p, q]);
  }

  lemma Answered(s: System)
    requires JustConnected(s.b) && s.a.out != []
    requires var f := s.a.out[0].frame; f.IFrame? && f.ns == 0 && f.nr == 0 && f.station == s.b.link.peer.station
    ensures var e := Run(s, [Move(false, Deliver), Move(false, Transmit)]);
            && e.a == s.a.(out := s.a.out[1..])
            && e.b.out == [Packet(SFrame(s.b.link.peer.station, false, RR, 1, false), 0)]
  {
    hide Emit;
    hide OnRead;
    var f := s.a.out[0].frame;
    RunTwo(s, Move(false, Deliver), Move(false, Transmit));
    ReceiverAnswers(s.b, f);
    FreshQuiet(s.b);
    assert s.b.put[|Reported(s.b)|..] == [];
    Answers(s.b.config, s.b.link, f);
  }

  lemma TooLate(s: System, p: seq<byte>, q: seq<byte>)
    requires Live(s.a.link, [p, q]) && s.a.link.peer.next == s.a.link.peer.last == 2 && s.a.link.peer.confirm == 0
    requires s.a.link.peer.retries > 0 && s.a.config.mode == ABM
    requires s.b.out == [Packet(SFrame(s.a.link.peer.station, false, RR, 1, false), 0)]
    ensures var e := Run(s, [Move(true, Tick(true, false, false)), Move(true, Deliver)]); Stalled(e.a.link, [q])
  {
    hide Idle;
    hide OnRead;
    var f := SFrame(s.a.link.peer.station, false, RR, 1, false);
    RunTwo(s, Move(true, Tick(true, false, false)), Move(true, Deliver));
    TimeoutGoesBack(s.a.config, s.a.link, [p, q], false, false);
    LateAckStalls(s.a.config, s.a.link, [p, q], f);
    assert [p, q][1..] == [q];
  }

  /**
   * From two fresh connections on one address, eight steps without any loss leave the sender stalled with the second
   * packet, although its peer answers everything.
   */
  lemma StallReached(s: System, p: seq<byte>, q: seq<byte>)
    requires JustConnected(s.a) && JustConnected(s.b) && s.a.link.peer.station == s.b.link.peer.station
    requires |p| <= s.a.link.iq.mtu && |q| <= s.a.link.iq.mtu
    ensures Stalled(Run(s, LateAnswer(p, q)).a.link, [q])
  {
    hide Run;
    hide Loaded;
    hide Live;
    var m1, m2 := [Move(true, Action.Send(p)), Move(true, Action.Send(q))],
      [Move(true, Transmit), Move(true, Transmit)];
    var m3, m4 := [Move(false, Deliver), Move(false, Transmit)],
      [Move(true, Tick(true, false, false)), Move(true, Deliver)];
    assert LateAnswer(p, q) == m1 + (m2 + (m3 + m4));
    var s1 := Run(s, m1);
    RunSplit(s, m1, m2 + (m3 + m4));
    TwoPut(s, p, q);
    var s2 := Run(s1, m2);
    RunSplit(s1, m2, m3 + m4);
    TwoLeave(s1, p, q);
    BothSent(s1.a, p, q);
    var s3 := Run(s2, m3);
    RunSplit(s2, m3, m4);
    Answered(s2);
    TooLate(s3, p, q);
  }
}
