/**
 * How a connection comes about: two balanced stations as initialised, one of which times out and asks, end up in the
 * state from which the runs of a connection are studied.
 */
module Handshake {
  import opened Frames
  import opened FramesQueue
  import opened InfoStore
  import opened Station
  import opened Handle
  import opened Endpoint
  import opened Flow
  import opened Duplex
  import opened Safety
  import opened Stall
  import ServiceFifo

  /** A balanced station as one side of a connection. */
  function Side(h: Handle, marks: seq<nat>): Host
    requires Wf(h)
  {
    Host(h.config, View(h, 0), [], [], marks, [])
  }

  function Request(h: Handle): Frame { UFrame(h.addr, true, SABM, true, []) }

  // ------------------------------------------------------------------ the service table with one frame

  predicate AllFree(q: Queue) { forall i | 0 <= i < |q.slots| :: q.slots[i].kind == FreeSlot }

  /** In an empty table a frame is put, found, given its P bit and freed again. */
  lemma ThroughTable(q: Queue, station: byte, f: Frame)
    requires AllFree(q) && f.UFrame? && f.station == station && |f.info| <= q.mtu
    ensures var r := Allocate(q, UnnumberedSlot, f);
            && HasRoom(q, f) && ServiceFifo.Ordered(r, station) && ServiceFifo.Fifo(r) == [f]
            && Find(r, SERVICE, station, 0) == Some(r.lookup) && r.slots[r.lookup].frame == f
            && AllFree(FreeAt(Rewrite(r, r.lookup, WithPoll(f)), r.lookup))
  {
    ServiceFifo.EmptyTable(q, station);
    ServiceFifo.AllocateAppends(q, station, UnnumberedSlot, f);
    var r := Allocate(q, UnnumberedSlot, f);
    assert [] + [f] == [f];
    ServiceFifo.PickIsHead(r, station);
    ServiceFifo.RewriteHead(r, station, WithPoll(f));
    var m := Rewrite(r, r.lookup, WithPoll(f));
    ServiceFifo.FreePops(m, station);
    EmptyFifo(FreeAt(m, r.lookup), station);
  }

  /** A table in order without a frame waiting is empty. */
  lemma EmptyFifo(q: Queue, station: byte)
    requires ServiceFifo.Ordered(q, station) && ServiceFifo.Fifo(q) == []
    ensures AllFree(q)
  {
    var n := |q.slots|;
    forall i | 0 <= i < n
      ensures q.slots[i].kind == FreeSlot
    {
      var k := if i >= q.lookup then i - q.lookup else i + n - q.lookup;
      assert Around(q.lookup, k, n) == i;
      assert ServiceFifo.Nth(q, k).kind == FreeSlot;
    }
  }

  // ------------------------------------------------------------------ the side that asks

  /** What a station keeps while it asks. */
  predicate Asked(l: Link, h: Handle) {
    && l.peer.station == h.addr && l.peer.retries == h.config.maxRetries
    && l.hasFree && 2 <= |l.iq.slots| == |h.iq.slots|
  }

  lemma Asks(h: Handle, silent: bool, quiet: bool)
    requires Initial(h) && h.config.mode == ABM && h.config.primary
    ensures var h1 := Check(h, 0, true, silent, quiet);
            var (h2, out) := Begin(h1);
            && out == Some(Request(h)) && Done(h2).config == h.config
            && Waits(Side(Done(h2), [])) && Asked(View(Done(h2), 0), h)
  {
    var p, f := h.peers[0], UFrame(h.addr, true, SABM, false, []);
    assert FreshPeer(p, h.config);
    ThroughTable(h.sq, h.addr, f);
    var q := Allocate(h.sq, UnnumberedSlot, f);
    var h1 := Check(h, 0, true, silent, quiet);
    var l1 := View(h1, 0);
    assert l1 == Link(p.(state := Connecting), h.iq, q, h.hasFree);
    assert NextService(l1) == (l1, Service(q.lookup));
    var m := Rewrite(q, q.lookup, WithPoll(f));
    assert NextFrame(h.config, l1) == (l1.(sq := m), Service(q.lookup));
    var (h2, out) := Begin(h1);
    assert out == Some(WithPoll(f));
    assert Done(h2).sq == FreeAt(m, q.lookup);
  }

  // ------------------------------------------------------------------ the side that answers

  /** The answer of a station still in its table, and everything else as a new connection has it. */
  ghost predicate Unsent(x: Host, h: Handle) {
    var p := x.link.peer;
    && x == Host(h.config, x.link, [], [], [0], []) && p.state == Connected && p.station == h.addr
    && x.link.sq == Allocate(h.sq, UnnumberedSlot, UFrame(h.addr, false, UA, false, []))
    && AllFree(x.link.iq) && |x.link.iq.slots| == |h.iq.slots| && p.log.received == [] == p.log.confirmed
    && p.confirm == p.next == p.last == p.nextNr == p.sentNr == 0 && p.srej == {} && !p.sentReject
    && p.canAccept && x.link.hasFree && p.retries == h.config.maxRetries
  }

  lemma AnswersRequest(h: Handle, f: Frame)
    requires Initial(h) && h.config.mode == ABM && f == Request(h)
    ensures var r := Read(h, f);
            && r.config == h.config && Begins(Side(r, [0])) && View(r, 0).peer.station == h.addr
            && Unsent(Side(r, [0]), h)
  {
    var p, g := h.peers[0], UFrame(h.addr, false, UA, false, []);
    assert FreshPeer(p, h.config);
    ThroughTable(h.sq, h.addr, g);
    assert AddressToPeer(h, f.station) == Some(0);
    var r := Read(h, f);
    var l := View(r, 0);
    assert l == OnRead(h.config, View(h, 0), f);
    assert l.sq == Allocate(h.sq, UnnumberedSlot, g);
    assert l.iq == ResetFor(h.iq, h.addr);
  }

  lemma AnswerLeaves(x: Host, h: Handle)
    requires Initial(h) && h.config.mode == ABM && Unsent(x, h)
    ensures var r := DoTransmit(x);
            && r.out == [Packet.Packet(UFrame(h.addr, false, UA, true, []), 0)] && r.link.peer == x.link.peer
            && Fresh(r.(out := [])) && JustOpen(r.(out := []), h)
  {
    var g := UFrame(h.addr, false, UA, false, []);
    ThroughTable(h.sq, h.addr, g);
    var l, q := x.link, x.link.sq;
    assert NextService(l) == (l, Service(q.lookup));
    var m := Rewrite(q, q.lookup, WithPoll(g));
    assert NextFrame(x.config, l) == (l.(sq := m), Service(q.lookup));
    assert Emit(x.config, l) == (l.(sq := FreeAt(m, q.lookup)), Some(WithPoll(g)));
  }

  /** A side just connected whose application may send; with a retry left it is what a stall takes. */
  ghost predicate JustOpen(x: Host, h: Handle) {
    && Fresh(x) && x.link.peer.station == h.addr && |x.link.iq.slots| == |h.iq.slots|
    && (h.config.maxRetries > 0 ==> JustConnected(x))
  }

  lemma AnswerArrives(x: Host, h: Handle, f: Frame)
    requires Waits(x) && Asked(x.link, h)
    requires Hello(f) && f.station == h.addr
    ensures JustOpen(DoRead(x, f), h)
  {
    AnswerConnects(x, f);
    var r := OnRead(x.config, x.link, f);
    assert r.iq == ResetFor(x.link.iq, x.link.peer.station);
    assert r.sq == x.link.sq;
  }

  // ------------------------------------------------------------------ both

  function Asking(h: Handle, silent: bool, quiet: bool): Handle
    requires Wf(h)
  {
    Steps(h, [Event.Timeout(0, true, silent, quiet), Start, Finish])
  }

  lemma AskingSteps(h: Handle, silent: bool, quiet: bool)
    requires Wf(h)
    ensures Asking(h, silent, quiet) == Done(Begin(Check(h, 0, true, silent, quiet)).0)
  {
    hide Check;
    hide Begin;
    hide Done;
    var events := [Event.Timeout(0, true, silent, quiet), Start, Finish];
    var h1 := Check(h, 0, true, silent, quiet);
    assert events[1..] == [Start, Finish] && [Start, Finish][1..] == [Finish] && [Finish][1..] == [];
    assert Steps(Begin(h1).0, [Finish]) == Steps(Done(Begin(h1).0), []);
    assert Steps(h1, [Start, Finish]) == Steps(Begin(h1).0, [Finish]);
  }

  /**
   * Two balanced stations as initialised, on one address. A timeout makes one of them ask for a connection; when the
   * other has got the request, one side waits for the answer and the other is connected with the answer in its queue:
   * the runs of a connection begin.
   */
  lemma HandshakeBegins(ha: Handle, hb: Handle, silent: bool, quiet: bool)
    requires Initial(ha) && Initial(hb) && ha.config.mode == hb.config.mode == ABM && ha.config.primary
             && hb.addr == ha.addr
    ensures Begin(Check(ha, 0, true, silent, quiet)).1 == Some(Request(ha))
    ensures var a, b := Side(Asking(ha, silent, quiet), []), Side(Read(hb, Request(ha)), [0]);
            && Begins(a) && Begins(b) && a.link.peer.station == b.link.peer.station == ha.addr
  {
    Asks(ha, silent, quiet);
    AskingSteps(ha, silent, quiet);
    AnswersRequest(hb, Request(ha));
  }

  lemma BothOpen(a: Host, b: Host, ha: Handle, hb: Handle)
    requires Waits(a) && Asked(a.link, ha) && Unsent(b, hb) && Initial(hb) && hb.config.mode == ABM
             && hb.addr == ha.addr
    ensures var e := Run(System(a, b), [Move(false, Transmit), Move(true, Deliver)]);
            JustOpen(e.a, ha) && JustOpen(e.b, hb)
  {
    hide DoTransmit;
    hide DoRead;
    hide JustOpen;
    hide Initial;
    var f := UFrame(hb.addr, false, UA, true, []);
    AnswerLeaves(b, hb);
    AnswerArrives(a, ha, f);
    RunTwo(System(a, b), Move(false, Transmit), Move(true, Deliver));
    var m := DoTransmit(b);
    assert m.out[0].frame == f && m.out[1..] == [];
  }

  /** And once the answer is through, both sides have just connected. */
  lemma HandshakeCompletes(ha: Handle, hb: Handle, silent: bool, quiet: bool)
    requires Initial(ha) && Initial(hb) && ha.config.mode == hb.config.mode == ABM && ha.config.primary
             && hb.addr == ha.addr
    ensures var s := System(Side(Asking(ha, silent, quiet), []), Side(Read(hb, Request(ha)), [0]));
            var e := Run(s, [Move(false, Transmit), Move(true, Deliver)]);
            JustOpen(e.a, ha) && JustOpen(e.b, hb)
  {
    Asks(ha, silent, quiet);
    AskingSteps(ha, silent, quiet);
    AnswersRequest(hb, Request(ha));
    hide Run;
    hide Unsent;
    hide Asked;
    hide JustOpen;
    BothOpen(Side(Asking(ha, silent, quiet), []), Side(Read(hb, Request(ha)), [0]), ha, hb);
  }
}
