/**
 * The marker over whole runs of a line: a line just set up has one; as many are missing as P/F frames were lost; and
 * taking the marker back leaves a single one exactly when it makes up for such a loss.
 */
module MarkerRuns {
  import opened Frames
  import opened FramesQueue
  import opened InfoStore
  import opened Station
  import opened Handle
  import opened Connections
  import opened Token
  import ServiceFifo

  function Run(b: Line, acts: seq<Act>): (r: Line)
    requires Wf(b.primary) && forall i | 0 <= i < |b.others| :: Wf(b.others[i])
    ensures Wf(r.primary) && forall i | 0 <= i < |r.others| :: Wf(r.others[i])
    decreases |acts|
  {
    if acts == [] then b else Run(After(b, acts[0]), acts[1..])
  }

  // ------------------------------------------------------------------ a line just set up

  /** The primary after its application has registered peers. */
  function RegisterAll(h: Handle, addresses: seq<byte>): (r: Handle)
    requires Wf(h)
    ensures SameShape(h, r)
    decreases |addresses|
  {
    if addresses == [] then h else RegisterAll(Step(h, NewPeer(addresses[0])), addresses[1..])
  }

  function Field(a: byte): byte { (a << 2) | 0x01 }

  /** An address a peer can be registered under. */
  predicate Secondary(a: byte) { 0 < a <= 63 }

  /** Every registered peer has the address field of one of these addresses. */
  ghost predicate Among(h: Handle, addresses: seq<byte>) {
    forall i | 0 <= i < |h.peers| && h.peers[i].registered ::
      exists a :: a in addresses && Secondary(a) && h.peers[i].station == Field(a)
  }

  lemma FieldPlain(a: byte)
    ensures PlainAddress(Field(a))
  {
  }

  /** A station of a line that holds the marker and has nothing queued. */
  ghost predicate Poised(h: Handle) {
    && Sober(h) && Polls(h.config) && h.marker && h.nextPeer == 0
    && (forall i | 0 <= i < |h.sq.slots| :: h.sq.slots[i].kind == FreeSlot)
    && forall i | 0 <= i < |h.peers| ::
         h.peers[i].state == Disconnected && (h.peers[i].registered ==> h.peers[0].registered)
  }

  lemma {:induction false} RegisterAtPoised(h: Handle, a: byte, i: nat, known: seq<byte>)
    requires Poised(h) && i <= |h.peers| && Among(h, known) && a in known && Secondary(a)
    requires i == 0 || h.peers[0].registered
    ensures var r := RegisterAt(h, Field(a), i); Poised(r) && Among(r, known)
    ensures RegisterAt(h, Field(a), i).peers[0].registered
    decreases |h.peers| - i
  {
    FieldPlain(a);
    if i < |h.peers| && h.peers[i].registered { RegisterAtPoised(h, a, i + 1, known); }
  }

  /** Registering peers leaves the primary poised, with the first record taken if any peer could be registered. */
  lemma {:induction false} RegisterAllPoised(h: Handle, addresses: seq<byte>, known: seq<byte>)
    requires Poised(h) && Among(h, known) && forall a | a in addresses :: a in known
    ensures var r := RegisterAll(h, addresses); Poised(r) && Among(r, known)
    ensures var r := RegisterAll(h, addresses);
            h.peers[0].registered || (exists a :: a in addresses && Secondary(a)) ==> r.peers[0].registered
    decreases |addresses|
  {
    assert Wf(h);
    if addresses != [] {
      var a := addresses[0];
      assert a in addresses && forall x | x in addresses[1..] :: x in addresses;
      assert forall x | x in addresses :: x == a || x in addresses[1..];
      var m := Step(h, NewPeer(a));
      RegisterPoised(h, a, known);
      hide Poised;
      hide Among;
      RegisterAllPoised(m, addresses[1..], known);
    }
  }

  lemma RegisterPoised(h: Handle, a: byte, known: seq<byte>)
    requires Poised(h) && Among(h, known) && a in known
    ensures var m := Register(h, a);
            Poised(m) && Among(m, known) && (h.peers[0].registered || Secondary(a) ==> m.peers[0].registered)
  {
    assert Register(h, a) == if !Secondary(a) || AddressToPeer(h, Field(a)).Some? then h
           else RegisterAt(h, Field(a), 0);
    if Secondary(a) {
      RegisterAtPoised(h, a, 0, known);
      KnownTaken(h, Field(a));
    }
  }

  /** An address is only known once the first record is taken. */
  lemma KnownTaken(h: Handle, a: byte)
    requires Poised(h)
    ensures AddressToPeer(h, a).Some? ==> h.peers[0].registered
  {
  }

  /** Secondaries just initialised, each under an address of its own. */
  ghost predicate Listening(others: seq<Handle>) {
    && (forall i | 0 <= i < |others| :: Initial(others[i]) && others[i].config.mode == NRM && !others[i].config.primary)
    && (forall i, j | 0 <= i < j < |others| :: others[i].addr != others[j].addr)
  }

  /** Each address that can be registered is that of a secondary. */
  ghost predicate Covered(addresses: seq<byte>, others: seq<Handle>) {
    forall a | a in addresses && Secondary(a) :: exists i :: 0 <= i < |others| && others[i].addr == Field(a)
  }

  lemma InitialPoised(h: Handle)
    requires Initial(h) && Polls(h.config)
    ensures Poised(h) && Among(h, [])
  {
    assert forall i | 0 <= i < |h.peers| :: FreshPeer(h.peers[i], h.config);
  }

  lemma InitialSober(h: Handle)
    requires Initial(h) && h.config.mode == NRM
    ensures Sober(h) && h.marker == h.config.primary
  {
  }

  lemma {:induction false} NoHolders(others: seq<Handle>)
    requires forall i | 0 <= i < |others| :: !others[i].marker
    ensures Holders(others) == 0
  {
    if others != [] { NoHolders(others[..|others| - 1]); }
  }

  function SetUp(h: Handle, addresses: seq<byte>, others: seq<Handle>): Line
    requires Wf(h)
  {
    Line(RegisterAll(h, addresses), others, [], [])
  }

  lemma SetUpPoised(h: Handle, addresses: seq<byte>)
    requires Initial(h) && Polls(h.config)
    ensures var r := RegisterAll(h, addresses);
            && Poised(r) && Among(r, addresses)
                 && ((exists a :: a in addresses && Secondary(a)) ==> r.peers[0].registered)
  {
    InitialPoised(h);
    assert Among(h, addresses);
    RegisterAllPoised(h, addresses, addresses);
  }

  lemma SetUpPresent(h: Handle, addresses: seq<byte>, others: seq<Handle>, station: byte)
    requires Wf(h) && Among(h, addresses) && Covered(addresses, others) && KnownPeer(Line(h, others, [], []), station)
    ensures Present(Line(h, others, [], []), station)
  {
    var i :| 0 <= i < |h.peers| && h.peers[i].registered && h.peers[i].station == station;
    var a :| a in addresses && Secondary(a) && h.peers[i].station == Field(a);
    var k :| 0 <= k < |others| && others[k].addr == Field(a);
    assert Line(h, others, [], []).others[k].addr == station;
  }

  /** A primary and secondaries as initialised, once the peers are registered, form a line with exactly one marker. */
  lemma SetUpSound(h: Handle, addresses: seq<byte>, others: seq<Handle>)
    requires Initial(h) && Polls(h.config) && Listening(others) && Covered(addresses, others)
    ensures var b := SetUp(h, addresses, others); Ready(b) && Matched(b) && Tokens(b) == 1
  {
    assert Wf(h);
    hide Initial;
    hide RegisterAll;
    hide KnownPeer;
    hide Present;
    hide Among;
    hide Covered;
    SetUpPoised(h, addresses);
    var p, b := RegisterAll(h, addresses), SetUp(h, addresses, others);
    assert b == Line(p, others, [], []);
    assert Wf(p);
    forall i | 0 <= i < |others|
      ensures Sober(others[i]) && !others[i].config.primary && !others[i].marker
    {
      InitialSober(others[i]);
    }
    forall station: byte | KnownPeer(b, station)
      ensures Present(b, station)
    {
      SetUpPresent(p, addresses, others, station);
    }
    NoHolders(others);
  }

  // ------------------------------------------------------------------ losses

  /** Whether an action loses a P/F frame, as a number. */
  function Lost(b: Line, a: Act): nat {
    if a.LoseDown? && b.down != [] then Bit(b.down[0].poll)
    else if a.LoseUp? && b.up != [] then Bit(b.up[0].poll)
    else 0
  }

  /** The primary gives itself a marker it does not hold. */
  predicate Restores(b: Line, a: Act) { a.TakeBack? && !b.primary.marker }

  /** What an action does to the number of markers. */
  lemma ActTokens(b: Line, a: Act)
    requires Sound(b)
    ensures var r := After(b, a); Ready(r) && Matched(r)
    ensures Tokens(After(b, a)) + Lost(b, a) == Tokens(b) + Bit(Restores(b, a))
  {
    hide After;
    if Restores(b, a) {
      TakeBackAdds(b);
    } else {
      ActKeeps(b, a);
      if a.LoseDown? || a.LoseUp? { LossKeeps(b, a); }
      if a.TakeBack? { HeldAlready(b); }
    }
  }

  lemma HeldAlready(b: Line)
    requires Sound(b) && b.primary.marker
    ensures After(b, TakeBack) == b
  {
    assert b.primary.(marker := true) == b.primary;
  }

  /** The P/F frames lost in a run. */
  function LostIn(b: Line, acts: seq<Act>): nat
    requires Wf(b.primary) && forall i | 0 <= i < |b.others| :: Wf(b.others[i])
    decreases |acts|
  {
    if acts == [] then 0 else Lost(b, acts[0]) + LostIn(After(b, acts[0]), acts[1..])
  }

  lemma {:induction false} RunTokens(b: Line, acts: seq<Act>)
    requires Sound(b) && forall a | a in acts :: !a.TakeBack?
    ensures Sound(Run(b, acts)) && Tokens(Run(b, acts)) + LostIn(b, acts) == Tokens(b)
    decreases |acts|
  {
    hide After;
    hide Lost;
    if acts != [] {
      assert acts[0] in acts && forall a | a in acts[1..] :: a in acts;
      ActTokens(b, acts[0]);
      RunTokens(After(b, acts[0]), acts[1..]);
    }
  }

  lemma {:induction false} NothingLost(b: Line, acts: seq<Act>)
    requires (forall a | a in acts :: LossFree(a)) && Ready(b) && Sound(b)
    ensures LostIn(b, acts) == 0
    decreases |acts|
  {
    hide After;
    if acts != [] {
      assert acts[0] in acts && forall a | a in acts[1..] :: a in acts;
      ActKeeps(b, acts[0]);
      NothingLost(After(b, acts[0]), acts[1..]);
    }
  }

  /**
   * Without loss and without taking the marker back there is exactly one marker in every run; with losses, at most
   * one.
   */
  lemma OneMarker(b: Line, acts: seq<Act>)
    requires Ready(b) && Matched(b) && Tokens(b) == 1 && forall a | a in acts :: !a.TakeBack?
    ensures Sound(Run(b, acts)) && ((forall a | a in acts :: LossFree(a)) ==> Tokens(Run(b, acts)) == 1)
  {
    RunTokens(b, acts);
    if forall a | a in acts :: LossFree(a) { NothingLost(b, acts); }
  }

  /**
   * After any run from one marker without a take-back: no marker is left exactly if a P/F frame was lost in the run,
   * and a primary that then takes the marker back leaves the line with a single one exactly in that case.
   */
  lemma TakeBackExact(b: Line, acts: seq<Act>)
    requires Ready(b) && Matched(b) && Tokens(b) == 1 && forall a | a in acts :: !a.TakeBack?
    ensures var e := Run(b, acts);
            && Tokens(e) == 1 - LostIn(b, acts)
            && (!e.primary.marker ==> (Tokens(After(e, TakeBack)) == 1 <==> LostIn(b, acts) > 0))
  {
    RunTokens(b, acts);
    var e := Run(b, acts);
    if !e.primary.marker { TakeBackAdds(e); }
  }

  // ------------------------------------------------------------------ taking the marker back, over and over

  /** At no point of the run are there two markers. */
  predicate AtMostOne(b: Line, acts: seq<Act>)
    requires Wf(b.primary) && forall i | 0 <= i < |b.others| :: Wf(b.others[i])
    decreases |acts|
  {
    Tokens(b) <= 1 && (acts != [] ==> AtMostOne(After(b, acts[0]), acts[1..]))
  }

  /** Each time the primary restores the marker, one more P/F frame has been lost than was made up for before. */
  predicate MadeGood(b: Line, acts: seq<Act>, owed: nat)
    requires Wf(b.primary) && forall i | 0 <= i < |b.others| :: Wf(b.others[i])
    decreases |acts|
  {
    acts != [] ==>
      && (Restores(b, acts[0]) ==> owed > 0)
      && MadeGood(After(b, acts[0]), acts[1..],
                  if Restores(b, acts[0]) then owed - 1 else owed + Lost(b, acts[0]))
  }

  /**
   * Over every run from one marker, with losses and take-backs in any order: there are never two markers if and only
   * if every take-back of a marker the primary does not hold makes up for a P/F frame lost since.
   */
  lemma {:induction false} NeverTwo(b: Line, acts: seq<Act>, owed: nat)
    requires Ready(b) && Matched(b) && Tokens(b) + owed == 1
    ensures AtMostOne(b, acts) <==> MadeGood(b, acts, owed)
    decreases |acts|
  {
    hide After;
    hide Tokens;
    if acts != [] {
      var a, r := acts[0], After(b, acts[0]);
      ActTokens(b, a);
      if Restores(b, a) && owed == 0 {
        assert Tokens(r) == 2;
      } else {
        NeverTwo(r, acts[1..], if Restores(b, a) then owed - 1 else owed + Lost(b, a));
      }
    }
  }

  // ------------------------------------------------------------------ two markers

  /** With nothing queued and no connection, a polling station sends a connection request that carries the marker. */
  lemma RequestNext(c: Config, l: Link)
    requires Polls(c) && l.peer.state == Disconnected
    requires forall i | 0 <= i < |l.sq.slots| :: l.sq.slots[i].kind == FreeSlot
    ensures var (r, out) := NextFrame(c, l);
            out != Nothing && FrameAt(r, out) == UFrame(l.peer.station, true, SNRM, true, [])
  {
    var station, f := l.peer.station, UFrame(l.peer.station, true, SNRM, false, []);
    ServiceFifo.EmptyTable(l.sq, station);
    ServiceFifo.PickIsHead(l.sq, station);
    ServiceFifo.AllocateAppends(l.sq, station, SupervisorySlot, f);
    var q := Allocate(l.sq, SupervisorySlot, f);
    ServiceFifo.PickIsHead(q, station);
    assert [] + [f] == [f];
    assert NextService(l) == (l, Nothing);
    assert Picked(c, l) == NextService(Filler(c, l));
  }

  lemma FirstPoll(h: Handle)
    requires Poised(h) && h.peers[0].registered
    ensures var (r, out) := Speak(h);
            out == Some(UFrame(h.peers[0].station, true, SNRM, true, [])) && !r.marker
  {
    hide NextRegistered;
    hide NextFrame;
    hide Done;
    RequestNext(h.config, View(h, 0));
    SpeakPasses(h);
  }

  lemma TwoActs(b: Line, a: Act, c: Act)
    requires Wf(b.primary) && forall i | 0 <= i < |b.others| :: Wf(b.others[i])
    ensures Run(b, [a, c]) == After(After(b, a), c) && LostIn(b, [a, c]) == Lost(b, a) + Lost(After(b, a), c)
  {
    hide After;
    var m := After(b, a);
    assert [a, c][1..] == [c] && [c][1..] == [];
    assert Run(m, [c]) == Run(After(m, c), []);
    assert LostIn(m, [c]) == Lost(m, c) + LostIn(After(m, c), []);
  }

  lemma TooSoon(b: Line)
    requires Sound(b) && Poised(b.primary) && b.primary.peers[0].registered
    ensures Tokens(Run(b, [PrimarySends, TakeBack])) == Tokens(b) + 1 && LostIn(b, [PrimarySends, TakeBack]) == 0
  {
    hide Matched;
    hide Speak;
    FirstPoll(b.primary);
    var m := After(b, PrimarySends);
    assert !m.primary.marker;
    hide After;
    hide Poised;
    ActTokens(b, PrimarySends);
    TakeBackAdds(m);
    TwoActs(b, PrimarySends, TakeBack);
  }

  /**
   * Taken back too soon, with nothing lost: a line just set up, whose primary has sent its first poll and gives up
   * waiting before the answer is through, has two markers.
   */
  lemma TwoMarkers(h: Handle, addresses: seq<byte>, others: seq<Handle>)
    requires Initial(h) && Polls(h.config) && Listening(others) && Covered(addresses, others)
    requires exists a :: a in addresses && Secondary(a)
    ensures var b := SetUp(h, addresses, others);
            Tokens(b) == 1 && LostIn(b, [PrimarySends, TakeBack]) == 0 && Tokens(Run(b, [PrimarySends, TakeBack])) == 2
  {
    hide Poised;
    hide Ready;
    hide Matched;
    SetUpSound(h, addresses, others);
    SetUpPoised(h, addresses);
    TooSoon(SetUp(h, addresses, others));
  }

  // ------------------------------------------------------------------ secondaries

  predicate BringsMarker(h: Handle, e: Event)
    requires Wf(h)
  {
    e.Incoming? && e.frame.poll && AddressToPeer(h, e.frame.station).Some?
  }

  /** No frame of the run hands the station the marker. */
  predicate NeverPolled(h: Handle, events: seq<Event>)
    requires Wf(h)
    decreases |events|
  {
    events != [] ==> !BringsMarker(h, events[0]) && NeverPolled(Step(h, events[0]), events[1..])
  }

  lemma StepUnpolled(h: Handle, e: Event)
    requires Wf(h) && h.config.mode == NRM && !h.config.primary && !h.marker && !BringsMarker(h, e)
    ensures !Step(h, e).marker && (e.Start? ==> Begin(h).1 == None)
  {
    hide OnRead;
    hide AddressToPeer;
    if e.NewPeer? { RegisterMarker(h, (e.address << 2) | 0x01, 0); }
  }

  lemma {:induction false} RegisterMarker(h: Handle, a: byte, i: nat)
    requires i <= |h.peers|
    ensures RegisterAt(h, a, i).marker == h.marker
    decreases |h.peers| - i
  {
    if i < |h.peers| && h.peers[i].registered { RegisterMarker(h, a, i + 1); }
  }

  lemma {:induction false} RunUnpolled(h: Handle, events: seq<Event>)
    requires Wf(h) && h.config.mode == NRM && !h.config.primary && !h.marker && NeverPolled(h, events)
    ensures !Steps(h, events).marker
    decreases |events|
  {
    hide Step;
    if events != [] {
      StepUnpolled(h, events[0]);
      RunUnpolled(Step(h, events[0]), events[1..]);
    }
  }

  /** A secondary is silent until it is polled: until a frame for it with P/F has come, none of its own is started. */
  lemma SpeaksWhenPolled(h: Handle, events: seq<Event>)
    requires Initial(h) && h.config.mode == NRM && !h.config.primary && NeverPolled(h, events)
    ensures Begin(Steps(h, events)).1 == None
  {
    RunUnpolled(h, events);
  }
}
