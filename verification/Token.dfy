/**
 * The marker on a multi-drop line: one NRM primary, any number of secondaries, frames heard by every station.
 * Holders of the marker and P/F frames under way together are one as long as no frame is lost, and never more than
 * one until the primary takes the marker back.
 */
module Token {
  import opened Frames
  import opened FramesQueue
  import opened InfoStore
  import opened Station
  import opened Handle
  import opened Connections

  lemma PlainPeer(h: Handle, a: byte)
    requires Wf(h) && PlainAddress(a)
    ensures Polls(h.config) ==> AddressToPeer(h, a) == SearchPeer(h.peers, a, 0)
    ensures !Polls(h.config) ==> AddressToPeer(h, a) == if a == h.addr then Some(0) else None
  {
  }

  // ------------------------------------------------------------------ one transmission

  /** A frame put on the line: picked, transmitted, released. */
  function Speak(h: Handle): (r: (Handle, Option<Frame>))
    requires Wf(h)
    ensures SameShape(h, r.0)
  {
    var (b, out) := Begin(h);
    if out == None then (b, None) else (Done(b), out)
  }

  lemma ServiceAddress(l: Link)
    ensures var (r, out) := NextService(l);
            InTables(r, out) && r.peer.station == l.peer.station
              && (out != Nothing ==> FrameAt(r, out).station == l.peer.station)
  {
  }

  lemma InfoAddress(l: Link)
    ensures var (r, out) := NextInfo(l);
            InTables(r, out) && r.peer.station == l.peer.station
              && (out != Nothing ==> FrameAt(r, out).station == l.peer.station)
  {
  }

  lemma PickedAddress(c: Config, l: Link)
    ensures var (r, out) := Picked(c, l);
            InTables(r, out) && (out != Nothing ==> FrameAt(r, out).station == l.peer.station)
  {
    hide NextService;
    hide NextInfo;
    ServiceAddress(l);
    var l1 := NextService(l).0;
    InfoAddress(l1);
    ServiceAddress(Filler(c, NextInfo(l1).0));
  }

  /** Whatever leaves carries the address of the peer it is meant for. */
  lemma NextAddress(c: Config, l: Link)
    ensures var (r, out) := NextFrame(c, l);
            InTables(r, out) && SameId(l.peer, r.peer) && (out != Nothing ==> FrameAt(r, out).station == l.peer.station)
  {
    PickedAddress(c, l);
    NextPasses(c, l);
    var (m, out) := Picked(c, l);
    var r := PollSet(c, m, out);
    assert out != Nothing ==> FrameAt(r, out).station == FrameAt(m, out).station;
  }

  /** A station of a line: in NRM, its peers under plain addresses, and idle between transmissions. */
  ghost predicate Sober(h: Handle) {
    && Wf(h) && h.config.mode == NRM && h.sending == Nothing
    && (forall i | 0 <= i < |h.peers| && h.peers[i].registered :: PlainAddress(h.peers[i].station))
    && (!h.config.primary ==> h.nextPeer == 0 && h.peers[0].registered && h.peers[0].station == h.addr)
  }

  ghost predicate SameIds(h: Handle, r: Handle) {
    |r.peers| == |h.peers| && forall i | 0 <= i < |h.peers| :: SameId(h.peers[i], r.peers[i])
  }

  /** Whose turn comes next depends on who is registered and on nothing else. */
  lemma {:induction false} SameTurn(peers: seq<Peer>, others: seq<Peer>, from: nat, left: nat)
    requires |others| == |peers| && forall i | 0 <= i < |peers| :: SameId(peers[i], others[i])
    requires from < |peers|
    ensures NextRegistered(others, from, left) == NextRegistered(peers, from, left)
    decreases left
  {
    var next := if from + 1 < |peers| then from + 1 else 0;
    assert SameId(peers[next], others[next]);
    if left > 1 && !peers[next].registered { SameTurn(peers, others, next, left - 1); }
  }

  /** A frame is only sent by a holder, to the peer whose turn it is; the marker goes with it iff it carries P/F. */
  lemma SpeakPasses(h: Handle)
    requires Sober(h)
    ensures var (r, out) := Speak(h);
            && Sober(r) && SameIds(h, r)
            && (out == None ==> r.marker == h.marker)
            && r.nextPeer == (if out.Some? && out.value.poll && h.config.primary
                              then NextRegistered(h.peers, h.nextPeer, |h.peers|)
                              else h.nextPeer)
            && (out.Some? ==> h.marker && r.marker == !out.value.poll
                              && h.peers[h.nextPeer].registered && out.value.station == h.peers[h.nextPeer].station)
  {
    hide NextFrame;
    hide Done;
    hide NextRegistered;
    if h.marker && h.peers[h.nextPeer].registered {
      var l := View(h, h.nextPeer);
      NextAddress(h.config, l);
      var (b, out) := Begin(h);
      BeginIds(h);
      if out.Some? {
        DonePasses(b, out.value);
        SameTurn(h.peers, b.peers, h.nextPeer, |h.peers|);
      }
    }
  }

  lemma BeginIds(h: Handle)
    requires Wf(h)
    ensures var (b, out) := Begin(h);
            && SameIds(h, b) && b.nextPeer == h.nextPeer && b.marker == h.marker
            && (out.Some? ==> b.sending != Nothing && InTables(View(b, b.nextPeer), b.sending)
                              && FrameAt(View(b, b.nextPeer), b.sending) == out.value)
            && (out.None? ==> b.sending == h.sending)
  {
    NextAddress(h.config, View(h, h.nextPeer));
    forall j | 0 <= j < |h.peers|
      ensures SameId(h.peers[j], Begin(h).0.peers[j])
    {
    }
  }

  lemma DonePasses(b: Handle, f: Frame)
    requires Wf(b) && b.config.mode == NRM && b.sending != Nothing && b.marker
    requires InTables(View(b, b.nextPeer), b.sending) && FrameAt(View(b, b.nextPeer), b.sending) == f
    requires b.peers[b.nextPeer].registered && f.station == b.peers[b.nextPeer].station && PlainAddress(f.station)
    requires !b.config.primary ==> b.nextPeer == 0 && b.peers[0].station == b.addr
    ensures var r := Done(b);
            && SameIds(b, r) && r.sending == Nothing && r.marker == !f.poll
            && r.nextPeer == if f.poll && b.config.primary
                             then NextRegistered(b.peers, b.nextPeer, |b.peers|)
                             else b.nextPeer
  {
    PlainPeer(b, f.station);
    assert AddressToPeer(b, f.station).Some?;
    assert b.peers[b.nextPeer := b.peers[b.nextPeer]] == b.peers;
  }

  /** A frame captures the marker iff it carries P/F and is for this station. */
  lemma ReadCaptures(h: Handle, f: Frame)
    requires Sober(h)
    ensures var r := Read(h, f);
            && Sober(r) && SameIds(h, r) && r.nextPeer == h.nextPeer
            && r.marker == (h.marker || (f.poll && AddressToPeer(h, f.station).Some?))
  {
    forall j | 0 <= j < |h.peers|
      ensures SameId(h.peers[j], Read(h, f).peers[j])
    {
      StepIdentity(h, Incoming(f), j);
    }
  }

  /** What goes on at a station between transmissions: packets put, timeouts, hanging up. */
  predicate Local(e: Event) { e.Packet? || e.UiPacket? || e.Timeout? || e.Hangup? }

  lemma LocalKeeps(h: Handle, e: Event)
    requires Sober(h) && Local(e)
    ensures var r := Step(h, e); Sober(r) && SameIds(h, r) && r.marker == h.marker && r.nextPeer == h.nextPeer
  {
    forall j | 0 <= j < |h.peers|
      ensures SameId(h.peers[j], Step(h, e).peers[j])
    {
      StepIdentity(h, e, j);
    }
  }

  // ------------------------------------------------------------------ the line

  datatype Line = Line(primary: Handle, others: seq<Handle>, down: seq<Frame>, up: seq<Frame>)

  datatype Act =
    | PrimarySends
    | Sends(i: nat)
    | HeardBelow
    | HeardAbove
    | AtPrimary(e: Event)
    | At(i: nat, e: Event)
    | LoseDown
    | LoseUp
    | TakeBack

  predicate LossFree(a: Act) { !a.LoseDown? && !a.LoseUp? && !a.TakeBack? }

  /** Every secondary hears the frame. */
  function AllRead(others: seq<Handle>, f: Frame): seq<Handle>
    requires forall i | 0 <= i < |others| :: Wf(others[i])
  {
    seq(|others|, i requires 0 <= i < |others| => Read(others[i], f))
  }

  ghost predicate Ready(b: Line) {
    && Sober(b.primary) && Polls(b.primary.config)
    && (forall i | 0 <= i < |b.others| :: Sober(b.others[i]) && !b.others[i].config.primary)
  }

  function After(b: Line, a: Act): (r: Line)
    requires Wf(b.primary) && forall i | 0 <= i < |b.others| :: Wf(b.others[i])
    ensures Wf(r.primary) && forall i | 0 <= i < |r.others| :: Wf(r.others[i])
  {
    match a
    case PrimarySends =>
      var (h, out) := Speak(b.primary);
      b.(primary := h, down := b.down + if out.Some? then [out.value] else [])
    case Sends(i) =>
      if i >= |b.others| then b
      else
        var (h, out) := Speak(b.others[i]);
        b.(others := b.others[i := h], up := b.up + if out.Some? then [out.value] else [])
    case HeardBelow => if b.down == [] then b else b.(others := AllRead(b.others, b.down[0]), down := b.down[1..])
    case HeardAbove => if b.up == [] then b else b.(primary := Read(b.primary, b.up[0]), up := b.up[1..])
    case AtPrimary(e) => if Local(e) then b.(primary := Step(b.primary, e)) else b
    case At(i, e) => if i < |b.others| && Local(e) then b.(others := b.others[i := Step(b.others[i], e)]) else b
    case LoseDown => if b.down == [] then b else b.(down := b.down[1..])
    case LoseUp => if b.up == [] then b else b.(up := b.up[1..])
    case TakeBack => b.(primary := Reclaim(b.primary))
  }

  // ------------------------------------------------------------------ counting

  function Bit(m: bool): nat { if m then 1 else 0 }

  function Holders(others: seq<Handle>): nat {
    if others == [] then 0 else Holders(others[..|others| - 1]) + Bit(others[|others| - 1].marker)
  }

  function Polling(frames: seq<Frame>): nat {
    if frames == [] then 0 else Polling(frames[..|frames| - 1]) + Bit(frames[|frames| - 1].poll)
  }

  /** Markers held and markers under way. */
  function Tokens(b: Line): nat { Bit(b.primary.marker) + Holders(b.others) + Polling(b.down) + Polling(b.up) }

  lemma {:induction false} HeadPolling(frames: seq<Frame>)
    requires frames != []
    ensures Polling(frames) == Bit(frames[0].poll) + Polling(frames[1..])
  {
    var n := |frames|;
    if n > 1 {
      HeadPolling(frames[..n - 1]);
      assert frames[..n - 1][1..] == frames[1..][..n - 2];
    }
  }

  lemma MorePolling(frames: seq<Frame>, out: Option<Frame>)
    ensures Polling(frames + if out.Some? then [out.value] else []) ==
            Polling(frames) + if out.Some? then Bit(out.value.poll) else 0
  {
    if out.Some? {
      assert (frames + [out.value])[..|frames|] == frames;
    } else {
      assert frames + [] == frames;
    }
  }

  /** Two lines of secondaries that differ in the marker of at most one of them. */
  lemma {:induction false} OneDiffers(xs: seq<Handle>, ys: seq<Handle>, i: nat)
    requires |xs| == |ys| && forall j | 0 <= j < |xs| && j != i :: xs[j].marker == ys[j].marker
    ensures Holders(ys) + (if i < |xs| then Bit(xs[i].marker) else 0) ==
            Holders(xs) + if i < |xs| then Bit(ys[i].marker) else 0
  {
    if xs != [] {
      var n := |xs| - 1;
      OneDiffers(xs[..n], ys[..n], i);
    }
  }

  lemma {:induction false} HolderCounts(others: seq<Handle>, i: nat)
    requires i < |others|
    ensures Holders(others) >= Bit(others[i].marker)
  {
    if i < |others| - 1 { HolderCounts(others[..|others| - 1], i); }
  }

  // ------------------------------------------------------------------ conservation

  ghost predicate KnownPeer(b: Line, station: byte) {
    exists i :: 0 <= i < |b.primary.peers| && b.primary.peers[i].registered && b.primary.peers[i].station == station
  }

  ghost predicate Present(b: Line, station: byte) { exists i :: 0 <= i < |b.others| && b.others[i].addr == station }

  /**
   * Every registered peer is a secondary of the line, no two secondaries share an address, and only registered
   * ones take part.
   */
  ghost predicate Matched(b: Line) {
    && (forall i, j | 0 <= i < j < |b.others| :: b.others[i].addr != b.others[j].addr)
    && (forall station: byte | KnownPeer(b, station) :: Present(b, station))
    && (forall f | f in b.down + b.up :: PlainAddress(f.station) && KnownPeer(b, f.station))
    && (forall i | 0 <= i < |b.others| && b.others[i].marker :: KnownPeer(b, b.others[i].addr))
  }

  ghost predicate Sound(b: Line) { Ready(b) && Matched(b) && Tokens(b) <= 1 }

  /** The primary's peers and the secondaries' addresses stay who they are. */
  lemma SamePeers(b: Line, r: Line)
    requires SameIds(b.primary, r.primary)
    requires |r.others| == |b.others| && forall i | 0 <= i < |b.others| :: r.others[i].addr == b.others[i].addr
    ensures forall station: byte ::
              (KnownPeer(r, station) <==> KnownPeer(b, station)) && (Present(r, station) <==> Present(b, station))
  {
    forall station: byte
      ensures (KnownPeer(r, station) <==> KnownPeer(b, station)) && (Present(r, station) <==> Present(b, station))
    {
      if KnownPeer(b, station) {
        var i :| 0 <= i < |b.primary.peers| && b.primary.peers[i].registered && b.primary.peers[i].station == station;
        assert SameId(b.primary.peers[i], r.primary.peers[i]);
      }
      if KnownPeer(r, station) {
        var i :| 0 <= i < |r.primary.peers| && r.primary.peers[i].registered && r.primary.peers[i].station == station;
        assert SameId(b.primary.peers[i], r.primary.peers[i]);
      }
      if Present(b, station) {
        var i :| 0 <= i < |b.others| && b.others[i].addr == station;
        assert r.others[i].addr == station;
      }
      if Present(r, station) {
        var i :| 0 <= i < |r.others| && r.others[i].addr == station;
        assert b.others[i].addr == station;
      }
    }
  }

  lemma KeepsMatched(b: Line, r: Line)
    requires Matched(b) && SameIds(b.primary, r.primary)
    requires |r.others| == |b.others| && forall i | 0 <= i < |b.others| :: r.others[i].addr == b.others[i].addr
    requires forall f | f in r.down + r.up :: f in b.down + b.up || (PlainAddress(f.station) && KnownPeer(b, f.station))
    requires forall i | 0 <= i < |b.others| && r.others[i].marker ::
               b.others[i].marker || KnownPeer(b, b.others[i].addr)
    ensures Matched(r)
  {
    SamePeers(b, r);
  }

  lemma PrimarySent(b: Line, h: Handle, out: Option<Frame>, more: seq<Frame>)
    requires Sound(b) && Sober(h) && SameIds(b.primary, h) && h.config == b.primary.config
    requires more == if out.Some? then [out.value] else []
    requires if out.Some? then b.primary.marker && h.marker == !out.value.poll
                               && PlainAddress(out.value.station) && KnownPeer(b, out.value.station)
             else h.marker == b.primary.marker
    ensures var r := b.(primary := h, down := b.down + more); Sound(r) && Tokens(r) == Tokens(b)
  {
    hide Sober;
    hide KnownPeer;
    hide Present;
    var r := b.(primary := h, down := b.down + more);
    MorePolling(b.down, out);
    assert forall f | f in r.down + r.up :: f in b.down + b.up || out == Some(f);
    KeepsMatched(b, r);
  }

  lemma PrimarySendsKeeps(b: Line)
    requires Sound(b)
    ensures var r := After(b, PrimarySends); Sound(r) && Tokens(r) == Tokens(b)
  {
    hide Speak;
    var (h, out) := Speak(b.primary);
    SpeakPasses(b.primary);
    if out.Some? {
      assert b.primary.peers[b.primary.nextPeer].station == out.value.station;
      assert KnownPeer(b, out.value.station);
    }
    PrimarySent(b, h, out, if out.Some? then [out.value] else []);
  }

  lemma SecondarySent(b: Line, i: nat, h: Handle, out: Option<Frame>, more: seq<Frame>)
    requires Sound(b) && i < |b.others| && Sober(h) && !h.config.primary && h.addr == b.others[i].addr
    requires more == if out.Some? then [out.value] else []
    requires if out.Some? then b.others[i].marker && h.marker == !out.value.poll
                               && PlainAddress(out.value.station) && KnownPeer(b, out.value.station)
             else h.marker == b.others[i].marker
    ensures var r := b.(others := b.others[i := h], up := b.up + more); Sound(r) && Tokens(r) == Tokens(b)
  {
    hide Sober;
    hide KnownPeer;
    hide Present;
    hide Holders;
    hide Polling;
    var r := b.(others := b.others[i := h], up := b.up + more);
    MorePolling(b.up, out);
    OneDiffers(b.others, r.others, i);
    assert forall f | f in r.down + r.up :: f in b.down + b.up || out == Some(f);
    KeepsMatched(b, r);
  }

  lemma SendsKeeps(b: Line, i: nat)
    requires Sound(b)
    ensures var r := After(b, Sends(i)); Sound(r) && Tokens(r) == Tokens(b)
  {
    hide Speak;
    if i < |b.others| {
      var (h, out) := Speak(b.others[i]);
      SpeakPasses(b.others[i]);
      if out.Some? {
        assert KnownPeer(b, b.others[i].addr);
        assert out.value.station == b.others[i].addr;
      }
      SecondarySent(b, i, h, out, if out.Some? then [out.value] else []);
    }
  }

  /** A frame from the primary is read by the one secondary it names. */
  lemma AllReadCaptures(b: Line, f: Frame) returns (k: nat)
    requires Ready(b) && Matched(b) && PlainAddress(f.station) && KnownPeer(b, f.station)
    ensures k < |b.others| && b.others[k].addr == f.station
    ensures forall i | 0 <= i < |b.others| :: Captured(b.others[i], AllRead(b.others, f)[i], i == k && f.poll)
  {
    assert Present(b, f.station);
    k :| 0 <= k < |b.others| && b.others[k].addr == f.station;
    forall i | 0 <= i < |b.others|
      ensures Captured(b.others[i], AllRead(b.others, f)[i], i == k && f.poll)
    {
      ReadCaptures(b.others[i], f);
      PlainPeer(b.others[i], f.station);
    }
  }

  ghost predicate Captured(h: Handle, r: Handle, now: bool) {
    Sober(r) && r.config == h.config && r.addr == h.addr && r.marker == (h.marker || now)
  }

  lemma SecondariesHeard(b: Line, rs: seq<Handle>, k: nat)
    requires Sound(b) && b.down != [] && k < |b.others| == |rs| && b.others[k].addr == b.down[0].station
    requires forall i | 0 <= i < |b.others| :: Captured(b.others[i], rs[i], i == k && b.down[0].poll)
    ensures var r := b.(others := rs, down := b.down[1..]); Sound(r) && Tokens(r) == Tokens(b)
  {
    hide Sober;
    hide KnownPeer;
    hide Present;
    var r := b.(others := rs, down := b.down[1..]);
    HeadPolling(b.down);
    HolderCounts(b.others, k);
    forall i | 0 <= i < |rs|
      ensures rs[i].addr == b.others[i].addr && Sober(rs[i]) && !rs[i].config.primary
      ensures i != k ==> b.others[i].marker == rs[i].marker
    {
      assert Captured(b.others[i], rs[i], i == k && b.down[0].poll);
    }
    OneDiffers(b.others, rs, k);
    assert b.down[0] in b.down + b.up;
    assert forall g | g in r.down + r.up :: g in b.down + b.up;
    KeepsMatched(b, r);
  }

  lemma HeardBelowKeeps(b: Line)
    requires Sound(b)
    ensures var r := After(b, HeardBelow); Sound(r) && Tokens(r) == Tokens(b)
  {
    hide Read;
    if b.down != [] {
      assert b.down[0] in b.down + b.up;
      var k := AllReadCaptures(b, b.down[0]);
      SecondariesHeard(b, AllRead(b.others, b.down[0]), k);
    }
  }

  lemma PrimaryHeard(b: Line, h: Handle)
    requires Sound(b) && b.up != [] && Sober(h) && SameIds(b.primary, h) && h.config == b.primary.config
    requires h.marker == (b.primary.marker || b.up[0].poll)
    ensures var r := b.(primary := h, up := b.up[1..]); Sound(r) && Tokens(r) == Tokens(b)
  {
    var r := b.(primary := h, up := b.up[1..]);
    HeadPolling(b.up);
    assert forall g | g in r.down + r.up :: g in b.down + b.up;
    KeepsMatched(b, r);
  }

  lemma HeardAboveKeeps(b: Line)
    requires Sound(b)
    ensures var r := After(b, HeardAbove); Sound(r) && Tokens(r) == Tokens(b)
  {
    hide Read;
    if b.up != [] {
      var f := b.up[0];
      assert f in b.down + b.up;
      ReadCaptures(b.primary, f);
      PlainPeer(b.primary, f.station);
      assert KnownPeer(b, f.station);
      PrimaryHeard(b, Read(b.primary, f));
    }
  }

  lemma PrimaryActs(b: Line, e: Event)
    requires Sound(b)
    ensures var r := After(b, AtPrimary(e)); Sound(r) && Tokens(r) == Tokens(b)
  {
    hide Step;
    if Local(e) {
      LocalKeeps(b.primary, e);
      assert b.down + [] == b.down;
      PrimarySent(b, Step(b.primary, e), None, []);
    }
  }

  lemma SecondaryActs(b: Line, i: nat, e: Event)
    requires Sound(b)
    ensures var r := After(b, At(i, e)); Sound(r) && Tokens(r) == Tokens(b)
  {
    hide Step;
    if i < |b.others| && Local(e) {
      LocalKeeps(b.others[i], e);
      assert b.up + [] == b.up;
      SecondarySent(b, i, Step(b.others[i], e), None, []);
    }
  }

  /** A lost frame takes the marker with it iff it carried P/F. */
  lemma LossKeeps(b: Line, a: Act)
    requires Sound(b) && (a.LoseDown? || a.LoseUp?)
    ensures var r := After(b, a); Sound(r)
    ensures var r := After(b, a); var line := if a.LoseDown? then b.down else b.up;
            Tokens(r) == Tokens(b) - if line != [] then Bit(line[0].poll) else 0
  {
    hide KnownPeer;
    hide Present;
    var r := After(b, a);
    if a.LoseDown? && b.down != [] { HeadPolling(b.down); }
    if a.LoseUp? && b.up != [] { HeadPolling(b.up); }
    assert forall g | g in r.down + r.up :: g in b.down + b.up;
    KeepsMatched(b, r);
  }

  /** Taking the marker back adds one, whether or not there is one already. */
  lemma TakeBackAdds(b: Line)
    requires Sound(b) && !b.primary.marker
    ensures var r := After(b, TakeBack); Ready(r) && Matched(r) && Tokens(r) == Tokens(b) + 1
  {
    hide KnownPeer;
    hide Present;
    var r := b.(primary := b.primary.(marker := true));
    assert After(b, TakeBack) == r;
    KeepsMatched(b, r);
  }

  lemma ActKeeps(b: Line, a: Act)
    requires Sound(b) && (a.TakeBack? ==> b.primary.marker)
    ensures var r := After(b, a); Sound(r) && (LossFree(a) ==> Tokens(r) == Tokens(b))
  {
    match a
    case PrimarySends => PrimarySendsKeeps(b);
    case Sends(i) => SendsKeeps(b, i);
    case HeardBelow => HeardBelowKeeps(b);
    case HeardAbove => HeardAboveKeeps(b);
    case AtPrimary(e) => PrimaryActs(b, e);
    case At(i, e) => SecondaryActs(b, i, e);
    case LoseDown => LossKeeps(b, a);
    case LoseUp => LossKeeps(b, a);
    case TakeBack => assert b.primary.(marker := true) == b.primary;
  }
}
