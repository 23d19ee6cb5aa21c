/**
 * One direction of a connection in absolute numbers: the payloads put by one side, how many the other side has
 * taken and how many are settled, the frames under way and the acknowledgements coming back.
 * Sequence numbers on the wire are these numbers modulo 8.
 */
module Flow {
  import opened Frames
  import opened Window

  // ------------------------------------------------------------------ numbers modulo 8

  function Mod8(k: nat): Seq8 { k % 8 }

  /** The greatest number up to `r` that reads `n` on the wire. */
  function Latest(r: nat, n: Seq8): int { r - Ahead(Mod8(r), n) }

  lemma ModPlus(k: nat, d: nat)
    requires d <= 8
    ensures Mod8(k + d) == Plus(Mod8(k), d)
  {
  }

  lemma ModAhead(a: nat, b: nat)
    requires b <= a <= b + 7
    ensures Ahead(Mod8(a), Mod8(b)) == a - b
  {
  }

  /** Within eight consecutive numbers the wire number tells which one is meant. */
  lemma LatestIs(r: nat, k: nat)
    requires k <= r <= k + 7
    ensures Latest(r, Mod8(k)) == k
  {
    ModAhead(r, k);
  }

  lemma LatestReads(r: nat, n: Seq8)
    requires Latest(r, n) >= 0
    ensures Mod8(Latest(r, n)) == n
  {
  }

  lemma LatestMoves(r: nat, n: Seq8)
    requires Latest(r, n) > r - 7
    ensures Latest(r + 1, n) == Latest(r, n)
  {
  }

  // ------------------------------------------------------------------ one direction

  /** A frame under way with the number of payloads its sender had put when it left. */
  datatype Packet = Packet(frame: Frame, stamp: nat)

  /**
   * `put`: the payloads put; `got` of them delivered, `settled` of them confirmed to the sender;
   * `data`: packets under way; `back`: the N(R) under way in the other direction; `waiting`: the N(R) of the
   * service frames queued there, and `marks` how many payloads had been delivered when each was queued;
   * `left`: the absolute N(R) of every frame that has left there.
   */
  datatype Flow = Flow(put: seq<seq<byte>>, got: nat, settled: nat, data: seq<Packet>,
                       back: seq<Seq8>, waiting: seq<Seq8>, marks: seq<nat>, left: seq<nat>)

  /** An I-frame under way is one of the seven payloads put last before it left, under its own number. */
  ghost predicate Genuine(put: seq<seq<byte>>, p: Packet) {
    && p.stamp <= |put|
    && (p.frame.IFrame? ==>
          && p.stamp > 0
          && var k := Latest(p.stamp - 1, p.frame.ns);
             0 <= k && p.stamp - 7 <= k && p.frame.payload == put[k])
  }

  ghost predicate DataSound(put: seq<seq<byte>>, got: nat, data: seq<Packet>) {
    && (forall p | p in data :: Genuine(put, p) && got <= p.stamp)
    && (forall i, j | 0 <= i < j < |data| :: data[i].stamp <= data[j].stamp)
  }

  /** Acknowledgements, oldest first: none below what is settled, none behind an earlier one. */
  ghost predicate Rising(acks: seq<Seq8>, settled: nat, got: nat) {
    && (forall i | 0 <= i < |acks| :: settled <= Latest(got, acks[i]))
    && (forall i, j | 0 <= i < j < |acks| :: Latest(got, acks[i]) <= Latest(got, acks[j]))
  }

  /** The number recorded when a service frame was queued is the one its N(R) still stands for. */
  ghost predicate Marked(marks: seq<nat>, waiting: seq<Seq8>, got: nat) {
    |marks| == |waiting| && forall i | 0 <= i < |marks| :: marks[i] == Latest(got, waiting[i])
  }

  ghost predicate Monotone(left: seq<nat>, marks: seq<nat>, got: nat) {
    && (forall i, j | 0 <= i < j < |left| :: left[i] <= left[j])
    && (forall i | 0 <= i < |left| :: left[i] <= got && forall j | 0 <= j < |marks| :: left[i] <= marks[j])
  }

  ghost predicate Sound(f: Flow) {
    && f.settled <= f.got <= |f.put| <= f.settled + 7
    && DataSound(f.put, f.got, f.data)
    && Rising(f.back + f.waiting, f.settled, f.got)
    && Marked(f.marks, f.waiting, f.got)
    && Monotone(f.left, f.marks, f.got)
  }

  // ------------------------------------------------------------------ what can happen to it

  lemma AfterPut(f: Flow, data: seq<byte>)
    requires Sound(f) && |f.put| < f.settled + 7
    ensures Sound(f.(put := f.put + [data]))
  {
  }

  /** A payload that is not yet settled leaves, under its number. */
  lemma AfterSend(f: Flow, p: Packet, k: nat)
    requires Sound(f) && p.stamp == |f.put|
    requires p.frame.IFrame? ==> f.settled <= k < |f.put| && p.frame.ns == Mod8(k) && p.frame.payload == f.put[k]
    ensures Sound(f.(data := f.data + [p]))
  {
    if p.frame.IFrame? { LatestIs(p.stamp - 1, k); }
  }

  /** The frame expected, when it arrives, carries exactly the next payload. */
  lemma NextPayload(f: Flow)
    requires Sound(f) && f.data != []
    requires var g := f.data[0].frame; g.IFrame? && g.ns == Mod8(f.got)
    ensures f.got < f.data[0].stamp <= |f.put| && f.data[0].frame.payload == f.put[f.got]
  {
    var p := f.data[0];
    assert Genuine(f.put, p);
    var k := Latest(p.stamp - 1, p.frame.ns);
    LatestReads(p.stamp - 1, p.frame.ns);
    Congruent(k, f.got);
  }

  lemma Congruent(a: nat, b: nat)
    requires Mod8(a) == Mod8(b) && a - 7 <= b <= a + 7
    ensures a == b
  {
  }

  lemma SameAcks(acks: seq<Seq8>, settled: nat, got: nat)
    requires Rising(acks, settled, got) && got < settled + 7
    ensures Rising(acks, settled, got + 1)
    ensures forall i | 0 <= i < |acks| :: Latest(got + 1, acks[i]) == Latest(got, acks[i])
  {
    forall i | 0 <= i < |acks|
      ensures Latest(got + 1, acks[i]) == Latest(got, acks[i])
    {
      LatestMoves(got, acks[i]);
    }
  }

  lemma AfterTake(f: Flow, hit: bool)
    requires Sound(f) && f.data != []
    requires hit <==> f.data[0].frame.IFrame? && f.data[0].frame.ns == Mod8(f.got)
    ensures Sound(f.(data := f.data[1..], got := if hit then f.got + 1 else f.got))
  {
    hide Latest;
    hide Mod8;
    assert forall p | p in f.data[1..] :: p in f.data;
    if hit {
      NextPayload(f);
      SameAcks(f.back + f.waiting, f.settled, f.got);
      forall j | 0 <= j < |f.waiting|
        ensures Latest(f.got + 1, f.waiting[j]) == Latest(f.got, f.waiting[j])
      {
        assert f.waiting[j] == (f.back + f.waiting)[|f.back| + j];
      }
    }
  }

  lemma AfterLoss(f: Flow, i: nat)
    requires Sound(f) && i < |f.data|
    ensures Sound(f.(data := f.data[..i] + f.data[i + 1..]))
  {
    var rest := f.data[..i] + f.data[i + 1..];
    assert forall p | p in rest :: p in f.data;
  }

  /** An acknowledgement that arrives is in step: it settles between nothing and everything outstanding. */
  lemma AfterAck(f: Flow)
    requires Sound(f) && f.back != []
    ensures var a := Latest(f.got, f.back[0]);
            && f.settled <= a <= |f.put| && Mod8(a) == f.back[0] && a - f.settled == Ahead(f.back[0], Mod8(f.settled))
            && Sound(f.(back := f.back[1..], settled := a))
  {
    var a := Latest(f.got, f.back[0]);
    assert (f.back + f.waiting)[0] == f.back[0];
    LatestReads(f.got, f.back[0]);
    ModAhead(a, f.settled);
    assert f.back[1..] + f.waiting == (f.back + f.waiting)[1..];
  }

  /** An acknowledgement of nothing, arriving before anything was put. */
  lemma AfterNothing(f: Flow)
    requires Sound(f) && f.put == [] && f.back != [] && f.back[0] == 0
    ensures Sound(f.(back := f.back[1..]))
  {
    hide Sound;
    hide Latest;
    hide Mod8;
    AfterAck(f);
    assert f.(back := f.back[1..]) == f.(back := f.back[1..], settled := 0);
  }

  lemma AfterAckLoss(f: Flow, i: nat)
    requires Sound(f) && i < |f.back|
    ensures Sound(f.(back := f.back[..i] + f.back[i + 1..]))
  {
    var acks := f.back + f.waiting;
    assert f.back[..i] + f.back[i + 1..] + f.waiting == acks[..i] + acks[i + 1..];
  }

  /** A service frame queued with the number then expected; the same number is recorded. */
  lemma AfterQueue(f: Flow, more: seq<Seq8>)
    requires Sound(f) && |more| <= 1 && forall n | n in more :: n == Mod8(f.got)
    ensures Sound(f.(waiting := f.waiting + more, marks := if more == [] then f.marks else f.marks + [f.got]))
  {
    if more == [] {
      assert f.waiting + more == f.waiting;
    } else {
      assert more[0] in more && more == [Mod8(f.got)];
      LatestIs(f.got, f.got);
      var acks := f.back + f.waiting;
      assert f.back + (f.waiting + more) == acks + [Mod8(f.got)];
    }
  }

  lemma Shifted(f: Flow)
    requires Sound(f) && f.waiting != []
    ensures (f.back + [f.waiting[0]]) + f.waiting[1..] == f.back + f.waiting
    ensures forall j | 0 <= j < |f.marks| :: f.marks[0] <= f.marks[j] <= f.got
    ensures Marked(f.marks[1..], f.waiting[1..], f.got)
  {
    var acks := f.back + f.waiting;
    forall j | 0 <= j < |f.marks|
      ensures f.marks[0] <= f.marks[j]
    {
      assert acks[|f.back|] == f.waiting[0] && acks[|f.back| + j] == f.waiting[j];
    }
  }

  /** A service frame leaves with the number it was given when it was queued. */
  lemma AfterServiceLeaves(f: Flow)
    requires Sound(f) && f.waiting != []
    ensures Sound(f.(back := f.back + [f.waiting[0]], waiting := f.waiting[1..], marks := f.marks[1..],
                     left := f.left + [f.marks[0]]))
  {
    Shifted(f);
  }

  /** So does one without an N(R) of its own. */
  lemma AfterGreetingLeaves(f: Flow)
    requires Sound(f) && f.waiting != []
    ensures Sound(f.(back := f.back + [f.waiting[0]], waiting := f.waiting[1..], marks := f.marks[1..]))
  {
    Shifted(f);
  }

  /** The queue dies with its station's connection. */
  lemma WaitingGone(f: Flow)
    requires Sound(f)
    ensures Sound(f.(waiting := [], marks := []))
  {
    assert f.back + [] == (f.back + f.waiting)[..|f.back|];
  }

  /** An I-frame leaves with the current number, and only when no service frame waits. */
  lemma AfterInfoLeaves(f: Flow)
    requires Sound(f) && f.waiting == []
    ensures Sound(f.(back := f.back + [Mod8(f.got)], left := f.left + [f.got]))
  {
    LatestIs(f.got, f.got);
    assert (f.back + [Mod8(f.got)]) + f.waiting == (f.back + f.waiting) + [Mod8(f.got)];
  }
}
