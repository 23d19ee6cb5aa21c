/**
 * With one address in play, the frame table is a bounded first-in first-out queue of S- and U-frames,
 * even though frames are put in while the head of the queue is still being transmitted.
 */
module ServiceFifo {
  import opened Frames
  import opened FramesQueue

  /** The `k`-th slot counted from the place where searches start. */
  function Nth(q: Queue, k: nat): Slot
    requires k < |q.slots|
  {
    q.slots[Around(q.lookup, k, |q.slots|)]
  }

  /** The busy slots are the first `m` ones from `lookup`, and every frame among them has the one address. */
  ghost predicate Run(q: Queue, station: byte, m: nat) {
    && m <= |q.slots|
    && (forall k | 0 <= k < m :: Nth(q, k).kind in SERVICE && Nth(q, k).frame.station == station)
    && (forall k | m <= k < |q.slots| :: Nth(q, k).kind == FreeSlot)
  }

  function Busy(q: Queue, k: nat): (m: nat)
    requires k <= |q.slots|
    ensures k <= m <= |q.slots|
    ensures forall j | k <= j < m :: Nth(q, j).kind != FreeSlot
    ensures m < |q.slots| ==> Nth(q, m).kind == FreeSlot
    decreases |q.slots| - k
  {
    if k == |q.slots| || Nth(q, k).kind == FreeSlot then k else Busy(q, k + 1)
  }

  /** The frames waiting, oldest first. */
  function Fifo(q: Queue): seq<Frame> {
    seq(Busy(q, 0), k requires 0 <= k < Busy(q, 0) => Nth(q, k).frame)
  }

  /** The table is in order: one contiguous circular run starting at `lookup`. */
  ghost predicate Ordered(q: Queue, station: byte) {
    Run(q, station, Busy(q, 0))
  }

  lemma RunIsBusy(q: Queue, station: byte, m: nat)
    requires Run(q, station, m)
    ensures Busy(q, 0) == m && Ordered(q, station)
  {
    var b := Busy(q, 0);
    assert m < |q.slots| ==> Nth(q, m).kind !in SERVICE;
    assert b < |q.slots| ==> Nth(q, b).kind !in SERVICE;
  }

  lemma EmptyTable(q: Queue, station: byte)
    requires forall i | 0 <= i < |q.slots| :: q.slots[i].kind == FreeSlot
    ensures Ordered(q, station) && Fifo(q) == []
  {
    RunIsBusy(q, station, 0);
  }

  /** A put appends to the queue, or changes nothing when the table is full or the frame too long. */
  lemma AllocateAppends(q: Queue, station: byte, kind: Kind, f: Frame)
    requires Ordered(q, station) && kind in SERVICE && f.station == station
    ensures Ordered(Allocate(q, kind, f), station)
    ensures Fifo(Allocate(q, kind, f)) ==
            if |Payload(f)| <= q.mtu && |Fifo(q)| < |q.slots| then Fifo(q) + [f] else Fifo(q)
    ensures HasRoom(q, f) <==> |Payload(f)| <= q.mtu && |Fifo(q)| < |q.slots|
  {
    var m, n := Busy(q, 0), |q.slots|;
    var k := FindFromFirst(q.slots, q.lookup, n, {FreeSlot}, 0, 0);
    var found := Find(q, {FreeSlot}, 0, 0);
    assert found.Some? ==> Nth(q, k).kind == FreeSlot;
    if m < n {
      assert Matches(Nth(q, m), {FreeSlot}, 0, 0);
      assert found.Some?;
      assert k == m;
      if |Payload(f)| <= q.mtu {
        var q' := Allocate(q, kind, f);
        assert q'.slots == q.slots[Around(q.lookup, m, n) := Slot(kind, f)];
        forall j | 0 <= j < n
          ensures Nth(q', j) == if j == m then Slot(kind, f) else Nth(q, j)
        {
        }
        RunIsBusy(q', station, m + 1);
        assert Fifo(q') == Fifo(q) + [f];
      }
    }
  }

  /** The frame picked for sending is the oldest one, and it sits at `lookup`. */
  lemma PickIsHead(q: Queue, station: byte)
    requires Ordered(q, station)
    ensures Find(q, SERVICE, station, 0) == if Fifo(q) == [] then None else Some(q.lookup)
    ensures Fifo(q) != [] ==> q.slots[q.lookup].frame == Fifo(q)[0] && q.slots[q.lookup].kind in SERVICE
  {
    var m, n := Busy(q, 0), |q.slots|;
    var k := FindFromFirst(q.slots, q.lookup, n, SERVICE, station, 0);
    assert Nth(q, 0) == q.slots[q.lookup];
    assert Find(q, SERVICE, station, 0).Some? ==> Nth(q, k).kind in SERVICE;
    if m > 0 {
      assert Matches(q.slots[q.lookup], SERVICE, station, 0);
    }
  }

  /** Freeing the oldest frame removes exactly that one. */
  lemma FreePops(q: Queue, station: byte)
    requires Ordered(q, station) && Fifo(q) != []
    ensures Ordered(FreeAt(q, q.lookup), station)
    ensures Fifo(FreeAt(q, q.lookup)) == Fifo(q)[1..]
  {
    var q', m, n := FreeAt(q, q.lookup), Busy(q, 0), |q.slots|;
    forall j | 0 <= j < n
      ensures Nth(q', j) == if j == n - 1 then Nth(q, 0).(kind := FreeSlot) else Nth(q, j + 1)
    {
    }
    RunIsBusy(q', station, m - 1);
    assert Fifo(q') == Fifo(q)[1..];
  }

  /** Rewriting the header of the oldest frame, keeping its address, changes only that frame. */
  lemma RewriteHead(q: Queue, station: byte, f: Frame)
    requires Ordered(q, station) && Fifo(q) != [] && f.station == station
    ensures Ordered(Rewrite(q, q.lookup, f), station) && Rewrite(q, q.lookup, f).lookup == q.lookup
    ensures Fifo(Rewrite(q, q.lookup, f)) == Fifo(q)[0 := f]
  {
    var q', m, n := Rewrite(q, q.lookup, f), Busy(q, 0), |q.slots|;
    forall j | 0 <= j < n
      ensures Nth(q', j) == if j == 0 then Nth(q, 0).(frame := f) else Nth(q, j)
    {
    }
    RunIsBusy(q', station, m);
    assert Fifo(q') == Fifo(q)[0 := f];
  }

  // ------------------------------------------------------------------ whole runs

  /** What can happen to the table: a put, the pick that starts a transmission, and its completion. */
  datatype Op = Enqueue(kind: Kind, frame: Frame) | Begin | Done

  /** The table, the slot being transmitted if any, and all frames transmitted so far. */
  datatype Sender = Sender(queue: Queue, sending: Option<nat>, sent: seq<Frame>)

  function Step(s: Sender, station: byte, op: Op): Sender {
    match op
    case Enqueue(kind, f) => s.(queue := Allocate(s.queue, kind, f))
    case Begin => if s.sending.Some? then s else s.(sending := Find(s.queue, SERVICE, station, 0))
    case Done =>
      if s.sending.Some? && s.sending.value < |s.queue.slots| then
        var i := s.sending.value;
        Sender(FreeAt(s.queue, i), None, s.sent + [s.queue.slots[i].frame])
      else s
  }

  function Steps(s: Sender, station: byte, ops: seq<Op>): Sender
    decreases |ops|
  {
    if ops == [] then s else Steps(Step(s, station, ops[0]), station, ops[1..])
  }

  /** A plain bounded queue with the same three operations. */
  datatype Bounded = Bounded(waiting: seq<Frame>, sending: bool, sent: seq<Frame>)

  function BoundedStep(b: Bounded, size: nat, mtu: nat, op: Op): Bounded {
    match op
    case Enqueue(_, f) => if |Payload(f)| <= mtu && |b.waiting| < size then b.(waiting := b.waiting + [f]) else b
    case Begin => b.(sending := b.sending || b.waiting != [])
    case Done =>
      if b.sending && b.waiting != [] then Bounded(b.waiting[1..], false, b.sent + [b.waiting[0]]) else b
  }

  function BoundedSteps(b: Bounded, size: nat, mtu: nat, ops: seq<Op>): Bounded
    decreases |ops|
  {
    if ops == [] then b else BoundedSteps(BoundedStep(b, size, mtu, ops[0]), size, mtu, ops[1..])
  }

  ghost predicate Refines(s: Sender, station: byte, b: Bounded) {
    && Ordered(s.queue, station) && Fifo(s.queue) == b.waiting && s.sent == b.sent
    && (b.sending ==> b.waiting != [])
    && s.sending == (if b.sending then Some(s.queue.lookup) else None)
  }

  ghost predicate OneAddress(ops: seq<Op>, station: byte) {
    forall op | op in ops && op.Enqueue? :: op.kind in SERVICE && op.frame.station == station
  }

  lemma StepRefines(s: Sender, station: byte, b: Bounded, op: Op)
    requires Refines(s, station, b) && OneAddress([op], station)
    ensures Refines(Step(s, station, op), station, BoundedStep(b, |s.queue.slots|, s.queue.mtu, op))
    ensures var q := Step(s, station, op).queue; |q.slots| == |s.queue.slots| && q.mtu == s.queue.mtu
  {
    match op
    case Enqueue(kind, f) =>
      assert op in [op];
      AllocateAppends(s.queue, station, kind, f);
    case Begin =>
      PickIsHead(s.queue, station);
    case Done =>
      if b.sending {
        PickIsHead(s.queue, station);
        FreePops(s.queue, station);
      }
  }

  /** For one address, every run of the table is the run of a bounded queue: nothing lost, doubled or reordered. */
  lemma {:induction false} RunRefines(s: Sender, station: byte, b: Bounded, ops: seq<Op>)
    requires Refines(s, station, b) && OneAddress(ops, station)
    ensures Refines(Steps(s, station, ops), station, BoundedSteps(b, |s.queue.slots|, s.queue.mtu, ops))
    decreases |ops|
  {
    if ops != [] {
      assert OneAddress([ops[0]], station) by {
        assert forall op | op in [ops[0]] :: op in ops;
      }
      StepRefines(s, station, b, ops[0]);
      assert OneAddress(ops[1..], station) by {
        assert forall op | op in ops[1..] :: op in ops;
      }
      RunRefines(Step(s, station, ops[0]), station, BoundedStep(b, |s.queue.slots|, s.queue.mtu, ops[0]), ops[1..]);
    }
  }

  /** What has been put and not refused, in order. */
  function Accepted(b: Bounded, size: nat, mtu: nat, ops: seq<Op>): seq<Frame>
    decreases |ops|
  {
    if ops == [] then []
    else
      var op := ops[0];
      (if op.Enqueue? && |Payload(op.frame)| <= mtu && |b.waiting| < size then [op.frame] else [])
      + Accepted(BoundedStep(b, size, mtu, op), size, mtu, ops[1..])
  }

  /** Conservation in a bounded queue: sent followed by waiting is exactly what was accepted. */
  lemma {:induction false} NothingLost(b: Bounded, size: nat, mtu: nat, ops: seq<Op>)
    ensures var e := BoundedSteps(b, size, mtu, ops);
            e.sent + e.waiting == b.sent + b.waiting + Accepted(b, size, mtu, ops)
    decreases |ops|
  {
    if ops != [] {
      var b' := BoundedStep(b, size, mtu, ops[0]);
      NothingLost(b', size, mtu, ops[1..]);
      var accepted := ops[0].Enqueue? && |Payload(ops[0].frame)| <= mtu && |b.waiting| < size;
      var first := if accepted then [ops[0].frame] else [];
      assert b'.sent + b'.waiting == b.sent + b.waiting + first;
    }
  }

  /** With one address, the frames transmitted, then those still waiting, are exactly those accepted, in order. */
  lemma {:induction false} ServiceOrder(q: Queue, station: byte, ops: seq<Op>)
    requires (forall i | 0 <= i < |q.slots| :: q.slots[i].kind == FreeSlot) && OneAddress(ops, station)
    ensures var e := Steps(Sender(q, None, []), station, ops);
            e.sent + Fifo(e.queue) == Accepted(Bounded([], false, []), |q.slots|, q.mtu, ops)
  {
    var b := Bounded([], false, []);
    EmptyTable(q, station);
    RunRefines(Sender(q, None, []), station, b, ops);
    NothingLost(b, |q.slots|, q.mtu, ops);
    assert b.sent + b.waiting + Accepted(b, |q.slots|, q.mtu, ops) == Accepted(b, |q.slots|, q.mtu, ops);
  }
}
