/**
 * `tiny_fd_queue_t`: a fixed table of frame slots searched in circular order from `lookup_index`.
 * The same table serves the S- and U-frames as a ring and the I-frames as a store keyed by address and N(S).
 */
module FramesQueue {
  import opened Frames

  datatype Kind = FreeSlot | UnnumberedSlot | SupervisorySlot | InfoSlot

  /** A slot keeps the frame it last held when it is freed, as the memory behind it does. */
  datatype Slot = Slot(kind: Kind, frame: Frame)

  datatype Table = Table(slots: seq<Slot>, lookup: nat, mtu: nat)

  /** Searches start inside the table. */
  type Queue = q: Table | q.lookup < |q.slots| witness Table([Slot(FreeSlot, SFrame(0, false, RR, 0, false))], 0, 0)

  const SERVICE: set<Kind> := {UnnumberedSlot, SupervisorySlot}

  // ------------------------------------------------------------------ the table on values

  function NsOf(f: Frame): nat { if f.IFrame? then f.ns else 0 }

  predicate Matches(s: Slot, wanted: set<Kind>, station: byte, ns: nat) {
    && s.kind in wanted
    && (s.kind == FreeSlot || (s.frame.station == station && (s.kind == InfoSlot ==> NsOf(s.frame) == ns)))
  }

  /** Index `k` places after `start` in a ring of `n`. */
  function Around(start: nat, k: nat, n: nat): nat
    requires start < n && k <= n
  {
    if start + k < n then start + k else start + k - n
  }

  function FindFrom(slots: seq<Slot>, index: nat, left: nat, wanted: set<Kind>, station: byte,
        ns: nat): (r: Option<nat>)
    requires index < |slots|
    ensures r.Some? ==> r.value < |slots| && Matches(slots[r.value], wanted, station, ns)
    decreases left
  {
    if left == 0 then None
    else if Matches(slots[index], wanted, station, ns) then Some(index)
    else FindFrom(slots, Around(index, 1, |slots|), left - 1, wanted, station, ns)
  }

  /** `tiny_fd_queue_get_next`. */
  function Find(q: Queue, wanted: set<Kind>, station: byte, ns: nat): (r: Option<nat>)
    ensures r.Some? ==> r.value < |q.slots| && Matches(q.slots[r.value], wanted, station, ns)
  {
    FindFrom(q.slots, q.lookup, |q.slots|, wanted, station, ns)
  }

  /** `tiny_fd_queue_allocate`, with the header fields the callers fill in right after. */
  function Allocate(q: Queue, kind: Kind, f: Frame): Queue {
    if |Payload(f)| > q.mtu then q
    else match Find(q, {FreeSlot}, 0, 0)
      case None => q
      case Some(i) => q.(slots := q.slots[i := Slot(kind, f)])
  }

  /** A slot that can take the frame exists. */
  predicate HasRoom(q: Queue, f: Frame) {
    |Payload(f)| <= q.mtu && Find(q, {FreeSlot}, 0, 0).Some?
  }

  /** `tiny_fd_queue_free_by_header`: the slot becomes free and the next search starts behind it. */
  function FreeAt(q: Queue, i: nat): Queue
    requires i < |q.slots|
  {
    q.(slots := q.slots[i := q.slots[i].(kind := FreeSlot)], lookup := Around(i, 1, |q.slots|))
  }

  /** Rewriting the header of a queued frame through the pointer to it. */
  function Rewrite(q: Queue, i: nat, f: Frame): Queue
    requires i < |q.slots|
  {
    q.(slots := q.slots[i := q.slots[i].(frame := f)])
  }

  function FreeIf(s: Slot, station: byte): Slot { if s.frame.station == station then s.(kind := FreeSlot) else s }

  /** `tiny_fd_queue_reset_for`. */
  function ResetFor(q: Queue, station: byte): Queue {
    q.(slots := seq(|q.slots|, i requires 0 <= i < |q.slots| => FreeIf(q.slots[i], station)))
  }

  // ------------------------------------------------------------------ what a search finds

  lemma {:induction false} FindFromFirst(slots: seq<Slot>, index: nat, left: nat, wanted: set<Kind>, station: byte,
        ns: nat)
      returns (k: nat)
    requires index < |slots| && left <= |slots|
    ensures match FindFrom(slots, index, left, wanted, station, ns)
            case None => forall j | 0 <= j < left :: !Matches(slots[Around(index, j, |slots|)], wanted, station, ns)
            case Some(i) => k < left && IsFirst(slots, index, k, i, wanted, station, ns)
    decreases left
  {
    var n := |slots|;
    k := 0;
    if left > 0 && !Matches(slots[index], wanted, station, ns) {
      var next := Around(index, 1, n);
      var k' := FindFromFirst(slots, next, left - 1, wanted, station, ns);
      k := k' + 1;
      var found := FindFrom(slots, next, left - 1, wanted, station, ns);
      forall j | 0 <= j < (if found.Some? then k else left)
        ensures !Matches(slots[Around(index, j, n)], wanted, station, ns)
      {
        if j > 0 { assert Around(index, j, n) == Around(next, j - 1, n); }
      }
    }
  }

  /** Slot `i` is `k` places after `start`, it matches, and none before it does. */
  ghost predicate IsFirst(slots: seq<Slot>, start: nat, k: nat, i: nat, wanted: set<Kind>, station: byte, ns: nat)
    requires start < |slots| && k < |slots|
  {
    && i == Around(start, k, |slots|)
    && Matches(slots[i], wanted, station, ns)
    && forall j | 0 <= j < k :: !Matches(slots[Around(start, j, |slots|)], wanted, station, ns)
  }

  /** A search comes back empty only when no slot matches, wherever it starts. */
  lemma FindFinds(q: Queue, wanted: set<Kind>, station: byte, ns: nat)
    ensures Find(q, wanted, station, ns) == None
            <==> forall i | 0 <= i < |q.slots| :: !Matches(q.slots[i], wanted, station, ns)
  {
    var n := |q.slots|;
    var _ := FindFromFirst(q.slots, q.lookup, n, wanted, station, ns);
    if Find(q, wanted, station, ns).None? {
      forall i | 0 <= i < n
        ensures !Matches(q.slots[i], wanted, station, ns)
      {
        var k := if i >= q.lookup then i - q.lookup else i + n - q.lookup;
        assert Around(q.lookup, k, n) == i;
      }
    }
  }

  // ------------------------------------------------------------------ the table in memory

  class FrameTable {
    const frames: array<Slot>
    const mtu: nat
    var lookupIndex: nat

    ghost predicate Valid()
      reads this
    {
      lookupIndex < frames.Length
    }

    ghost function Model(): Queue
      requires Valid()
      reads this, frames
    {
      Table(frames[..], lookupIndex, mtu)
    }

    /** `tiny_fd_queue_init`: all slots free. */
    constructor (size: nat, maxPayload: nat)
      requires size > 0
      ensures Valid() && fresh(frames) && frames.Length == size && mtu == maxPayload && lookupIndex == 0
      ensures forall i | 0 <= i < size :: frames[i].kind == FreeSlot
    {
      var empty := Slot(FreeSlot, SFrame(0, false, RR, 0, false));
      frames := new Slot[size](i => empty);
      mtu, lookupIndex := maxPayload, 0;
    }

    method GetNext(wanted: set<Kind>, station: byte, ns: nat) returns (r: Option<nat>)
      requires Valid()
      ensures r == Find(Model(), wanted, station, ns)
      ensures r.Some? ==> r.value < frames.Length && Matches(frames[r.value], wanted, station, ns)
    {
      var index: nat, i: nat := lookupIndex, 0;
      while i < frames.Length
        invariant index < frames.Length && i <= frames.Length
        invariant Find(Model(), wanted, station, ns)
                  == FindFrom(frames[..], index, frames.Length - i, wanted, station, ns)
      {
        if Matches(frames[index], wanted, station, ns) {
          return Some(index);
        }
        index := index + 1;
        if index >= frames.Length {
          index := index - frames.Length;
        }
        i := i + 1;
      }
      return None;
    }

    method Put(kind: Kind, f: Frame) returns (r: Option<nat>)
      requires Valid()
      modifies frames
      ensures Valid() && Model() == Allocate(old(Model()), kind, f)
      ensures r.Some? <==> HasRoom(old(Model()), f)
      ensures r.Some? ==> r.value < frames.Length && frames[r.value] == Slot(kind, f)
    {
      if |Payload(f)| > mtu {
        return None;
      }
      r := GetNext({FreeSlot}, 0, 0);
      if r.Some? {
        frames[r.value] := Slot(kind, f);
      }
    }

    method Free(i: nat)
      requires Valid() && i < frames.Length
      modifies this, frames
      ensures Valid() && Model() == FreeAt(old(Model()), i)
    {
      frames[i] := frames[i].(kind := FreeSlot);
      lookupIndex := i + 1;
      if lookupIndex >= frames.Length {
        lookupIndex := lookupIndex - frames.Length;
      }
    }

    method SetFrame(i: nat, f: Frame)
      requires Valid() && i < frames.Length
      modifies frames
      ensures Valid() && Model() == Rewrite(old(Model()), i, f)
    {
      frames[i] := frames[i].(frame := f);
    }

    method ResetStation(station: byte)
      requires Valid()
      modifies frames
      ensures Valid() && Model() == ResetFor(old(Model()), station)
    {
      for i := 0 to frames.Length
        invariant forall j | 0 <= j < i :: frames[j] == FreeIf(old(frames[j]), station)
        invariant forall j | i <= j < frames.Length :: frames[j] == old(frames[j])
      {
        if frames[i].frame.station == station {
          frames[i] := frames[i].(kind := FreeSlot);
        }
      }
      assert frames[..] == ResetFor(old(Model()), station).slots;
    }
  }
}
