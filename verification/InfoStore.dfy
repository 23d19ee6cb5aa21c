/**
 * The I-frame table as a store of payloads keyed by address and N(S): what each table operation does to
 * every key, wherever searches start.
 */
module InfoStore {
  import opened Frames
  import opened FramesQueue

  const INFO: set<Kind> := {InfoSlot}

  /** The I-frame table: free slots and I-frames only, no two of them under one key. */
  ghost predicate Store(q: Queue) {
    && (forall i | 0 <= i < |q.slots| ::
         q.slots[i].kind == FreeSlot || (q.slots[i].kind == InfoSlot && q.slots[i].frame.IFrame?))
    && (forall i, j | 0 <= i < |q.slots| && 0 <= j < |q.slots| && SameKey(q.slots[i], q.slots[j]) :: i == j)
  }

  predicate SameKey(a: Slot, b: Slot) {
    a.kind == InfoSlot && b.kind == InfoSlot && a.frame.station == b.frame.station && NsOf(a.frame) == NsOf(b.frame)
  }

  /** The payload kept under a key. */
  function Stored(q: Queue, station: byte, ns: Seq8): Option<seq<byte>> {
    match Find(q, INFO, station, ns)
    case None => None
    case Some(i) => Some(Payload(q.slots[i].frame))
  }

  /** A key is found at the one slot that holds it. */
  lemma FoundAt(q: Queue, i: nat, station: byte, ns: Seq8)
    requires Store(q) && i < |q.slots| && Matches(q.slots[i], INFO, station, ns)
    ensures Find(q, INFO, station, ns) == Some(i) && Stored(q, station, ns) == Some(Payload(q.slots[i].frame))
  {
    FindFinds(q, INFO, station, ns);
    var r := Find(q, INFO, station, ns);
    assert r.Some? ==> SameKey(q.slots[i], q.slots[r.value]);
  }

  lemma NotFound(q: Queue, station: byte, ns: Seq8)
    requires forall i | 0 <= i < |q.slots| :: !Matches(q.slots[i], INFO, station, ns)
    ensures Find(q, INFO, station, ns) == None && Stored(q, station, ns) == None
  {
    FindFinds(q, INFO, station, ns);
  }

  /** Two tables whose slots agree on a key store the same under it. */
  lemma SameSlots(q: Queue, q': Queue, station: byte, ns: Seq8)
    requires Store(q) && Store(q') && |q.slots| == |q'.slots|
    requires forall i | 0 <= i < |q.slots| ::
               Matches(q.slots[i], INFO, station, ns) == Matches(q'.slots[i], INFO, station, ns)
               && (Matches(q.slots[i], INFO, station, ns) ==> Payload(q.slots[i].frame) == Payload(q'.slots[i].frame))
    ensures Stored(q', station, ns) == Stored(q, station, ns)
    ensures Find(q', INFO, station, ns) == Find(q, INFO, station, ns)
  {
    FindFinds(q, INFO, station, ns);
    match Find(q, INFO, station, ns)
    case None => NotFound(q', station, ns);
    case Some(i) => FoundAt(q', i, station, ns);
  }

  lemma EmptyStore(q: Queue)
    requires forall i | 0 <= i < |q.slots| :: q.slots[i].kind == FreeSlot
    ensures Store(q) && forall station: byte, ns: Seq8 :: Stored(q, station, ns) == None
  {
    forall station: byte, ns: Seq8
      ensures Stored(q, station, ns) == None
    {
      NotFound(q, station, ns);
    }
  }

  /** A put under a new key adds that key alone. */
  lemma AllocateAdds(q: Queue, f: Frame)
    requires Store(q) && f.IFrame? && Stored(q, f.station, f.ns) == None
    ensures var q' := Allocate(q, InfoSlot, f);
            && Store(q') && |q'.slots| == |q.slots| && q'.mtu == q.mtu && (!HasRoom(q, f) ==> q' == q)
            && forall station: byte, ns: Seq8 ::
                 Stored(q', station, ns) ==
                 if HasRoom(q, f) && station == f.station && ns == f.ns then Some(f.payload) else Stored(q, station, ns)
  {
    if HasRoom(q, f) {
      var q' := Allocate(q, InfoSlot, f);
      FindFinds(q, {FreeSlot}, 0, 0);
      FindFinds(q, INFO, f.station, f.ns);
      var i := Find(q, {FreeSlot}, 0, 0).value;
      assert q'.slots == q.slots[i := Slot(InfoSlot, f)];
      forall a, b | 0 <= a < |q'.slots| && 0 <= b < |q'.slots| && SameKey(q'.slots[a], q'.slots[b])
        ensures a == b
      {
        var other := if a == i then b else a;
        assert other == i || !Matches(q.slots[other], INFO, f.station, f.ns);
        assert a != i && b != i ==> SameKey(q.slots[a], q.slots[b]);
      }
      forall station: byte, ns: Seq8
        ensures Stored(q', station, ns) ==
                if station == f.station && ns == f.ns then Some(f.payload) else Stored(q, station, ns)
      {
        if station == f.station && ns == f.ns {
          FoundAt(q', i, station, ns);
        } else {
          SameSlots(q, q', station, ns);
        }
      }
    }
  }

  /** Freeing a slot removes its key alone. */
  lemma FreeRemoves(q: Queue, i: nat)
    requires Store(q) && i < |q.slots| && q.slots[i].kind == InfoSlot
    ensures var q', f := FreeAt(q, i), q.slots[i].frame;
            && Store(q') && |q'.slots| == |q.slots| && q'.mtu == q.mtu && q'.slots[i].kind == FreeSlot
            && forall station: byte, ns: Seq8 ::
                 Stored(q', station, ns) ==
                 if station == f.station && ns == f.ns then None else Stored(q, station, ns)
  {
    var q', f := FreeAt(q, i), q.slots[i].frame;
    assert forall a, b | 0 <= a < |q'.slots| && 0 <= b < |q'.slots| && SameKey(q'.slots[a], q'.slots[b]) ::
             SameKey(q.slots[a], q.slots[b]);
    forall station: byte, ns: Seq8
      ensures Stored(q', station, ns) == if station == f.station && ns == f.ns then None else Stored(q, station, ns)
    {
      if station == f.station && ns == f.ns {
        assert forall j | 0 <= j < |q.slots| && j != i :: !SameKey(q.slots[i], q.slots[j]);
        NotFound(q', station, ns);
      } else {
        SameSlots(q, q', station, ns);
      }
    }
  }

  /** Rewriting N(R) and the poll bit of a stored frame changes no key and no payload. */
  lemma RewriteKeeps(q: Queue, i: nat, f: Frame)
    requires Store(q) && i < |q.slots| && q.slots[i].kind == InfoSlot && f.IFrame?
    requires var g := q.slots[i].frame; f.station == g.station && f.ns == g.ns && f.payload == g.payload
    ensures var q' := Rewrite(q, i, f);
            && Store(q') && |q'.slots| == |q.slots| && q'.mtu == q.mtu && q'.lookup == q.lookup
            && forall station: byte, ns: Seq8 ::
                 Stored(q', station, ns) == Stored(q, station, ns)
                   && Find(q', INFO, station, ns) == Find(q, INFO, station, ns)
  {
    var q' := Rewrite(q, i, f);
    assert forall a, b | 0 <= a < |q'.slots| && 0 <= b < |q'.slots| && SameKey(q'.slots[a], q'.slots[b]) ::
             SameKey(q.slots[a], q.slots[b]);
    forall station: byte, ns: Seq8
      ensures Stored(q', station, ns) == Stored(q, station, ns)
              && Find(q', INFO, station, ns) == Find(q, INFO, station, ns)
    {
      SameSlots(q, q', station, ns);
    }
  }

  /** Flushing one address removes its keys and no other. */
  lemma ResetRemoves(q: Queue, address: byte)
    requires Store(q)
    ensures var q' := ResetFor(q, address);
            && Store(q') && |q'.slots| == |q.slots| && q'.mtu == q.mtu
            && forall station: byte, ns: Seq8 ::
                 Stored(q', station, ns) == if station == address then None else Stored(q, station, ns)
  {
    var q' := ResetFor(q, address);
    assert forall a, b | 0 <= a < |q'.slots| && 0 <= b < |q'.slots| && SameKey(q'.slots[a], q'.slots[b]) ::
             SameKey(q.slots[a], q.slots[b]);
    forall station: byte, ns: Seq8
      ensures Stored(q', station, ns) == if station == address then None else Stored(q, station, ns)
    {
      if station == address {
        NotFound(q', station, ns);
      } else {
        SameSlots(q, q', station, ns);
      }
    }
  }
}
