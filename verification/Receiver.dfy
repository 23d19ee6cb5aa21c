/**
 * The receive side of `hdlc_ll_data_t`: three states over a ring of receive buffers, fed with chunks of any size.
 */
module Receiving {
  import Crc
  import opened Framing

  datatype RxState = ReadStart | ReadData | ReadEnd
  datatype RxError = Success | WrongCrc

  // ------------------------------------------------------------------ buffer sizes

  /** `hdlc_crc_t`, the check an application asks for. */
  datatype Requested = Off | Default | Bits8 | Bits16 | Bits32

  /** `get_crc_field_size` of the check asked for: the default counts as 32 bits. */
  function RequestedSize(r: Requested): nat {
    match r case Off => 0 case Default => 4 case Bits8 => 1 case Bits16 => 2 case Bits32 => 4
  }

  /** What `hdlc_ll_init` stores, and both ends of the link act on: off and the default both become zero, no check. */
  function Stored(r: Requested): Crc.CrcType {
    match r
    case Off => Crc.NoCrc case Default => Crc.NoCrc
    case Bits8 => Crc.Crc8 case Bits16 => Crc.Crc16 case Bits32 => Crc.Crc32
  }

  /** `get_crc_field_size` of what is stored: zero now reads as the default again. */
  function StoredSize(t: Crc.CrcType): nat { if t == Crc.NoCrc then 4 else Crc.FieldSize(t) }

  /** `phys_mtu` for a non-zero `mtu`. */
  function PhysMtu(r: Requested, mtu: nat): nat { mtu + StoredSize(Stored(r)) }

  /** The part of `hdlc_ll_get_buf_size_ex` that becomes the receive buffer. */
  function RxBufSize(r: Requested, mtu: nat, window: nat): nat { (RequestedSize(r) + mtu) * window }

  /** Where slot `k` of the ring starts. */
  ghost function Offset(k: nat, m: nat): nat { if k == 0 then 0 else Offset(k - 1, m) + m }

  /** How many slots of `m` bytes fit. */
  ghost function Slots(length: nat, m: nat): nat
    requires m > 0
  {
    if length < m then 0 else 1 + Slots(length - m, m)
  }

  lemma {:induction false} OffsetProduct(k: nat, m: nat)
    ensures Offset(k, m) == m * k
  {
    if k > 0 { OffsetProduct(k - 1, m); }
  }

  lemma {:induction false} OffsetApart(a: nat, b: nat, m: nat)
    requires a < b
    ensures Offset(a, m) + m <= Offset(b, m)
  {
    if a + 1 < b { OffsetApart(a, b - 1, m); }
  }

  lemma {:induction false} SlotsBound(length: nat, m: nat)
    requires m > 0
    ensures Offset(Slots(length, m), m) <= length < Offset(Slots(length, m), m) + m
  {
    if length >= m { SlotsBound(length - m, m); }
  }

  /** The number of slots is the quotient. */
  lemma SlotsExact(length: nat, m: nat, n: nat)
    requires m > 0
    ensures Slots(length, m) == n <==> Offset(n, m) <= length < Offset(n, m) + m
    ensures Slots(length, m) >= n <==> Offset(n, m) <= length
  {
    SlotsBound(length, m);
    var k := Slots(length, m);
    if k < n { OffsetApart(k, n, m); } else if n < k { OffsetApart(n, k, m); }
  }

  /** A buffer sized for a window holds exactly that many frames if and only if the check is not switched off. */
  lemma WindowFits(r: Requested, mtu: nat, window: nat)
    requires mtu > 0 && window > 0
    ensures Slots(RxBufSize(r, mtu, window), PhysMtu(r, mtu)) == window <==> r != Off
  {
    var m := PhysMtu(r, mtu);
    OffsetProduct(window, m);
    SlotsExact(RxBufSize(r, mtu, window), m, window);
    assert r != Off ==> RxBufSize(r, mtu, window) == m * window;
    assert r == Off ==> m * window == RxBufSize(r, mtu, window) + 4 * window;
  }

  /**
   * Bytes left over from aligning the buffer come on top: the whole window fits if and only if there is a check, or
   * they pay for the four bytes of each frame that a check switched off does not use.
   */
  lemma SpareFits(r: Requested, mtu: nat, window: nat, spare: nat)
    requires mtu > 0 && window > 0
    ensures Slots(RxBufSize(r, mtu, window) + spare, PhysMtu(r, mtu)) >= window <==> r != Off || spare >= 4 * window
  {
    var m := PhysMtu(r, mtu);
    OffsetProduct(window, m);
    SlotsExact(RxBufSize(r, mtu, window) + spare, m, window);
    assert r != Off ==> RxBufSize(r, mtu, window) == m * window;
    assert r == Off ==> m * window == RxBufSize(r, mtu, window) + 4 * window;
  }

  /** How many frames fit with the check switched off: as often as the slot goes into the payloads of the window. */
  lemma NoCheckFits(mtu: nat, window: nat, n: nat)
    requires mtu > 0 && window > 0
    ensures Slots(RxBufSize(Off, mtu, window), PhysMtu(Off, mtu)) == n
            <==> n * (mtu + 4) <= mtu * window < (n + 1) * (mtu + 4)
    ensures Slots(RxBufSize(Off, mtu, window), PhysMtu(Off, mtu)) < window
  {
    var m := mtu + 4;
    OffsetProduct(n, m);
    SlotsExact(mtu * window, m, n);
    Multiples(n, m);
    SpareFits(Off, mtu, window, 0);
  }

  lemma Multiples(n: nat, m: nat)
    ensures m * n == n * m && (n + 1) * m == n * m + m
  {
  }

  /** Slots taken in turn, starting again after the last one. */
  ghost predicate InTurn(taken: seq<nat>, slots: nat) {
    && (forall i | 0 <= i < |taken| :: taken[i] < slots)
    && (forall i | 0 < i < |taken| :: taken[i] == Next(taken[i - 1], slots))
  }

  function Next(slot: nat, slots: nat): nat { if slot + 1 == slots then 0 else slot + 1 }

  lemma {:induction false} TurnsAhead(taken: seq<nat>, slots: nat, i: nat, j: nat)
    requires InTurn(taken, slots) && i <= j < |taken| && j < i + slots
    ensures taken[j] == taken[i] + (j - i) || taken[j] == taken[i] + (j - i) - slots
    decreases j
  {
    if i < j { TurnsAhead(taken, slots, i, j - 1); }
  }

  /** The bytes of a frame are in the buffer from offset `at`. */
  ghost predicate Holds(buffer: seq<bv8>, at: nat, frame: seq<bv8>) {
    at + |frame| <= |buffer| && buffer[at..at + |frame|] == frame
  }

  /** The byte closes a frame whose check fails. */
  predicate ClosesBadly(c: Config, r: Rx, b: bv8) { r.inFrame && b == FLAG && r.body != [] && !Accepts(c, r.body) }

  lemma FeedMore(c: Config, start: Rx, r: Rx, data: seq<bv8>, tail: seq<bv8>, n: nat, k: nat)
    requires n + k <= |data| && tail == data[n..] && r == Feed(c, start, data[..n])
    ensures Feed(c, r, tail[..k]) == Feed(c, start, data[..n + k])
  {
    assert data[..n + k] == data[..n] + tail[..k];
    FeedAppend(c, start, data[..n], tail[..k]);
  }

  lemma Prefix(buffer: seq<bv8>, from: nat, to: nat, n: nat)
    requires from + n <= to <= |buffer|
    ensures buffer[from..to][..n] == buffer[from..from + n]
  {
  }

  /** The check of a frame: its last bytes against the check of the others. */
  method CheckBody(c: Config, body: seq<bv8>) returns (ok: bool, payload: seq<bv8>)
    ensures ok == Accepts(c, body)
    ensures ok ==> |payload| + c.size == |body| && payload == body[..|payload|]
  {
    if |body| < c.size {
      return false, [];
    }
    payload := body[..|body| - c.size];
    ok := body[|body| - c.size..] == c.check(payload);
  }

  class Receiver {
    const link: Config
    const rxBuf: array<bv8>
    ghost const slots: nat        // how many frames the buffer holds
    ghost var taken: seq<nat>     // the slot of each delivered frame, and of the one being received
    var state: RxState
    var active: nat               // active_frame_buf - rx_buf
    var ptr: nat                  // ptr - rx_buf
    var escape: bool
    var delivered: seq<seq<bv8>>  // calls to on_frame_read

    ghost predicate Valid()
      reads this, rxBuf
    {
      && Sound(link) && link.capacity > 0 && Ring() && Retains()
      && (state != ReadStart ==> active <= ptr <= active + link.capacity)
    }

    /** The active frame is one of the slots, taken in turn. */
    ghost predicate Ring()
      reads this
    {
      && Offset(slots, link.capacity) <= rxBuf.Length < Offset(slots, link.capacity) + link.capacity
      && |taken| == |delivered| + 1 && InTurn(taken, slots)
      && active == Offset(taken[|delivered|], link.capacity) && active + link.capacity <= rxBuf.Length
    }

    /** The most recent frames, one fewer than there are slots, still have their bytes in the buffer. */
    ghost predicate Retains()
      requires Ring()
      reads this, rxBuf
    {
      forall i | 0 <= i < |delivered| && |delivered| < i + slots ::
        |delivered[i]| <= link.capacity && Holds(rxBuf[..], Offset(taken[i], link.capacity), delivered[i])
    }

    /** Deliveries since then have only been added. */
    ghost predicate Grown(slotsThen: seq<nat>, deliveredThen: seq<seq<bv8>>)
      reads this
    {
      slotsThen <= taken && deliveredThen <= delivered
    }

    /** The frame being received, as the byte-at-a-time receiver sees it. */
    ghost function Body(): Rx
      requires Valid() && state != ReadStart
      reads this, rxBuf
    {
      Rx(true, rxBuf[active..ptr], escape, delivered)
    }

    ghost function Model(): Rx
      requires Valid() && state != ReadEnd
      reads this, rxBuf
    {
      if state == ReadStart then Hunting(delivered) else Body()
    }

    constructor (c: Config, buffer: array<bv8>)
      requires Sound(c) && 0 < c.capacity <= buffer.Length
      ensures Valid() && link == c && rxBuf == buffer && slots == Slots(buffer.Length, c.capacity)
      ensures state == ReadStart && Model() == Hunting([])
    {
      link, rxBuf := c, buffer;
      slots, taken := Slots(buffer.Length, c.capacity), [0];
      state, active, ptr, escape, delivered := ReadStart, 0, 0, false, [];
      new;
      SlotsBound(buffer.Length, c.capacity);
    }

    /** Writing inside the active slot leaves the other slots alone. */
    method Store(b: bv8)
      requires Valid() && state == ReadData && ptr < active + link.capacity
      modifies this`ptr, rxBuf
      ensures Valid() && ptr == old(ptr) + 1
      ensures rxBuf[active..ptr] == old(rxBuf[active..ptr]) + [b]
    {
      ghost var before := rxBuf[..];
      rxBuf[ptr] := b;
      assert rxBuf[..] == before[ptr := b];
      forall i | 0 <= i < |delivered| && |delivered| < i + slots
        ensures Holds(rxBuf[..], Offset(taken[i], link.capacity), delivered[i])
      {
        assert Holds(before, Offset(taken[i], link.capacity), delivered[i]);
        OtherSlot(i);
      }
      ptr := ptr + 1;
    }

    lemma OtherSlot(i: nat)
      requires Ring() && i < |delivered| < i + slots
      ensures var at := Offset(taken[i], link.capacity);
              at + link.capacity <= active || active + link.capacity <= at
    {
      TurnsAhead(taken, slots, i, |delivered|);
      var a, b := taken[i], taken[|delivered|];
      if a < b { OffsetApart(a, b, link.capacity); } else { OffsetApart(b, a, link.capacity); }
    }

    /** `hdlc_ll_read_start`. */
    method Start(data: seq<bv8>) returns (n: nat)
      requires Valid() && state == ReadStart && data != []
      modifies this`state, this`escape, this`ptr
      ensures Valid() && n == 1 && state != ReadEnd && !old(Model()).inFrame
      ensures Model() == Feed(link, old(Model()), data[..n])
    {
      FeedOne(link, Model(), data[0]);
      assert data[..1] == [data[0]];
      if data[0] == FLAG {
        escape, ptr, state := false, active, ReadData;
      }
      return 1;
    }

    /** A byte inside a frame: escaped, stored, or dropped when the frame is already full. */
    method TakeByte(b: bv8)
      requires Valid() && state == ReadData && b != FLAG
      modifies this`escape, this`ptr, rxBuf
      ensures Valid() && Body() == Take(link, old(Body()), b)
    {
      if b == ESCAPE {
        escape := true;
      } else if ptr - active < link.capacity {
        Store(if escape then Flip(b) else b);
        escape := false;
      }
    }

    /** `hdlc_ll_read_data`: takes bytes up to and including a flag, or all of them. */
    method Data(data: seq<bv8>) returns (n: nat)
      requires Valid() && state == ReadData && data != []
      modifies this`state, this`escape, this`ptr, rxBuf
      ensures Valid() && 0 < n <= |data| && (state == ReadData || state == ReadEnd)
      ensures state == ReadData ==> data[n - 1] != FLAG && Body() == Feed(link, old(Body()), data[..n])
      ensures state == ReadEnd ==> data[n - 1] == FLAG && Body() == Feed(link, old(Body()), data[..n - 1])
    {
      n := 0;
      while n < |data|
        invariant n <= |data| && Valid() && state == ReadData && (n > 0 ==> data[n - 1] != FLAG)
        invariant Body() == Feed(link, old(Body()), data[..n])
      {
        if data[n] == FLAG {
          state := ReadEnd;
          n := n + 1;
          return;
        }
        TakeByte(data[n]);
        assert data[..n + 1][..n] == data[..n];
        n := n + 1;
      }
    }

    /** The decision of `read_end`: the last bytes of the frame against the check of the others. */
    method Verdict() returns (ok: bool, payload: seq<bv8>)
      requires Valid() && state == ReadEnd && ptr != active
      ensures Close(link, Body()) == Hunting(if ok then delivered + [payload] else delivered)
      ensures ok == Accepts(link, Body().body)
      ensures ok ==> |payload| <= link.capacity && payload == rxBuf[active..active + |payload|]
    {
      ok, payload := CheckBody(link, rxBuf[active..ptr]);
      if ok { Prefix(rxBuf[..], active, ptr, |payload|); }
    }

    /** `hdlc_ll_read_end`: an empty frame only restarts; otherwise the check decides. */
    method End() returns (error: RxError)
      requires Valid() && state == ReadEnd
      modifies this`state, this`escape, this`active, this`delivered, this`taken
      ensures Valid() && state != ReadEnd
      ensures Model() == Close(link, old(Body())) && Grown(old(taken), old(delivered))
      ensures error == WrongCrc <==> ClosesBadly(link, old(Body()), FLAG)
    {
      hide Holds;
      hide InTurn;
      hide Sound;
      if ptr == active {
        escape, state := false, ReadData;
        return Success;
      }
      var ok, payload := Verdict();
      state := ReadStart;
      if !ok {
        return WrongCrc;
      }
      Deliver(payload);
      return Success;
    }

    /** Hands the frame over and moves on to the next slot, wrapping when it would not fit. */
    method Deliver(payload: seq<bv8>)
      requires Valid() && state == ReadStart
      requires |payload| <= link.capacity && payload == rxBuf[active..active + |payload|]
      modifies this`active, this`delivered, this`taken
      ensures Valid() && delivered == old(delivered) + [payload] && Grown(old(taken), old(delivered))
    {
      Wraps(taken[|delivered|]);
      assert Holds(rxBuf[..], active, payload);
      taken := taken + [Next(taken[|delivered|], slots)];
      delivered := delivered + [payload];
      active := active + link.capacity;
      if active + link.capacity > rxBuf.Length {
        active := 0;
      }
    }

    lemma Wraps(s: nat)
      requires Ring() && s < slots
      ensures Offset(s, link.capacity) + link.capacity == Offset(s + 1, link.capacity)
      ensures Offset(s + 1, link.capacity) + link.capacity > rxBuf.Length <==> s + 1 == slots
    {
      if s + 1 < slots { OffsetApart(s + 1, slots, link.capacity); }
    }

    /** One call through the state pointer while there is input. */
    method Step(data: seq<bv8>) returns (k: nat)
      requires Valid() && state != ReadEnd && data != []
      modifies this`state, this`escape, this`ptr, rxBuf
      ensures Valid() && 0 < k <= |data| && Reached(old(Model()), data, k)
    {
      if state == ReadStart {
        k := Start(data);
      } else {
        k := Data(data);
      }
    }

    /** Where the first `n` bytes have led; a flag just seen may still have to be acted on. */
    ghost predicate Reached(start: Rx, data: seq<bv8>, n: nat)
      requires Valid() && n <= |data|
      reads this, rxBuf
    {
      if state == ReadEnd then n > 0 && data[n - 1] == FLAG && Body() == Feed(link, start, data[..n - 1])
      else
        && Model() == Feed(link, start, data[..n])
        && (n > 0 && data[n - 1] == FLAG ==> !Feed(link, start, data[..n - 1]).inFrame)
    }

    method Advance(ghost start: Rx, data: seq<bv8>, n: nat) returns (n': nat)
      requires Valid() && state != ReadEnd && n < |data| && Model() == Feed(link, start, data[..n])
      modifies this`state, this`escape, this`ptr, rxBuf
      ensures Valid() && n < n' <= |data| && Reached(start, data, n')
    {
      ghost var r := Model();
      var tail := data[n..];
      var k := Step(tail);
      n' := n + k;
      FeedMore(link, start, r, data, tail, n, k - 1);
      FeedMore(link, start, r, data, tail, n, k);
      assert data[n' - 1] == tail[k - 1];
    }

    /** Closing the frame is what the flag just seen does. */
    method Finish(ghost start: Rx, ghost data: seq<bv8>, ghost n: nat) returns (error: RxError)
      requires Valid() && state == ReadEnd && n <= |data| && Reached(start, data, n)
      modifies this`state, this`escape, this`active, this`delivered, this`taken
      ensures Valid() && state != ReadEnd && Model() == Feed(link, start, data[..n])
              && Grown(old(taken), old(delivered))
      ensures n > 0 && (error == WrongCrc <==> ClosesBadly(link, Feed(link, start, data[..n - 1]), data[n - 1]))
    {
      assert data[..n] == data[..n - 1] + [FLAG];
      FeedAppend(link, start, data[..n - 1], [FLAG]);
      FeedOne(link, Body(), FLAG);
      error := End();
    }

    /**
     * `hdlc_ll_run_rx`: never returns in the middle of closing a frame, consumes at least one byte when given
     * any, and leaves the receiver where the consumed bytes lead one by one.
     */
    method RunRx(data: seq<bv8>) returns (n: nat, error: RxError)
      requires Valid() && state != ReadEnd
      modifies this`state, this`escape, this`ptr, this`active, this`delivered, this`taken, rxBuf
      ensures Valid() && state != ReadEnd
      ensures n <= |data| && (data != [] ==> n > 0)
      ensures Model() == Feed(link, old(Model()), data[..n]) && Grown(old(taken), old(delivered))
      ensures error == WrongCrc <==> n > 0 && ClosesBadly(link, Feed(link, old(Model()), data[..n - 1]), data[n - 1])
    {
      n, error := 0, Success;
      ghost var start := Model();
      while n < |data| || state == ReadEnd
        invariant n <= |data| && Valid() && Reached(start, data, n) && error == Success
        invariant Grown(old(taken), old(delivered))
        decreases |data| - n, if state == ReadEnd then 1 else 0
      {
        if state == ReadEnd {
          error := Finish(start, data, n);
          return;
        }
        n := Advance(start, data, n);
      }
    }

    /**
     * `tiny_fd_on_rx_data`: the loop over `hdlc_ll_run_rx` takes all the bytes, and how they were split does not
     * matter. A frame delivered before the call still has its bytes where it was delivered after it, unless as many
     * frames as there are slots, but for one, have been delivered since.
     */
    method OnRxData(data: seq<bv8>)
      requires Valid() && state != ReadEnd
      modifies this`state, this`escape, this`ptr, this`active, this`delivered, this`taken, rxBuf
      ensures Valid() && state != ReadEnd
      ensures Model() == Feed(link, old(Model()), data) && Grown(old(taken), old(delivered))
      ensures forall i | 0 <= i < |old(delivered)| && |delivered| < i + slots ::
                Holds(rxBuf[..], Offset(old(taken[i]), link.capacity), old(delivered[i]))
    {
      var n := 0;
      ghost var start := Model();
      assert Feed(link, start, data[..n]) == start;
      hide Feed;
      hide ClosesBadly;
      hide Holds;
      hide InTurn;
      hide Sound;
      while n < |data|
        invariant n <= |data| && Valid() && state != ReadEnd && Model() == Feed(link, start, data[..n])
        invariant Grown(old(taken), old(delivered))
      {
        ghost var r := Model();
        var tail := data[n..];
        var k, _ := RunRx(tail);
        FeedMore(link, start, r, data, tail, n, k);
        n := n + k;
      }
      assert data[..n] == data;
      StillThere(old(taken), old(delivered));
    }

    /** Frames delivered earlier on are where they were, as far back as the buffer goes. */
    lemma StillThere(slotsThen: seq<nat>, deliveredThen: seq<seq<bv8>>)
      requires Valid() && Grown(slotsThen, deliveredThen) && |slotsThen| > |deliveredThen|
      ensures forall i | 0 <= i < |deliveredThen| && |delivered| < i + slots ::
                Holds(rxBuf[..], Offset(slotsThen[i], link.capacity), deliveredThen[i])
    {
      hide Holds;
      hide InTurn;
      hide Sound;
    }
  }
}
