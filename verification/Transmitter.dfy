/**
 * The transmit side of `hdlc_ll_data_t`: a resumable state machine that fills whatever buffer it is given.
 */
module Transmitting {
  import opened Framing

  datatype TxState = SendStart | SendData | SendCrc | SendEnd
  datatype PutResult = Accepted | Busy

  function Min(a: nat, b: nat): nat { if a < b then a else b }

  /** The rest of stuffed data; `escaped` when the escape byte of its first byte is already out. */
  function Tail(escaped: bool, data: seq<bv8>): seq<bv8>
    requires escaped ==> data != []
  {
    if escaped then [Flip(data[0])] + Stuff(data[1..]) else Stuff(data)
  }

  class Transmitter {
    const link: Config            // crc_type
    var state: TxState
    var frame: seq<bv8>           // origin_data; empty when there is nothing to send
    var pos: nat                  // data - origin_data
    var len: nat                  // bytes left in send_data, bits already sent in send_crc
    var check: seq<bv8>           // tx.crc, least significant byte first
    var escape: bool
    var outBuffer: array<bv8>
    var outPos: nat               // bytes already written to outBuffer
    var sent: seq<seq<bv8>>       // calls to on_frame_send

    ghost predicate Valid()
      reads this
    {
      match state
      case SendStart => pos == 0 && len == |frame| && !escape
      case SendData =>
        && pos < |frame| && len == |frame| - pos && check == link.check(frame)
        && (escape ==> Special(frame[pos]))
      case SendCrc =>
        && frame != [] && pos == |frame| && check == link.check(frame)
        && len % 8 == 0 && len / 8 <= |check|
        && (escape ==> len / 8 < |check| && Special(check[len / 8]))
      case SendEnd => frame != [] && pos == |frame| && !escape
    }

    /** Everything that is still to go on the wire for the current frame. */
    ghost function Pending(): seq<bv8>
      requires Valid()
      reads this
    {
      match state
      case SendStart => if frame == [] then [] else Encode(link, frame)
      case SendData => Tail(escape, frame[pos..] + check) + [FLAG]
      case SendCrc => Tail(escape, check[len / 8..]) + [FLAG]
      case SendEnd => [FLAG]
    }

    ghost predicate CanWrite()
      reads this
    {
      outPos < outBuffer.Length
    }

    /** What one state function keeps: bytes written plus bytes pending is always the same stream. */
    ghost function Flow(): seq<bv8>
      requires Valid() && outPos <= outBuffer.Length
      reads this, outBuffer
    {
      outBuffer[..outPos] + Pending()
    }

    constructor (l: Config)
      ensures Valid() && Pending() == [] && link == l && sent == [] && frame == []
    {
      link := l;
      state, frame, pos, len, check, escape := SendStart, [], 0, 0, [], false;
      outBuffer, outPos, sent := new bv8[0], 0, [];
    }

    /** `hdlc_ll_put_frame`: refused while a frame is in progress; an empty frame is ignored. */
    method PutFrame(data: seq<bv8>) returns (r: PutResult)
      requires Valid()
      modifies this
      ensures Valid() && unchanged(`outBuffer, `outPos, `sent)
      ensures old(frame) != [] ==> r == Busy && frame == old(frame) && Pending() == old(Pending())
      ensures old(frame) == [] ==> r == Accepted && frame == data
      ensures old(frame) == [] && data != [] ==> Pending() == Encode(link, data)
      ensures old(frame) == [] && data == [] ==> Pending() == []
    {
      if frame != [] {
        return Busy;
      }
      if data == [] {
        return Accepted;
      }
      frame, pos, len := data, 0, |data|;
      return Accepted;
    }

    /** `hdlc_ll_send_tx_internal`: copies as much as fits. */
    method Write(data: seq<bv8>) returns (n: nat)
      requires outPos <= outBuffer.Length
      modifies this`outPos, outBuffer
      ensures n == Min(|data|, outBuffer.Length - old(outPos))
      ensures outPos == old(outPos) + n
      ensures outBuffer[..outPos] == old(outBuffer[..outPos]) + data[..n]
    {
      n := 0;
      while n < |data| && outPos < outBuffer.Length
        invariant n <= |data| && outPos == old(outPos) + n <= outBuffer.Length
        invariant outBuffer[..outPos] == old(outBuffer[..outPos]) + data[..n]
      {
        outBuffer[outPos] := data[n];
        assert outBuffer[..outPos + 1] == old(outBuffer[..outPos]) + data[..n] + [data[n]];
        assert data[..n + 1] == data[..n] + [data[n]];
        outPos := outPos + 1;
        n := n + 1;
      }
    }

    method WriteOne(b: bv8)
      requires CanWrite()
      modifies this`outPos, outBuffer
      ensures outPos == old(outPos) + 1 <= outBuffer.Length
      ensures outBuffer[..outPos] == old(outBuffer[..outPos]) + [b]
    {
      var n := Write([b]);
      assert [b][..1] == [b];
    }

    /** `hdlc_ll_send_start`. */
    method Start() returns (result: int)
      requires Valid() && state == SendStart && CanWrite()
      modifies this, outBuffer
      ensures Valid() && outBuffer == old(outBuffer) && outPos <= outBuffer.Length
      ensures Flow() == old(Flow()) && frame == old(frame) && sent == old(sent)
      ensures if old(frame) == [] then result == 0 && outPos == old(outPos) else result > 0 && outPos > old(outPos)
    {
      if frame == [] {
        return 0;
      }
      check := link.check(frame);
      WriteOne(FLAG);
      state, escape := SendData, false;
      assert frame[0..] == frame;
      Shifted(old(outBuffer[..outPos]), [FLAG], Pending());
      return 1;
    }

    /** `hdlc_ll_send_data`: a run of ordinary bytes in one go, or one half of an escaped byte. */
    method Data() returns (result: int)
      requires Valid() && state == SendData && CanWrite()
      modifies this, outBuffer
      ensures Valid() && outBuffer == old(outBuffer) && outPos <= outBuffer.Length
      ensures Flow() == old(Flow()) && frame == old(frame) && sent == old(sent)
      ensures result > 0 && outPos > old(outPos)
    {
      DataIsPending();
      var run := ScanRun();
      if run > 0 {
        result := DataRun(run);
      } else {
        DataEscape();
        result := 1;
      }
      if len == 0 {
        state := SendCrc;
      }
      DataIsPending();
    }

    lemma DataIsPending()
      requires InData() && state == (if len == 0 then SendCrc else SendData)
      ensures Valid() && Pending() == DataTail()
    {
      if len == 0 {
        assert frame[pos..] + check == check[0..];
      }
    }

    method ScanRun() returns (run: nat)
      requires InData()
      ensures run <= len && forall i | pos <= i < pos + run :: !Special(frame[i])
      ensures run == len || Special(frame[pos + run])
    {
      run := 0;
      while run < len && !Special(frame[pos + run])
        invariant run <= len
        invariant forall i | pos <= i < pos + run :: !Special(frame[i])
      {
        run := run + 1;
      }
    }

    /** Inside `send_data`: possibly at its end, where `len` is zero. */
    ghost predicate InData()
      reads this
    {
      && frame != [] && pos <= |frame| && len == |frame| - pos && check == link.check(frame)
      && (escape ==> pos < |frame| && Special(frame[pos]))
    }

    ghost function DataTail(): seq<bv8>
      requires InData()
      reads this
    {
      Tail(escape, frame[pos..] + check) + [FLAG]
    }

    method DataRun(run: nat) returns (result: nat)
      requires InData() && 0 < run <= len && CanWrite() && forall i | pos <= i < pos + run :: !Special(frame[i])
      modifies this`pos, this`len, this`outPos, outBuffer
      ensures InData() && outPos <= outBuffer.Length
      ensures outBuffer[..outPos] + DataTail() == old(outBuffer[..outPos] + DataTail())
      ensures result > 0 && outPos > old(outPos)
    {
      ghost var rest := frame[pos..] + check;
      result := Write(frame[pos..pos + run]);
      ghost var x := frame[pos..pos + result];
      assert frame[pos..pos + run][..result] == x;
      assert rest == x + (frame[pos + result..] + check);
      TailRun(x, frame[pos + result..] + check);
      pos, len := pos + result, len - result;
      Shifted(old(outBuffer[..outPos]), x, DataTail());
    }

    method DataEscape()
      requires InData() && len > 0 && Special(frame[pos]) && CanWrite()
      modifies this`pos, this`len, this`escape, this`outPos, outBuffer
      ensures InData() && outPos == old(outPos) + 1 <= outBuffer.Length
      ensures outBuffer[..outPos] + DataTail() == old(outBuffer[..outPos] + DataTail())
    {
      var b := if escape then Flip(frame[pos]) else ESCAPE;
      WriteOne(b);
      assert frame[pos..] + check == [frame[pos]] + (frame[pos + 1..] + check);
      TailEscape(frame[pos], frame[pos + 1..] + check);
      escape := !escape;
      if !escape {
        pos, len := pos + 1, len - 1;
      }
      Shifted(old(outBuffer[..outPos]), [b], DataTail());
    }

    /** `hdlc_ll_send_crc`: the check field, least significant byte first. */
    method CheckField() returns (result: int)
      requires Valid() && state == SendCrc && CanWrite()
      modifies this, outBuffer
      ensures Valid() && outBuffer == old(outBuffer) && outPos <= outBuffer.Length
      ensures Flow() == old(Flow()) && frame == old(frame) && sent == old(sent)
      ensures result > 0
      ensures outPos > old(outPos) || (state == SendEnd && outPos == old(outPos))
    {
      if len / 8 == |check| {
        assert check[len / 8..] == [];
        state := SendEnd;
        return 1;
      }
      ghost var k := CheckIsPending(len / 8);
      var b := check[len / 8];
      if !Special(b) {
        k := CheckPlain(b, k);
      } else {
        k := CheckEscape(b, k);
      }
      k := CheckIsPending(k);
      return 1;
    }

    /** Inside `send_crc`, with `k` bytes of the check field out. */
    ghost predicate InCheck(k: nat)
      reads this
    {
      && frame != [] && pos == |frame| && check == link.check(frame)
      && len == 8 * k && k <= |check|
      && (escape ==> k < |check| && Special(check[k]))
    }

    ghost function CheckTail(k: nat): seq<bv8>
      requires InCheck(k)
      reads this
    {
      Tail(escape, check[k..]) + [FLAG]
    }

    lemma CheckIsPending(k: nat) returns (same: nat)
      requires state == SendCrc && (InCheck(k) || (Valid() && k == len / 8))
      ensures same == k && InCheck(k) && Valid() && Pending() == CheckTail(k)
    {
      same := k;
      assert len == 8 * k;
    }

    method CheckPlain(b: bv8, ghost k: nat) returns (ghost k': nat)
      requires InCheck(k) && k < |check| && b == check[k] && !Special(b) && CanWrite()
      modifies this`len, this`outPos, outBuffer
      ensures InCheck(k') && outPos == old(outPos) + 1 <= outBuffer.Length
      ensures outBuffer[..outPos] + CheckTail(k') == old(outBuffer[..outPos] + CheckTail(k))
    {
      WriteOne(b);
      assert check[k..] == [b] + check[k + 1..];
      TailRun([b], check[k + 1..]);
      len, k' := len + 8, k + 1;
      Shifted(old(outBuffer[..outPos]), [b], CheckTail(k'));
    }

    method CheckEscape(b: bv8, ghost k: nat) returns (ghost k': nat)
      requires InCheck(k) && k < |check| && b == check[k] && Special(b) && CanWrite()
      modifies this`len, this`escape, this`outPos, outBuffer
      ensures InCheck(k') && outPos == old(outPos) + 1 <= outBuffer.Length
      ensures outBuffer[..outPos] + CheckTail(k') == old(outBuffer[..outPos] + CheckTail(k))
    {
      var x := if escape then Flip(b) else ESCAPE;
      WriteOne(x);
      assert check[k..] == [b] + check[k + 1..];
      TailEscape(b, check[k + 1..]);
      escape, k' := !escape, k;
      if !escape {
        len, k' := len + 8, k + 1;
      }
      Shifted(old(outBuffer[..outPos]), [x], CheckTail(k'));
    }

    /** `hdlc_ll_send_end`. */
    method End() returns (result: int)
      requires Valid() && state == SendEnd && CanWrite()
      modifies this, outBuffer
      ensures Valid() && outBuffer == old(outBuffer) && outPos <= outBuffer.Length
      ensures Flow() == old(Flow()) && frame == [] && sent == old(sent) + [old(frame)]
      ensures result > 0 && outPos > old(outPos)
    {
      WriteOne(FLAG);
      assert frame[..pos] == frame;
      sent := sent + [frame[..pos]];
      state, frame, pos, len, escape := SendStart, [], 0, 0, false;
      Shifted(old(outBuffer[..outPos]), [FLAG], Pending());
      return 1;
    }

    /** What has become of the frame in progress: still there, or finished and reported once. */
    ghost predicate Reported(frame0: seq<bv8>, sent0: seq<seq<bv8>>)
      reads this
    {
      || (frame == frame0 && sent == sent0)
      || (frame0 != [] && frame == [] && sent == sent0 + [frame0])
    }

    method Step() returns (result: int)
      requires Valid() && CanWrite()
      modifies this, outBuffer
      ensures Valid() && outBuffer == old(outBuffer) && outPos <= outBuffer.Length
      ensures Flow() == old(Flow()) && Reported(old(frame), old(sent))
      ensures result >= 0
      ensures result == 0 ==> frame == [] && outPos == old(outPos) && state == SendStart
      ensures result > 0 ==>
                outPos > old(outPos) || (outPos == old(outPos) && old(state) == SendCrc && state == SendEnd)
    {
      match state
      case SendStart => result := Start();
      case SendData => result := Data();
      case SendCrc => result := CheckField();
      case SendEnd => result := End();
    }

    /**
     * `hdlc_ll_run_tx`: fills `buffer` from the pending stream. A short return means that the frame is
     * finished; the frame is reported as sent exactly when its last byte is out.
     */
    method RunTx(buffer: array<bv8>) returns (n: nat)
      requires Valid()
      modifies this, buffer
      ensures Valid()
      ensures n == Min(buffer.Length, |old(Pending())|)
      ensures buffer[..n] + Pending() == old(Pending())
      ensures Reported(old(frame), old(sent)) && (frame == [] <==> Pending() == [])
    {
      outBuffer, outPos := buffer, 0;
      ghost var stream, frame0, sent0 := Pending(), frame, sent;
      var repeatedEmpty := false;
      while outPos < outBuffer.Length
        invariant Valid() && outBuffer == buffer && outPos <= buffer.Length
        invariant Flow() == stream && Reported(frame0, sent0)
        invariant repeatedEmpty ==> frame == [] && state == SendStart
        decreases buffer.Length - outPos, if state == SendCrc then 1 else 0, if repeatedEmpty then 0 else 1
      {
        var result := Step();
        if result == 0 {
          if repeatedEmpty {
            break;
          }
          repeatedEmpty := true;
        } else {
          repeatedEmpty := false;
        }
      }
      n := outPos;
      PendingEmpty();
      assert |Flow()| == n + |Pending()|;
    }

    /** Nothing is pending exactly when no frame is in progress. */
    lemma PendingEmpty()
      requires Valid()
      ensures Pending() == [] <==> frame == []
    {
    }
  }

  lemma Shifted(a: seq<bv8>, x: seq<bv8>, b: seq<bv8>)
    ensures (a + x) + b == a + (x + b)
  {
  }

  lemma TailRun(run: seq<bv8>, rest: seq<bv8>)
    requires forall i | 0 <= i < |run| :: !Special(run[i])
    ensures Tail(false, run + rest) == run + Tail(false, rest)
  {
    StuffAppend(run, rest);
    Plain(run);
  }

  lemma TailEscape(b: bv8, rest: seq<bv8>)
    requires Special(b)
    ensures Tail(false, [b] + rest) == [ESCAPE] + Tail(true, [b] + rest)
    ensures Tail(true, [b] + rest) == [Flip(b)] + Tail(false, rest)
  {
    assert ([b] + rest)[1..] == rest;
  }

  /** A run without special bytes goes out as it is. */
  lemma {:induction false} Plain(data: seq<bv8>)
    requires forall i | 0 <= i < |data| :: !Special(data[i])
    ensures Stuff(data) == data
  {
    if data != [] {
      Plain(data[1..]);
      assert data == [data[0]] + data[1..];
    }
  }

  function Total(sizes: seq<nat>): nat { if sizes == [] then 0 else sizes[0] + Total(sizes[1..]) }

  /** One call of `RunTx` with a buffer of the given size. */
  method DrainOne(tx: Transmitter, size: nat) returns (chunk: seq<bv8>)
    requires tx.Valid()
    modifies tx
    ensures tx.Valid() && tx.Reported(old(tx.frame), old(tx.sent)) && (tx.frame == [] <==> tx.Pending() == [])
    ensures |chunk| == Min(size, |old(tx.Pending())|)
    ensures chunk + tx.Pending() == old(tx.Pending())
  {
    var buffer := new bv8[size];
    var n := tx.RunTx(buffer);
    chunk := buffer[..n];
  }

  /** Calling `RunTx` with any sequence of buffer sizes drains the pending stream from the front. */
  method Drain(tx: Transmitter, sizes: seq<nat>) returns (wire: seq<bv8>)
    requires tx.Valid()
    modifies tx
    ensures tx.Valid() && tx.Reported(old(tx.frame), old(tx.sent)) && (tx.frame == [] <==> tx.Pending() == [])
    ensures |wire| == Min(Total(sizes), |old(tx.Pending())|)
    ensures wire + tx.Pending() == old(tx.Pending())
    decreases |sizes|
  {
    if sizes == [] {
      tx.PendingEmpty();
      return [];
    }
    ghost var whole := tx.Pending();
    var chunk := DrainOne(tx, sizes[0]);
    ghost var middle := tx.Pending();
    var rest := Drain(tx, sizes[1..]);
    wire := chunk + rest;
    DrainStep(chunk, rest, middle, tx.Pending(), whole, sizes[0], Total(sizes[1..]));
  }

  lemma DrainStep(chunk: seq<bv8>, rest: seq<bv8>, middle: seq<bv8>, end: seq<bv8>, whole: seq<bv8>, size: nat,
        total: nat)
    requires chunk + middle == whole && rest + end == middle
    requires |chunk| == Min(size, |whole|) && |rest| == Min(total, |middle|)
    ensures (chunk + rest) + end == whole && |chunk + rest| == Min(size + total, |whole|)
  {
    Shifted(chunk, rest, end);
  }

  /**
   * Chunk independence: with any sequence of buffer sizes, what goes on the wire for a payload is the RFC 1662
   * frame as far as the buffers allow, whatever the split; the payload is reported as sent once all of it is out.
   */
  method SendInChunks(tx: Transmitter, payload: seq<bv8>, sizes: seq<nat>) returns (wire: seq<bv8>)
    requires tx.Valid() && tx.frame == [] && payload != []
    modifies tx
    ensures tx.Valid()
    ensures var whole := Encode(tx.link, payload);
            && wire == whole[..Min(Total(sizes), |whole|)]
            && tx.sent == (if Total(sizes) < |whole| then old(tx.sent) else old(tx.sent) + [payload])
            && (tx.frame == [] <==> Total(sizes) >= |whole|)
  {
    var _ := tx.PutFrame(payload);
    ghost var whole := tx.Pending();
    wire := Drain(tx, sizes);
    assert wire == (wire + tx.Pending())[..|wire|];
    assert |wire| + |tx.Pending()| == |whole|;
  }
}
