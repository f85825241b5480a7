/** The BCJ (x86) carry-over step of 7zDec.c. The x86 converter looks up to
    four bytes ahead, so when a stream is filtered chunk by chunk the
    unconverted tail of one chunk is retained and put in front of the next.
    DecodeBCJ does one such step on a buffer that keeps four spare bytes in
    front of the chunk; ApplyBCJ drives it over the chunks read back from
    the temporary file. */
module Bcj {
  import opened SzTypes
  import opened Codecs

  /** RETAIN_BUF_MAX_SIZE: the x86 converter's look-ahead. */
  const RETAIN_BUF_MAX_SIZE: nat := 4

  /** What is carried from one chunk to the next: the converter's address
      and state, and the retained unconverted bytes. */
  datatype Carry = Carry(ip: nat, x86State: nat, retained: seq<byte>)

  /** The result of one DecodeBCJ step: the value it returns, the value it
      leaves in *size, the converted window (retained bytes followed by the
      chunk) and the carry for the next step. */
  datatype BcjStep = BcjStep(ret: nat, size: nat, window: seq<byte>, processed: nat, next: Carry)

  /** One DecodeBCJ step on values. The window is the retained bytes
      followed by the new chunk; the converter finishes `processed` of its
      bytes and the rest is retained. A tail longer than the retain buffer
      is reported as SZ_ERROR_MEM through the byte count, after the
      converter has already run and the address has advanced, and the old
      retained bytes stay in the buffer. On the last call the retained tail
      is counted as output too. */
  function Step(c: Carry, chunk: seq<byte>, lastTime: bool, x86: X86Converter): (r: BcjStep)
    ensures |r.window| == |c.retained| + |chunk|
  {
    var window := c.retained + chunk;
    var conv := x86(window, c.ip, c.x86State);
    var keep := |window| - conv.processed;
    var ip := (c.ip + conv.processed) % UINT32_LIMIT;
    if keep > RETAIN_BUF_MAX_SIZE then
      BcjStep(SZ_ERROR_MEM, |window|, conv.data, conv.processed, Carry(ip, conv.state, c.retained))
    else
      var n := if lastTime then conv.processed + keep else conv.processed;
      BcjStep(n, n, conv.data, conv.processed, Carry(ip, conv.state, conv.data[conv.processed..]))
  }

  /** What one step yields: the converter finishes part of the window and
      the address advances by that much, modulo 2^32. A tail longer than the
      retain buffer is SZ_ERROR_MEM with the whole window as the size and
      the old retained bytes kept; otherwise the window is the processed
      bytes followed by the new retained tail, and the step reports the
      processed bytes, or the whole window on the last call. */
  lemma StepOutcome(c: Carry, chunk: seq<byte>, lastTime: bool, x86: X86Converter)
    ensures var r := Step(c, chunk, lastTime, x86);
      r.processed <= |r.window| &&
      r.next.ip == (c.ip + r.processed) % UINT32_LIMIT &&
      (|r.window| - r.processed > RETAIN_BUF_MAX_SIZE ==>
        r.ret == SZ_ERROR_MEM && r.size == |r.window| && r.next.retained == c.retained) &&
      (|r.window| - r.processed <= RETAIN_BUF_MAX_SIZE ==>
        r.window == r.window[..r.processed] + r.next.retained &&
        r.ret == r.size && r.ret <= |r.window| &&
        r.ret == (if lastTime then |r.window| else r.processed))
  {
    var r := Step(c, chunk, lastTime, x86);
    if |r.window| - r.processed <= RETAIN_BUF_MAX_SIZE {
      assert r.window == r.window[..r.processed] + r.window[r.processed..];
    }
  }

  /** Every byte a successful step takes in is either reported as processed
      or retained for the next step, and at most four bytes are retained. */
  lemma StepConserves(c: Carry, chunk: seq<byte>, x86: X86Converter)
    requires |c.retained| + |chunk| - x86(c.retained + chunk, c.ip, c.x86State).processed <= RETAIN_BUF_MAX_SIZE
    ensures var r := Step(c, chunk, false, x86);
      r.ret + |r.next.retained| == |c.retained| + |chunk| && |r.next.retained| <= RETAIN_BUF_MAX_SIZE
  {
    var r := Step(c, chunk, false, x86);
    assert |r.window| == |r.window[..r.processed]| + |r.next.retained|;
  }

  /** BCJ_state: the converter's address and state, the four-byte retain
      buffer with its fill level, and whether no chunk has been seen yet. */
  class BcjState {
    var ip: nat
    var x86State: nat
    const retainBuf: array<byte>
    var retainBufSize: nat
    var firstBuffer: bool

    ghost predicate Valid()
      reads this
    {
      retainBuf.Length == RETAIN_BUF_MAX_SIZE && retainBufSize <= RETAIN_BUF_MAX_SIZE && ip < UINT32_LIMIT
    }

    /** The carry this state holds. */
    ghost function Carried(): Carry
      reads this, retainBuf
      requires Valid()
    {
      Carry(ip, x86State, retainBuf[..retainBufSize])
    }

    /** BCJ_state_init: address 0, initial converter state, an empty
      retain buffer of RETAIN_BUF_MAX_SIZE bytes, and the first chunk still
      to come. */
    constructor ()
      ensures Valid() && fresh(retainBuf)
      ensures Carried() == Carry(0, 0, []) && firstBuffer
    {
      ip := 0;
      x86State := 0;
      retainBuf := new byte[RETAIN_BUF_MAX_SIZE];
      retainBufSize := 0;
      firstBuffer := true;
    }

    /** Saves the unconverted tail of a window in the retain buffer. */
    method Retain(tail: seq<byte>)
      requires Valid() && |tail| <= RETAIN_BUF_MAX_SIZE
      modifies this, retainBuf
      ensures Valid() && Carried() == Carry(old(ip), old(x86State), tail)
      ensures firstBuffer == old(firstBuffer)
    {
      PutBytes(retainBuf, 0, tail);
      retainBufSize := |tail|;
    }

    /** Where DecodeBCJ puts the retained bytes: in front of the chunk,
      which starts RETAIN_BUF_MAX_SIZE bytes into the buffer. */
    function Offset(): (r: nat)
      reads this
      requires Valid()
      ensures r <= RETAIN_BUF_MAX_SIZE
      ensures !firstBuffer ==> r + retainBufSize == RETAIN_BUF_MAX_SIZE
    {
      if firstBuffer then RETAIN_BUF_MAX_SIZE else RETAIN_BUF_MAX_SIZE - retainBufSize
    }
  }

  /** DecodeBCJ: data holds the chunk of `size` bytes at
      data[RETAIN_BUF_MAX_SIZE..]. The retained bytes are copied in front
      of it, the window they form is converted in place, the unconverted
      tail is saved in the retain buffer and the step's byte count is
      returned and left in *size (newSize). The caller clears FirstBuffer
      before any call with a non-empty retain buffer. */
  method DecodeBCJ(data: array<byte>, size: nat, st: BcjState, lastTime: bool, x86: X86Converter)
    returns (ret: nat, newSize: nat)
    requires st.Valid() && data != st.retainBuf
    requires st.firstBuffer ==> st.retainBufSize == 0
    requires RETAIN_BUF_MAX_SIZE + size <= data.Length
    modifies data, st, st.retainBuf
    ensures st.Valid() && st.firstBuffer == old(st.firstBuffer)
    ensures var r := Step(old(st.Carried()), old(data[RETAIN_BUF_MAX_SIZE..RETAIN_BUF_MAX_SIZE + size]),
                          lastTime, x86);
      var offset := old(st.Offset());
      ret == r.ret && newSize == r.size && st.Carried() == r.next &&
      data[offset..offset + |r.window|] == r.window
    ensures var offset := old(st.Offset());
      data[..offset] == old(data[..offset]) &&
      data[RETAIN_BUF_MAX_SIZE + size..] == old(data[RETAIN_BUF_MAX_SIZE + size..])
  {
    ghost var carry := st.Carried();
    ghost var chunk := data[RETAIN_BUF_MAX_SIZE..RETAIN_BUF_MAX_SIZE + size];
    ghost var r := Step(carry, chunk, lastTime, x86);
    var offset, total := PlaceRetained(data, size, st);
    var conv := ConvertWindow(data, offset, total, st, x86);
    assert conv.data == r.window && conv.processed == r.processed;
    assert data[RETAIN_BUF_MAX_SIZE + size..] == old(data[RETAIN_BUF_MAX_SIZE + size..]);
    var retainBytes := total - conv.processed;
    if retainBytes > RETAIN_BUF_MAX_SIZE {
      ret, newSize := SZ_ERROR_MEM, total;
    } else {
      assert r.next == Carry(st.ip, st.x86State, conv.data[conv.processed..]);
      assert data[offset + conv.processed..offset + total] == conv.data[conv.processed..] by {
        assert data[offset + conv.processed..offset + total] == data[offset..offset + total][conv.processed..];
      }
      st.Retain(data[offset + conv.processed..offset + total]);
      ret := conv.processed;
      if lastTime {
        ret := ret + retainBytes;
      }
      newSize := ret;
    }
  }

  /** The first part of DecodeBCJ: copies the retained bytes in front of
      the chunk, so that the window starts at the state's offset. */
  method PlaceRetained(data: array<byte>, size: nat, st: BcjState) returns (offset: nat, total: nat)
    requires st.Valid() && data != st.retainBuf
    requires st.firstBuffer ==> st.retainBufSize == 0
    requires RETAIN_BUF_MAX_SIZE + size <= data.Length
    modifies data
    ensures offset == st.Offset() && total == size + st.retainBufSize
    ensures offset + total == RETAIN_BUF_MAX_SIZE + size
    ensures data[offset..offset + total] ==
      st.Carried().retained + old(data[RETAIN_BUF_MAX_SIZE..RETAIN_BUF_MAX_SIZE + size])
    ensures data[..offset] == old(data[..offset])
    ensures data[RETAIN_BUF_MAX_SIZE + size..] == old(data[RETAIN_BUF_MAX_SIZE + size..])
  {
    offset := st.Offset();
    var retain := st.retainBufSize;
    total := size + retain;
    assert offset + retain == RETAIN_BUF_MAX_SIZE;
    ghost var before := data[..];
    PutBytes(data, offset, st.retainBuf[..retain]);
    assert data[RETAIN_BUF_MAX_SIZE..] == before[RETAIN_BUF_MAX_SIZE..];
    assert data[RETAIN_BUF_MAX_SIZE + size..] == data[RETAIN_BUF_MAX_SIZE..][size..];
    assert data[offset + retain..offset + total] == data[RETAIN_BUF_MAX_SIZE..][..size];
    assert data[offset..offset + total] == data[offset..offset + retain] + data[offset + retain..offset + total];
  }

  /** The middle part of DecodeBCJ: converts the window in place and
      advances the converter's address and state. */
  method ConvertWindow(data: array<byte>, offset: nat, total: nat, st: BcjState, x86: X86Converter)
    returns (conv: Converted)
    requires st.Valid() && offset + total <= data.Length
    modifies data, st`ip, st`x86State
    ensures conv == x86(old(data[offset..offset + total]), old(st.ip), old(st.x86State))
    ensures data[offset..offset + total] == conv.data
    ensures data[..offset] == old(data[..offset])
    ensures data[offset + total..] == old(data[offset + total..])
    ensures st.Valid() && st.ip == (old(st.ip) + conv.processed) % UINT32_LIMIT && st.x86State == conv.state
  {
    conv := x86(data[offset..offset + total], st.ip, st.x86State);
    PutBytes(data, offset, conv.data);
    st.ip := (st.ip + conv.processed) % UINT32_LIMIT;
    st.x86State := conv.state;
  }

  /** The sum of the chunk lengths. */
  function TotalLength(chunks: seq<seq<byte>>): nat {
    if chunks == [] then 0 else |chunks[0]| + TotalLength(chunks[1..])
  }

  /** ApplyBCJ's loop on values: each chunk read back from the temporary
      file goes through one Step, the processed bytes of the window are
      written out and subtracted from the remaining total (a SizeT, so the
      subtraction wraps), and the loop stops once the total is zero, a step
      processes nothing, or a step was flagged as the last one. The chunks
      are what the reads return, in order, and the run also stops when they
      run out. lastBufWhenCovered chooses how LastBuf is set: false is the
      code as written, which never sets it; true sets it once the window
      holds everything that remains. */
  function ApplyBcjRun(c: Carry, chunks: seq<seq<byte>>, total: nat, lastBufWhenCovered: bool,
                       x86: X86Converter): (out: seq<byte>)
    decreases |chunks|
  {
    if total == 0 || chunks == [] then []
    else
      var lastBuf := lastBufWhenCovered && |c.retained| + |chunks[0]| >= total;
      var r := Step(c, chunks[0], lastBuf, x86);
      if r.ret == 0 then []
      else
        var written := r.window[..if r.ret <= |r.window| then r.ret else |r.window|];
        if lastBuf then written
        else written + ApplyBcjRun(r.next, chunks[1..], (total - r.ret) % SIZE_T_LIMIT, lastBufWhenCovered, x86)
  }

  /** An x86 converter that, like x86_Convert, leaves at most its
      four-byte look-ahead unprocessed. */
  ghost predicate KeepsLookAheadOnly(x86: X86Converter) {
    forall data, ip, state :: Unprocessed(x86, data, ip, state) <= RETAIN_BUF_MAX_SIZE
  }

  /** How many bytes of `data` the converter leaves unprocessed. */
  function Unprocessed(x86: X86Converter, data: seq<byte>, ip: nat, state: nat): int {
    |data| - x86(data, ip, state).processed
  }

  /** With a converter that keeps no more than its look-ahead, a step never
      fails, so every byte the run writes was retained or read: the run
      never writes more than it was given. */
  lemma {:induction false} ApplyBcjRunWritesNoMore(c: Carry, chunks: seq<seq<byte>>, total: nat,
                                                   lastBufWhenCovered: bool, x86: X86Converter)
    requires KeepsLookAheadOnly(x86) && |c.retained| <= RETAIN_BUF_MAX_SIZE
    ensures |ApplyBcjRun(c, chunks, total, lastBufWhenCovered, x86)| <= |c.retained| + TotalLength(chunks)
    decreases |chunks|
  {
    if total != 0 && chunks != [] {
      var lastBuf := lastBufWhenCovered && |c.retained| + |chunks[0]| >= total;
      var r := Step(c, chunks[0], lastBuf, x86);
      RunLengthOfOneStep(c, chunks, total, lastBufWhenCovered, x86);
      if r.ret != 0 && !lastBuf {
        assert Unprocessed(x86, c.retained + chunks[0], c.ip, c.x86State) <= RETAIN_BUF_MAX_SIZE;
        StepConserves(c, chunks[0], x86);
        ApplyBcjRunWritesNoMore(r.next, chunks[1..], (total - r.ret) % SIZE_T_LIMIT, lastBufWhenCovered, x86);
      }
    }
  }

  /** The length of a run after one step: nothing if the step processed
      nothing, at most the window if it was the last, and otherwise at most
      the step's count followed by the rest of the run. */
  lemma RunLengthOfOneStep(c: Carry, chunks: seq<seq<byte>>, total: nat, lastBufWhenCovered: bool,
                           x86: X86Converter)
    requires total != 0 && chunks != []
    ensures var lastBuf := lastBufWhenCovered && |c.retained| + |chunks[0]| >= total;
      var r := Step(c, chunks[0], lastBuf, x86);
      var n := |ApplyBcjRun(c, chunks, total, lastBufWhenCovered, x86)|;
      TotalLength(chunks) == |chunks[0]| + TotalLength(chunks[1..]) &&
      (r.ret == 0 ==> n == 0) &&
      (r.ret != 0 && lastBuf ==> n <= |c.retained| + |chunks[0]|) &&
      (r.ret != 0 && !lastBuf ==>
        n <= r.ret + |ApplyBcjRun(r.next, chunks[1..], (total - r.ret) % SIZE_T_LIMIT, lastBufWhenCovered, x86)|)
  {
  }

  /** A step that is not the last, on a window longer than the look-ahead
      of a converter that keeps no more than the look-ahead, reports a
      positive count and conserves bytes. */
  lemma StepMakesProgress(c: Carry, chunk: seq<byte>, x86: X86Converter)
    requires KeepsLookAheadOnly(x86)
    requires |chunk| > RETAIN_BUF_MAX_SIZE
    ensures var r := Step(c, chunk, false, x86);
      r.ret > 0 && r.ret + |r.next.retained| == |c.retained| + |chunk| &&
      |r.next.retained| <= RETAIN_BUF_MAX_SIZE && r.ret <= |r.window|
  {
    assert Unprocessed(x86, c.retained + chunk, c.ip, c.x86State) <= RETAIN_BUF_MAX_SIZE;
    StepConserves(c, chunk, x86);
  }

  /** The last step of a converter that keeps no more than the look-ahead
      reports the whole window. */
  lemma LastStepFlushes(c: Carry, chunk: seq<byte>, x86: X86Converter)
    requires KeepsLookAheadOnly(x86)
    ensures Step(c, chunk, true, x86).ret == |c.retained| + |chunk|
  {
    assert Unprocessed(x86, c.retained + chunk, c.ip, c.x86State) <= RETAIN_BUF_MAX_SIZE;
  }

  /** With LastBuf set once the window covers the rest, ApplyBCJ writes
      exactly the total: every chunk but the last is longer than the
      look-ahead, so every step makes progress, and the last step flushes
      the retained tail. */
  lemma {:induction false} ApplyBcjWritesAll(c: Carry, chunks: seq<seq<byte>>, total: nat, x86: X86Converter)
    requires KeepsLookAheadOnly(x86)
    requires |c.retained| <= RETAIN_BUF_MAX_SIZE
    requires total == |c.retained| + TotalLength(chunks) && total < SIZE_T_LIMIT
    requires forall i | 0 <= i < |chunks| - 1 :: |chunks[i]| > RETAIN_BUF_MAX_SIZE
    ensures |ApplyBcjRun(c, chunks, total, true, x86)| == total || (chunks == [] && |c.retained| == total)
    decreases |chunks|
  {
    if total == 0 || chunks == [] {
      RunWithNothingLeft(c, chunks, total, x86);
    } else if |c.retained| + |chunks[0]| >= total {
      LastStepWritesAll(c, chunks, total, x86);
    } else {
      var r := Step(c, chunks[0], false, x86);
      StepKeepsRunInShape(c, chunks, total, x86);
      ApplyBcjWritesAll(r.next, chunks[1..], total - r.ret, x86);
      RunContinues(c, chunks, total, x86);
    }
  }

  /** With nothing left to write or no chunk left to read, the run writes
      nothing; without chunks the total is the retained bytes. */
  lemma RunWithNothingLeft(c: Carry, chunks: seq<seq<byte>>, total: nat, x86: X86Converter)
    requires total == |c.retained| + TotalLength(chunks)
    requires total == 0 || chunks == []
    ensures |ApplyBcjRun(c, chunks, total, true, x86)| == total || (chunks == [] && |c.retained| == total)
  {
    assert ApplyBcjRun(c, chunks, total, true, x86) == [];
  }

  /** When the window covers the rest of the total, the step is the last one
      and writes all of it. */
  lemma LastStepWritesAll(c: Carry, chunks: seq<seq<byte>>, total: nat, x86: X86Converter)
    requires KeepsLookAheadOnly(x86)
    requires chunks != [] && 0 < total && total == |c.retained| + TotalLength(chunks)
    requires |c.retained| + |chunks[0]| >= total
    ensures |ApplyBcjRun(c, chunks, total, true, x86)| == total
  {
    assert TotalLength(chunks) == |chunks[0]| + TotalLength(chunks[1..]);
    LastStepFlushes(c, chunks[0], x86);
    RunEndsWithLastStep(c, chunks, total, x86);
  }

  /** A step that is not the last leaves the rest of the run in the shape
      ApplyBcjWritesAll needs: a short retained tail, the rest of the total
      equal to that tail and the remaining chunks, and all but the last
      remaining chunk longer than the look-ahead. */
  lemma StepKeepsRunInShape(c: Carry, chunks: seq<seq<byte>>, total: nat, x86: X86Converter)
    requires KeepsLookAheadOnly(x86)
    requires |c.retained| <= RETAIN_BUF_MAX_SIZE
    requires chunks != [] && total == |c.retained| + TotalLength(chunks) && total < SIZE_T_LIMIT
    requires forall i | 0 <= i < |chunks| - 1 :: |chunks[i]| > RETAIN_BUF_MAX_SIZE
    requires |c.retained| + |chunks[0]| < total
    ensures var r := Step(c, chunks[0], false, x86);
      0 < r.ret <= |r.window| && r.ret <= total &&
      |r.next.retained| <= RETAIN_BUF_MAX_SIZE &&
      total - r.ret == |r.next.retained| + TotalLength(chunks[1..]) &&
      (forall i | 0 <= i < |chunks[1..]| - 1 :: |chunks[1..][i]| > RETAIN_BUF_MAX_SIZE)
  {
    var rest := chunks[1..];
    assert TotalLength(chunks) == |chunks[0]| + TotalLength(rest);
    assert |chunks| > 1;
    StepMakesProgress(c, chunks[0], x86);
    forall i | 0 <= i < |rest| - 1
      ensures |rest[i]| > RETAIN_BUF_MAX_SIZE
    {
      assert rest[i] == chunks[i + 1];
    }
  }

  /** A last step that reports the whole window, and the window is the
      whole total, ends the run with the total. */
  lemma RunEndsWithLastStep(c: Carry, chunks: seq<seq<byte>>, total: nat, x86: X86Converter)
    requires chunks != [] && 0 < total == |c.retained| + |chunks[0]|
    requires Step(c, chunks[0], true, x86).ret == total
    ensures |ApplyBcjRun(c, chunks, total, true, x86)| == total
  {
  }

  /** A step that is not the last and reports part of its window writes
      that part; if the rest of the run writes the rest of the total, the
      run writes the total. */
  lemma RunContinues(c: Carry, chunks: seq<seq<byte>>, total: nat, x86: X86Converter)
    requires chunks != [] && |c.retained| + |chunks[0]| < total < SIZE_T_LIMIT
    requires var r := Step(c, chunks[0], false, x86);
      0 < r.ret <= |r.window| && |ApplyBcjRun(r.next, chunks[1..], total - r.ret, true, x86)| == total - r.ret
    ensures |ApplyBcjRun(c, chunks, total, true, x86)| == total
  {
    var r := Step(c, chunks[0], false, x86);
    assert (total - r.ret) % SIZE_T_LIMIT == total - r.ret;
  }

  /** The chunks one after the other. */
  function Flatten(chunks: seq<seq<byte>>): (r: seq<byte>)
    ensures |r| == TotalLength(chunks)
  {
    if chunks == [] then [] else chunks[0] + Flatten(chunks[1..])
  }

  /** A converter that leaves the bytes as they are, as x86_Convert does on
      data without branch instructions. */
  ghost predicate KeepsData(x86: X86Converter) {
    forall data, ip, state :: ConvertedBytes(x86, data, ip, state) == data
  }

  /** The bytes the converter hands back for `data`. */
  function ConvertedBytes(x86: X86Converter, data: seq<byte>, ip: nat, state: nat): seq<byte> {
    x86(data, ip, state).data
  }

  /** With LastBuf set once the window covers the rest, ApplyBCJ writes
      the retained bytes and then every chunk, in order, each byte once,
      for a converter that keeps the bytes and leaves no more than its
      look-ahead. */
  lemma {:induction false} ApplyBcjWritesInOrder(c: Carry, chunks: seq<seq<byte>>, total: nat, x86: X86Converter)
    requires KeepsLookAheadOnly(x86) && KeepsData(x86)
    requires |c.retained| <= RETAIN_BUF_MAX_SIZE
    requires total == |c.retained| + TotalLength(chunks) && total < SIZE_T_LIMIT
    requires forall i | 0 <= i < |chunks| - 1 :: |chunks[i]| > RETAIN_BUF_MAX_SIZE
    requires chunks != [] || c.retained == []
    ensures ApplyBcjRun(c, chunks, total, true, x86) == c.retained + Flatten(chunks)
    decreases |chunks|
  {
    if total == 0 || chunks == [] {
      NothingLeftInOrder(c, chunks, total, x86);
    } else if |c.retained| + |chunks[0]| >= total {
      assert ConvertedBytes(x86, c.retained + chunks[0], c.ip, c.x86State) == c.retained + chunks[0];
      LastStepFlushes(c, chunks[0], x86);
      LastStepInOrder(c, chunks, total, x86);
    } else {
      var r := Step(c, chunks[0], false, x86);
      StepKeepsRunInShape(c, chunks, total, x86);
      assert ConvertedBytes(x86, c.retained + chunks[0], c.ip, c.x86State) == c.retained + chunks[0];
      StepOutcome(c, chunks[0], false, x86);
      assert TotalLength(chunks) == |chunks[0]| + TotalLength(chunks[1..]);
      ApplyBcjWritesInOrder(r.next, chunks[1..], total - r.ret, x86);
      StepInOrder(c, chunks, total, x86);
    }
  }

  /** With nothing left to write, or no chunk left and nothing retained,
      the run writes nothing, and there is nothing to write. */
  lemma NothingLeftInOrder(c: Carry, chunks: seq<seq<byte>>, total: nat, x86: X86Converter)
    requires total == |c.retained| + TotalLength(chunks)
    requires total == 0 || chunks == []
    requires chunks != [] || c.retained == []
    ensures ApplyBcjRun(c, chunks, total, true, x86) == c.retained + Flatten(chunks)
  {
    assert ApplyBcjRun(c, chunks, total, true, x86) == [];
    assert |c.retained + Flatten(chunks)| == 0;
  }

  /** A last step over the retained bytes and a chunk that covers the rest,
      reporting its unchanged window, writes the retained bytes and all the
      chunks. */
  lemma LastStepInOrder(c: Carry, chunks: seq<seq<byte>>, total: nat, x86: X86Converter)
    requires chunks != [] && 0 < total <= |c.retained| + |chunks[0]|
    requires total == |c.retained| + TotalLength(chunks)
    requires var r := Step(c, chunks[0], true, x86);
      r.window == c.retained + chunks[0] && r.ret == |c.retained| + |chunks[0]|
    ensures ApplyBcjRun(c, chunks, total, true, x86) == c.retained + Flatten(chunks)
  {
    assert Flatten(chunks) == chunks[0] + Flatten(chunks[1..]);
    assert TotalLength(chunks) == |chunks[0]| + TotalLength(chunks[1..]);
    assert Flatten(chunks[1..]) == [];
    RunEndsWithWindow(c, chunks, total, x86);
  }

  /** A step that is not the last, over an unchanged window it splits into
      the reported part and the retained tail, writes the retained bytes
      and all the chunks once the rest of the run writes its tail and the
      remaining chunks. */
  lemma StepInOrder(c: Carry, chunks: seq<seq<byte>>, total: nat, x86: X86Converter)
    requires chunks != [] && |c.retained| + |chunks[0]| < total < SIZE_T_LIMIT
    requires var r := Step(c, chunks[0], false, x86);
      0 < r.ret <= |r.window| && r.window == c.retained + chunks[0] &&
      r.window == r.window[..r.ret] + r.next.retained &&
      ApplyBcjRun(r.next, chunks[1..], total - r.ret, true, x86) == r.next.retained + Flatten(chunks[1..])
    ensures ApplyBcjRun(c, chunks, total, true, x86) == c.retained + Flatten(chunks)
  {
    var r := Step(c, chunks[0], false, x86);
    RunSplitsAtStep(c, chunks, total, x86);
    assert Flatten(chunks) == chunks[0] + Flatten(chunks[1..]);
    Regroup(c.retained, chunks[0], r.window[..r.ret], r.next.retained, Flatten(chunks[1..]));
  }

  /** Two ways of cutting the same bytes in two, each followed by the same
      rest, give the same bytes. */
  lemma Regroup(a: seq<byte>, b: seq<byte>, x: seq<byte>, y: seq<byte>, rest: seq<byte>)
    requires a + b == x + y
    ensures x + (y + rest) == a + (b + rest)
  {
    assert x + (y + rest) == (x + y) + rest;
  }

  /** A last step that reports its whole window, a window that is the
      whole total, ends the run with that window. */
  lemma RunEndsWithWindow(c: Carry, chunks: seq<seq<byte>>, total: nat, x86: X86Converter)
    requires chunks != [] && 0 < total <= |c.retained| + |chunks[0]|
    requires Step(c, chunks[0], true, x86).ret == |c.retained| + |chunks[0]|
    ensures ApplyBcjRun(c, chunks, total, true, x86) == Step(c, chunks[0], true, x86).window
  {
  }

  /** A step that is not the last and reports part of its window writes
      that part, followed by the rest of the run. */
  lemma RunSplitsAtStep(c: Carry, chunks: seq<seq<byte>>, total: nat, x86: X86Converter)
    requires chunks != [] && |c.retained| + |chunks[0]| < total < SIZE_T_LIMIT
    requires var r := Step(c, chunks[0], false, x86); 0 < r.ret <= |r.window|
    ensures var r := Step(c, chunks[0], false, x86);
      ApplyBcjRun(c, chunks, total, true, x86) ==
        r.window[..r.ret] + ApplyBcjRun(r.next, chunks[1..], total - r.ret, true, x86)
  {
    var r := Step(c, chunks[0], false, x86);
    assert (total - r.ret) % SIZE_T_LIMIT == total - r.ret;
  }

  /** A converter that behaves like x86_Convert on data without branch
      instructions: nothing changes, and all but the four-byte look-ahead
      is finished (nothing at all below five bytes). */
  const PlainX86: X86Converter :=
    (data: seq<byte>, ip: nat, state: nat) => Converted(data, if |data| < 5 then 0 else |data| - 4, state)

  /** OUT_BUF_SIZE: how many bytes ApplyBCJ asks each read for. */
  const OUT_BUF_SIZE: nat := 0x10_0000

  /** ApplyBCJ as written never sets LastBuf, so the tail a step retains is
      written only by a later step. When the folder's size is a multiple of
      the read size, every read is full, the read after the last one returns
      nothing, and the step over the retained bytes alone processes nothing:
      the loop ends with the tail unwritten. A folder of one full read
      writes all but its last four bytes; with LastBuf set once the window
      covers the rest, it is written whole. */
  lemma ApplyBcjAsWrittenDropsTail(chunk: seq<byte>)
    requires |chunk| == OUT_BUF_SIZE
    ensures ApplyBcjRun(Carry(0, 0, []), [chunk, []], OUT_BUF_SIZE, false, PlainX86) ==
            chunk[..OUT_BUF_SIZE - RETAIN_BUF_MAX_SIZE]
    ensures ApplyBcjRun(Carry(0, 0, []), [chunk, []], OUT_BUF_SIZE, true, PlainX86) == chunk
  {
    var c := Carry(0, 0, []);
    assert c.retained + chunk == chunk;
    var r := Step(c, chunk, false, PlainX86);
    assert r.ret == OUT_BUF_SIZE - RETAIN_BUF_MAX_SIZE;
    assert r.next.retained == chunk[OUT_BUF_SIZE - RETAIN_BUF_MAX_SIZE..];
    var r2 := Step(r.next, [], false, PlainX86);
    assert r.next.retained + [] == r.next.retained;
    assert r2.ret == 0;
    assert ApplyBcjRun(r.next, [[]], RETAIN_BUF_MAX_SIZE, false, PlainX86) == [];
  }

  /** When the folder ends with a short read instead, ReadTempStream closes
      the temporary file and the next read reopens it from the start, so
      ApplyBCJ as written reads the folder again: an 8-byte folder writes its
      first four bytes, then its last four followed by its first four. The
      second step reports 8 bytes against a remaining total of 4, so the
      total, a 32-bit SizeT, wraps to 2^32 - 4 instead of reaching zero and
      the loop goes on. */
  lemma ApplyBcjAsWrittenRereads()
    ensures var chunk: seq<byte> := [1, 2, 3, 4, 5, 6, 7, 8];
      ApplyBcjRun(Carry(0, 0, []), [chunk, chunk], 8, false, PlainX86) == chunk + [1, 2, 3, 4]
  {
    var chunk: seq<byte> := [1, 2, 3, 4, 5, 6, 7, 8];
    var c := Carry(0, 0, []);
    var r := RereadFirstStep(chunk);
    var r2 := RereadSecondStep(chunk, r.next);
    assert [chunk][1..] == [];
    assert ApplyBcjRun(r.next, [chunk], 4, false, PlainX86) == r2.window[..8];
    assert [chunk, chunk][1..] == [chunk];
  }

  /** The first step of ApplyBcjAsWrittenRereads: four bytes processed and
      four retained. */
  lemma RereadFirstStep(chunk: seq<byte>) returns (r: BcjStep)
    requires chunk == [1, 2, 3, 4, 5, 6, 7, 8]
    ensures r == Step(Carry(0, 0, []), chunk, false, PlainX86)
    ensures r.ret == 4 && r.window[..4] == [1, 2, 3, 4] && r.next.retained == [5, 6, 7, 8]
  {
    assert Carry(0, 0, []).retained + chunk == chunk;
    r := Step(Carry(0, 0, []), chunk, false, PlainX86);
  }

  /** The second step of ApplyBcjAsWrittenRereads: the retained four bytes
      and the reread folder form a 12-byte window of which 8 are processed. */
  lemma RereadSecondStep(chunk: seq<byte>, c: Carry) returns (r: BcjStep)
    requires chunk == [1, 2, 3, 4, 5, 6, 7, 8] && c.retained == [5, 6, 7, 8]
    ensures r == Step(c, chunk, false, PlainX86)
    ensures r.ret == 8 && r.window[..8] == [5, 6, 7, 8, 1, 2, 3, 4]
    ensures (4 - r.ret) % SIZE_T_LIMIT == SIZE_T_LIMIT - 4
  {
    r := Step(c, chunk, false, PlainX86);
    assert r.window == [5, 6, 7, 8, 1, 2, 3, 4, 5, 6, 7, 8];
  }
}
