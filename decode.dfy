/** The folder decoder of 7zDec.c: the Copy decoder over a look-ahead stream,
    the adapters that hand a pack stream to the LZMA and LZMA2 decoders, and
    SzFolder_Decode2 / SzFolder_Decode, which run the coders of a validated
    folder in order and route their outputs through temporary buffers.

    FolderDecodeOutcome is the reference definition of what decoding a folder
    yields; SzFolderDecode2 is proved to produce exactly that. */
module Decode {
  import opened SzTypes
  import opened Folder
  import opened Codecs
  import opened LookStream

  /** SzDecodeCopy and the LZMA adapters look at no more than 1 << 18 bytes
      at a time. */
  const LOOK_CHUNK: nat := 0x40000

  /** ISzAlloc, reduced to the set of blocks it has handed out and not yet
      taken back. Allocation failure is not modelled. */
  class Allocator {
    var live: set<array<byte>>

    constructor ()
      ensures live == {}
    {
      live := {};
    }

    /** IAlloc_Alloc: a fresh block of n bytes, now live. The block comes
        zero-filled. */
    method Alloc(n: nat) returns (block: array<byte>)
      modifies this
      ensures fresh(block) && block.Length == n && block[..] == Zeros(n)
      ensures live == old(live) + {block}
    {
      block := new byte[n](_ => 0);
      live := live + {block};
    }

    /** IAlloc_Free: releases a block; freeing NULL does nothing. */
    method Free(p: Option<array<byte>>)
      modifies this
      ensures live == if p.Some? then old(live) - {p.value} else old(live)
    {
      if p.Some? {
        live := live - {p.value};
      }
    }
  }

  /** n zero bytes. */
  function Zeros(n: nat): (r: seq<byte>)
    ensures |r| == n && forall i | 0 <= i < n :: r[i] == 0
  {
    seq(n, _ => 0)
  }

  /** The blocks held by the slots of the tempBuf array. */
  function Slots(s: seq<Option<array<byte>>>): set<array<byte>> {
    set i | 0 <= i < |s| && s[i].Some? :: s[i].value
  }

  /** SzDecodeCopy: copies inSize bytes of the stream into out[start..],
      chunk by chunk, and reports SZ_ERROR_INPUT_EOF when the stream ends
      first, having copied everything that was there. */
  method SzDecodeCopy(inSize: nat, stream: LookToRead, out: array<byte>, start: nat) returns (res: SRes)
    requires stream.Valid()
    requires out != stream.buf
    requires start + inSize <= out.Length
    modifies stream, stream.buf, stream.realStream, out
    ensures stream.Valid()
    ensures res == SZ_OK || res == SZ_ERROR_INPUT_EOF
    ensures res == SZ_OK <==> inSize <= |old(stream.Upcoming())|
    ensures res == SZ_OK ==>
      out[start..start + inSize] == old(stream.Upcoming())[..inSize] &&
      stream.Upcoming() == old(stream.Upcoming())[inSize..]
    ensures res != SZ_OK ==>
      out[start..start + |old(stream.Upcoming())|] == old(stream.Upcoming()) &&
      stream.Upcoming() == []
    ensures out[..start] == old(out[..start]) && out[start + inSize..] == old(out[start + inSize..])
  {
    ghost var all := stream.Upcoming();
    ghost var out0 := out[..];
    var done: nat := 0;
    while done < inSize
      invariant stream.Valid()
      invariant CopiedSoFar(out[..], out0, start, inSize, done, all, stream.Upcoming())
    {
      var n := CopyChunk(stream, out, start, done, inSize, all, out0);
      if n == 0 {
        CopiedToEnd(out[..], out0, start, inSize, done, all, stream.Upcoming());
        return SZ_ERROR_INPUT_EOF;
      }
      done := done + n;
    }
    res := SZ_OK;
  }

  /** The state of SzDecodeCopy after done bytes, on values: out holds the
      first done bytes of all at start, the stream shows the rest of all,
      and out is unchanged outside out[start..start + inSize]. */
  ghost predicate CopiedSoFar(out: seq<byte>, out0: seq<byte>, start: nat, inSize: nat, done: nat,
                              all: seq<byte>, upcoming: seq<byte>)
  {
    |out| == |out0| && start + inSize <= |out| && done <= inSize && done <= |all| &&
    out[start..start + done] == all[..done] && upcoming == all[done..] &&
    out[..start] == out0[..start] && out[start + inSize..] == out0[start + inSize..]
  }

  /** Once the stream has ended, everything there was has been copied. */
  lemma CopiedToEnd(out: seq<byte>, out0: seq<byte>, start: nat, inSize: nat, done: nat, all: seq<byte>,
                    upcoming: seq<byte>)
    requires CopiedSoFar(out, out0, start, inSize, done, all, upcoming) && done == |all|
    ensures start + |all| <= |out| && out[start..start + |all|] == all && upcoming == []
  {
    assert all[..done] == all;
  }

  /** One iteration of SzDecodeCopy: looks at up to LOOK_CHUNK of the
      inSize - done remaining bytes, appends what it sees to the copied
      prefix of out and skips past it. It sees nothing only when the stream
      has ended. */
  method CopyChunk(stream: LookToRead, out: array<byte>, start: nat, done: nat, inSize: nat,
                   ghost all: seq<byte>, ghost out0: seq<byte>) returns (n: nat)
    requires stream.Valid()
    requires out != stream.buf
    requires done < inSize
    requires CopiedSoFar(out[..], out0, start, inSize, done, all, stream.Upcoming())
    modifies stream, stream.buf, stream.realStream, out
    ensures stream.Valid()
    ensures done + n <= inSize
    ensures n == 0 ==> done == |all|
    ensures CopiedSoFar(out[..], out0, start, inSize, done + n, all, stream.Upcoming())
  {
    var remaining := inSize - done;
    var view := stream.Look(Min(LOOK_CHUNK, remaining));
    n := |view|;
    if n == 0 {
      return;
    }
    ghost var before := out[..];
    PutBytes(out, start + done, view);
    stream.Skip(n);
    CopiedMore(before, out[..], out0, start, inSize, done, all, view);
  }

  /** Writing the next bytes of all after the copied prefix extends it. */
  lemma CopiedMore(before: seq<byte>, after: seq<byte>, out0: seq<byte>, start: nat, inSize: nat, done: nat,
                   all: seq<byte>, view: seq<byte>)
    requires done + |view| <= inSize && done + |view| <= |all|
    requires CopiedSoFar(before, out0, start, inSize, done, all, all[done..])
    requires view == all[done..][..|view|]
    requires |after| == |before|
    requires after[..start + done] == before[..start + done]
    requires after[start + done..start + done + |view|] == view
    requires after[start + done + |view|..] == before[start + done + |view|..]
    ensures CopiedSoFar(after, out0, start, inSize, done + |view|, all, all[done..][|view|..])
  {
    var n := |view|;
    assert after[start..start + done] == after[..start + done][start..] == before[..start + done][start..];
    assert after[start..start + done + n] == after[start..start + done] + view;
    assert all[..done + n] == all[..done] + all[done..][..n];
    assert all[done..][n..] == all[done + n..];
    assert after[..start] == after[..start + done][..start];
    assert after[start + inSize..] == after[start + done + n..][inSize - done - n..];
  }

  /** The packed bytes a decoder may read: at most inSize bytes from offset. */
  function PackedWindow(data: seq<byte>, offset: nat, inSize: nat): (r: seq<byte>)
    ensures |r| <= inSize && |r| <= |From(data, offset)|
    ensures r == From(data, offset)[..|r|]
  {
    From(data, offset)[..Min(inSize, |From(data, offset)|)]
  }

  /** A region of an output buffer once a decoder has written `written`
      over its front: the rest of the region keeps what it held. */
  function Overwritten(region: seq<byte>, written: seq<byte>): (r: seq<byte>)
    requires |written| <= |region|
    ensures |r| == |region| && r[..|written|] == written && r[|written|..] == region[|written|..]
  {
    written + region[|written|..]
  }

  /** What SzDecodeLzma (lzma2 false) or SzDecodeLzma2 (lzma2 true) makes
      of where the decoder stopped, over a region of the output buffer that
      held `region`: the decoder's bytes stand over the front of the region
      whatever the result; the result is the decoder's own failure, or else
      the end test's verdict, with the dictionary size equal to the region's
      size as the adapters set it. */
  function DecoderRunOutcome(run: DecoderRun, region: seq<byte>, lzma2: bool): (r: DecodeOutcome)
    requires |run.written| <= |region|
    ensures r.out == Overwritten(region, run.written)
    ensures r.res == SZ_OK <==>
      run.res == SZ_OK && run.lookaheadLeft == 0 &&
      (run.status == FinishedWithMark || (!lzma2 && run.status == MaybeFinishedWithoutMark))
    ensures r.res != SZ_OK && run.res == SZ_OK ==> r.res == SZ_ERROR_DATA
  {
    var dicBufSize := |region|;
    var res :=
      if run.res != SZ_OK then run.res
      else if lzma2 then Lzma2EndCheck(dicBufSize, |region|, run.lookaheadLeft, run.status)
      else LzmaEndCheck(dicBufSize, |region|, run.lookaheadLeft, run.status);
    DecodeOutcome(res, Overwritten(region, run.written))
  }

  /** The end tests compare the dictionary size with the output size, which
      the adapters have made equal, and never compare dicPos with it: a
      decoder that meets an end marker early and has consumed all it looked
      at is accepted with the rest of the region as it was. */
  lemma EarlyEndMarkerAccepted(region: seq<byte>, written: seq<byte>, lzma2: bool)
    requires |written| < |region|
    ensures var r := DecoderRunOutcome(DecoderRun(SZ_OK, written, FinishedWithMark, 0), region, lzma2);
      r.res == SZ_OK && r.out[..|written|] == written && r.out[|written|..] == region[|written|..]
  {
  }

  /** What decoding one main coder's pack stream over a region of the
      output buffer that held `region` yields. Copy hands the pack bytes
      through unchanged and insists that packed and unpacked sizes agree;
      LZMA and LZMA2 run the linked decoders, LZMA2 only after checking that
      its property blob is one byte, and accept where they stopped as
      DecoderRunOutcome says; any other id is PPMd, which this build does
      not include. */
  function MainCoderOutcome(coder: Coder, data: seq<byte>, offset: nat, inSize: nat, region: seq<byte>,
                            codecs: CodecSet): (r: DecodeOutcome)
    ensures r.res == SZ_OK ==> |r.out| == |region|
    ensures coder.methodId == K_COPY ==>
      (r.res == SZ_OK <==> inSize == |region| && inSize <= |From(data, offset)|) &&
      (r.res == SZ_OK ==> r.out == From(data, offset)[..inSize])
    ensures coder.methodId == K_COPY && inSize != |region| ==> r.res == SZ_ERROR_DATA
    ensures coder.methodId == K_LZMA ==>
      var run := codecs.lzma(coder.props, PackedWindow(data, offset, inSize), |region|);
      r.out == Overwritten(region, run.written) &&
      (r.res == SZ_OK <==> run.res == SZ_OK && run.lookaheadLeft == 0 &&
                           run.status in {FinishedWithMark, MaybeFinishedWithoutMark})
    ensures coder.methodId == K_LZMA2 && |coder.props| != 1 ==> r.res == SZ_ERROR_DATA
    ensures coder.methodId == K_LZMA2 && |coder.props| == 1 ==>
      var run := codecs.lzma2(coder.props, PackedWindow(data, offset, inSize), |region|);
      r.out == Overwritten(region, run.written) &&
      (r.res == SZ_OK <==> run.res == SZ_OK && run.lookaheadLeft == 0 && run.status == FinishedWithMark)
    ensures !IsMainMethod(coder.methodId) ==> r.res == SZ_ERROR_UNSUPPORTED
  {
    if coder.methodId == K_COPY then
      if inSize != |region| then DecodeOutcome(SZ_ERROR_DATA, [])
      else if inSize <= |From(data, offset)| then DecodeOutcome(SZ_OK, From(data, offset)[..inSize])
      else DecodeOutcome(SZ_ERROR_INPUT_EOF, [])
    else if coder.methodId == K_LZMA then
      DecoderRunOutcome(codecs.lzma(coder.props, PackedWindow(data, offset, inSize), |region|), region, false)
    else if coder.methodId == K_LZMA2 then
      if |coder.props| != 1 then DecodeOutcome(SZ_ERROR_DATA, [])
      else DecoderRunOutcome(codecs.lzma2(coder.props, PackedWindow(data, offset, inSize), |region|), region, true)
    else DecodeOutcome(SZ_ERROR_UNSUPPORTED, [])
  }

  /** The bytes of a region past what PutBytes wrote are the ones the region
      held before. */
  lemma KeepsRegionTail(before: seq<byte>, after: seq<byte>, start: nat, w: nat, size: nat)
    requires w <= size && start + size <= |before| == |after|
    requires after[start + w..] == before[start + w..]
    ensures after[start + w..start + size] == before[start..start + size][w..]
  {
    assert after[start + w..start + size] == after[start + w..][..size - w];
    assert before[start + w..start + size] == before[start + w..][..size - w];
  }

  /** SzDecodeLzma: runs the LZMA decoder, with out[start..start + outSize]
      as its dictionary, over the pack stream at the current position, then
      applies the LZMA end test to where it stopped. The decoder's own
      stepping, and how far it leaves the stream, are not modelled. */
  method SzDecodeLzma(coder: Coder, inSize: nat, stream: LookToRead, out: array<byte>, start: nat,
                      outSize: nat, lzma: PackDecoder) returns (res: SRes)
    requires stream.Valid()
    requires start + outSize <= out.Length
    modifies out
    ensures var run := lzma(coder.props, old(PackedWindow(stream.realStream.data, stream.Position(), inSize)), outSize);
      var r := DecoderRunOutcome(run, old(out[start..start + outSize]), false);
      res == r.res && out[start..start + outSize] == r.out
    ensures out[..start] == old(out[..start]) && out[start + outSize..] == old(out[start + outSize..])
  {
    var dicBufSize := outSize;
    var run := lzma(coder.props, PackedWindow(stream.realStream.data, stream.Position(), inSize), dicBufSize);
    ghost var before := out[..];
    PutBytes(out, start, run.written);
    KeepsRegionTail(before, out[..], start, |run.written|, outSize);
    res := run.res;
    if res == SZ_OK {
      res := LzmaEndCheck(dicBufSize, outSize, run.lookaheadLeft, run.status);
    }
    assert out[start..start + outSize] == run.written + out[start + |run.written|..start + outSize];
  }

  /** SzDecodeLzma2: as SzDecodeLzma with the LZMA2 decoder and end test,
      after rejecting a property blob that is not exactly one byte (the
      dictionary-size byte) with SZ_ERROR_DATA. */
  method SzDecodeLzma2(coder: Coder, inSize: nat, stream: LookToRead, out: array<byte>, start: nat,
                       outSize: nat, lzma2: PackDecoder) returns (res: SRes)
    requires stream.Valid()
    requires start + outSize <= out.Length
    modifies out
    ensures |coder.props| != 1 ==> res == SZ_ERROR_DATA && out[..] == old(out[..])
    ensures |coder.props| == 1 ==>
      var run := lzma2(coder.props, old(PackedWindow(stream.realStream.data, stream.Position(), inSize)), outSize);
      var r := DecoderRunOutcome(run, old(out[start..start + outSize]), true);
      res == r.res && out[start..start + outSize] == r.out
    ensures out[..start] == old(out[..start]) && out[start + outSize..] == old(out[start + outSize..])
  {
    if |coder.props| != 1 {
      return SZ_ERROR_DATA;
    }
    var dicBufSize := outSize;
    var run := lzma2(coder.props, PackedWindow(stream.realStream.data, stream.Position(), inSize), dicBufSize);
    ghost var before := out[..];
    PutBytes(out, start, run.written);
    KeepsRegionTail(before, out[..], start, |run.written|, outSize);
    res := run.res;
    if res == SZ_OK {
      res := Lzma2EndCheck(dicBufSize, outSize, run.lookaheadLeft, run.status);
    }
    assert out[start..start + outSize] == run.written + out[start + |run.written|..start + outSize];
  }

  /** The main-coder step of SzFolder_Decode2: dispatches on the full method
      id to the Copy, LZMA or LZMA2 decoder. A Copy coder whose packed and
      unpacked sizes differ fails with SZ_ERROR_DATA before reading. */
  method DecodeMainCoder(coder: Coder, inSize: nat, stream: LookToRead, out: array<byte>, start: nat,
                         outSize: nat, codecs: CodecSet) returns (res: SRes)
    requires stream.Valid()
    requires out != stream.buf
    requires start + outSize <= out.Length
    modifies stream, stream.buf, stream.realStream, out
    ensures stream.Valid()
    ensures var r := MainCoderOutcome(coder, stream.realStream.data, old(stream.Position()), inSize,
                                      old(out[start..start + outSize]), codecs);
      res == r.res && (res == SZ_OK ==> out[start..start + outSize] == r.out)
    ensures coder.methodId == K_COPY && inSize != outSize ==>
      unchanged(stream, stream.realStream, stream.buf, out)
    ensures out[..start] == old(out[..start]) && out[start + outSize..] == old(out[start + outSize..])
  {
    if coder.methodId == K_COPY {
      if inSize != outSize {
        return SZ_ERROR_DATA;
      }
      res := DecodeCopyCoder(coder, inSize, stream, out, start, codecs);
    } else if coder.methodId == K_LZMA {
      res := SzDecodeLzma(coder, inSize, stream, out, start, outSize, codecs.lzma);
    } else if coder.methodId == K_LZMA2 {
      res := SzDecodeLzma2(coder, inSize, stream, out, start, outSize, codecs.lzma2);
    } else {
      res := SZ_ERROR_UNSUPPORTED;
    }
  }

  /** The Copy branch of the main-coder step, once the packed and unpacked
      sizes agree: SzDecodeCopy yields what MainCoderOutcome says. */
  method DecodeCopyCoder(coder: Coder, inSize: nat, stream: LookToRead, out: array<byte>, start: nat,
                         codecs: CodecSet) returns (res: SRes)
    requires stream.Valid()
    requires out != stream.buf
    requires start + inSize <= out.Length
    requires coder.methodId == K_COPY
    modifies stream, stream.buf, stream.realStream, out
    ensures stream.Valid()
    ensures var r := MainCoderOutcome(coder, stream.realStream.data, old(stream.Position()), inSize,
                                      old(out[start..start + inSize]), codecs);
      res == r.res && (res == SZ_OK ==> out[start..start + inSize] == r.out)
    ensures out[..start] == old(out[..start]) && out[start + inSize..] == old(out[start + inSize..])
  {
    res := SzDecodeCopy(inSize, stream, out, start);
  }

  /** The branch converter a two-coder folder applies, in decoding mode from
      address 0, to the whole output buffer. */
  function BranchConvert(methodId: nat, buf: seq<byte>, codecs: CodecSet): (r: seq<byte>)
    ensures |r| == |buf|
  {
    if methodId == K_BCJ then codecs.x86(buf, 0, 0).data
    else codecs.arm(buf, 0).data
  }

  /** What main coder ci (0, 1 or 2) of a BCJ2 folder yields: it reads pack
      stream PackIndexOfCoder(ci) and decodes UnpackSizes[ci] bytes over a
      region that held `region`. */
  function Bcj2Stage(f: Folder, packSizes: seq<nat>, data: seq<byte>, startPos: nat, ci: nat, region: seq<byte>,
                     codecs: CodecSet): (r: DecodeOutcome)
    requires IsBcj2Folder(f) && |packSizes| >= 4 && |f.unpackSizes| >= 4
    requires ci < 3
    ensures r.res == SZ_OK ==> |r.out| == |region|
  {
    var si := PackIndexOfCoder(ci);
    MainCoderOutcome(f.coders[ci], data, startPos + Sum(packSizes, si), packSizes[si], region, codecs)
  }

  /** Coders 0 and 1 of a BCJ2 folder decode into new, zero-filled buffers
      of their unpack size. */
  function Bcj2TempStage(f: Folder, packSizes: seq<nat>, data: seq<byte>, startPos: nat, ci: nat,
                         codecs: CodecSet): (r: DecodeOutcome)
    requires IsBcj2Folder(f) && |packSizes| >= 4 && |f.unpackSizes| >= 4
    requires ci < 2
    ensures r.res == SZ_OK ==> |r.out| == f.unpackSizes[ci]
  {
    Bcj2Stage(f, packSizes, data, startPos, ci, Zeros(f.unpackSizes[ci]), codecs)
  }

  /** Coder 2 of a BCJ2 folder decodes over the last UnpackSizes[2] bytes of
      the output buffer, which held init. */
  function Bcj2TailStage(f: Folder, packSizes: seq<nat>, data: seq<byte>, startPos: nat, init: seq<byte>,
                         codecs: CodecSet): (r: DecodeOutcome)
    requires IsBcj2Folder(f) && |packSizes| >= 4 && |f.unpackSizes| >= 4
    requires f.unpackSizes[2] <= |init|
    ensures r.res == SZ_OK ==> |r.out| == f.unpackSizes[2]
  {
    Bcj2Stage(f, packSizes, data, startPos, 2, init[|init| - f.unpackSizes[2]..], codecs)
  }

  /** What decoding a BCJ2 folder into an output buffer that held init
      yields: coders 0 and 1 decode into buffers of their own (their sizes
      must fit SizeT), coder 2 decodes into the tail of the output buffer
      (its size must not exceed the output size), pack stream 1 is copied
      raw, and BCJ2 recombines the four streams into the whole output
      buffer. The first failure decides the result. */
  function Bcj2FolderOutcome(f: Folder, packSizes: seq<nat>, data: seq<byte>, startPos: nat, init: seq<byte>,
                             codecs: CodecSet): (r: DecodeOutcome)
    requires IsBcj2Folder(f) && |packSizes| >= 4 && |f.unpackSizes| >= 4
    ensures r.res == SZ_OK ==> |r.out| == |init|
    ensures r.res == SZ_OK ==>
      FitsSizeT(f.unpackSizes[0]) && FitsSizeT(f.unpackSizes[1]) && FitsSizeT(packSizes[1]) &&
      f.unpackSizes[2] <= |init|
  {
    var s0 := Bcj2TempStage(f, packSizes, data, startPos, 0, codecs);
    var s1 := Bcj2TempStage(f, packSizes, data, startPos, 1, codecs);
    var raw := From(data, startPos + Sum(packSizes, 1));
    if !FitsSizeT(f.unpackSizes[0]) then DecodeOutcome(SZ_ERROR_MEM, [])
    else if s0.res != SZ_OK then s0
    else if !FitsSizeT(f.unpackSizes[1]) then DecodeOutcome(SZ_ERROR_MEM, [])
    else if s1.res != SZ_OK then s1
    else if f.unpackSizes[2] > |init| then DecodeOutcome(SZ_ERROR_PARAM, [])
    else
      var s2 := Bcj2TailStage(f, packSizes, data, startPos, init, codecs);
      if s2.res != SZ_OK then s2
      else if !FitsSizeT(packSizes[1]) then DecodeOutcome(SZ_ERROR_MEM, [])
      else if packSizes[1] > |raw| then DecodeOutcome(SZ_ERROR_INPUT_EOF, [])
      else codecs.bcj2(s2.out, s1.out, s0.out, raw[..packSizes[1]], |init|)
  }

  /** What decoding a folder into an output buffer that held init yields:
      an unsupported folder is rejected, a one- or two-coder folder decodes
      pack stream 0 over the whole buffer (and then runs the branch
      converter over it), and a BCJ2 folder is decoded as Bcj2FolderOutcome
      says. */
  function FolderDecodeOutcome(f: Folder, packSizes: seq<nat>, data: seq<byte>, startPos: nat, init: seq<byte>,
                               codecs: CodecSet): (r: DecodeOutcome)
    requires |packSizes| >= |f.packStreams| && |f.unpackSizes| >= |f.coders|
    ensures r.res == SZ_OK ==> IsSupportedTopology(f) && |r.out| == |init|
    ensures !IsSupportedTopology(f) ==> r.res == SZ_ERROR_UNSUPPORTED
  {
    if !IsSupportedTopology(f) then DecodeOutcome(SZ_ERROR_UNSUPPORTED, [])
    else if |f.coders| == 4 then Bcj2FolderOutcome(f, packSizes, data, startPos, init, codecs)
    else
      var m := FirstCoderOutcome(f, packSizes, data, startPos, init, codecs);
      if |f.coders| == 1 || m.res != SZ_OK then m
      else DecodeOutcome(SZ_OK, BranchConvert(f.coders[1].methodId, m.out, codecs))
  }

  /** What coder 0 of a one- or two-coder folder yields: it decodes pack
      stream 0 over the whole output buffer, which held init. */
  function FirstCoderOutcome(f: Folder, packSizes: seq<nat>, data: seq<byte>, startPos: nat, init: seq<byte>,
                             codecs: CodecSet): DecodeOutcome
    requires |f.coders| >= 1 && |packSizes| >= 1
  {
    MainCoderOutcome(f.coders[0], data, startPos + Sum(packSizes, 0), packSizes[0], init, codecs)
  }

  /** A folder holding one Copy coder yields exactly the bytes of its pack
      stream, and fails unless the pack stream is as long as the output
      buffer and lies within the file. */
  lemma CopyFolderYieldsPackBytes(f: Folder, packSizes: seq<nat>, data: seq<byte>, startPos: nat, init: seq<byte>,
                                  codecs: CodecSet)
    requires IsSingleCoderFolder(f) && f.coders[0].methodId == K_COPY
    requires |packSizes| >= 1 && |f.unpackSizes| >= 1
    ensures var r := FolderDecodeOutcome(f, packSizes, data, startPos, init, codecs);
      (r.res == SZ_OK <==> packSizes[0] == |init| && |init| <= |From(data, startPos)|) &&
      (r.res == SZ_OK ==> r.out == From(data, startPos)[..|init|])
  {
    assert IsSupportedTopology(f);
  }

  /** A one-coder LZMA folder whose decoder stopped early at an end marker,
      having consumed all it looked at, decodes with SZ_OK, and the output
      buffer past the decoded bytes keeps what it held. */
  lemma LzmaFolderKeepsUnwrittenTail(f: Folder, packSizes: seq<nat>, data: seq<byte>, startPos: nat,
                                     init: seq<byte>, codecs: CodecSet)
    requires IsSingleCoderFolder(f) && f.coders[0].methodId == K_LZMA
    requires |packSizes| >= 1 && |f.unpackSizes| >= 1
    requires var run := codecs.lzma(f.coders[0].props, PackedWindow(data, startPos, packSizes[0]), |init|);
      run.res == SZ_OK && run.status == FinishedWithMark && run.lookaheadLeft == 0
    ensures var run := codecs.lzma(f.coders[0].props, PackedWindow(data, startPos, packSizes[0]), |init|);
      var r := FolderDecodeOutcome(f, packSizes, data, startPos, init, codecs);
      r.res == SZ_OK && r.out[..|run.written|] == run.written && r.out[|run.written|..] == init[|run.written|..]
  {
    assert IsSupportedTopology(f);
    assert Sum(packSizes, 0) == 0;
  }

  /** A two-coder folder yields its main coder's output run through the
      branch converter, and fails exactly when the main coder fails. */
  lemma BranchFilterFolderConverts(f: Folder, packSizes: seq<nat>, data: seq<byte>, startPos: nat, init: seq<byte>,
                                   codecs: CodecSet)
    requires IsBranchFilterFolder(f)
    requires |packSizes| >= 1 && |f.unpackSizes| >= 2
    ensures var m := MainCoderOutcome(f.coders[0], data, startPos, packSizes[0], init, codecs);
      var r := FolderDecodeOutcome(f, packSizes, data, startPos, init, codecs);
      r.res == m.res &&
      (r.res == SZ_OK ==> r.out == BranchConvert(f.coders[1].methodId, m.out, codecs))
  {
    assert IsSupportedTopology(f);
  }

  /** No block held in tempBuf is the object x. */
  ghost predicate SlotsApartFrom(tempBuf: array<Option<array<byte>>>, x: object)
    reads tempBuf
  {
    forall i | 0 <= i < tempBuf.Length && tempBuf[i].Some? :: tempBuf[i].value != x
  }

  /** Filling an empty slot adds exactly its block to the slots' blocks. */
  lemma {:induction false} SlotsFill(s: seq<Option<array<byte>>>, i: nat, a: array<byte>)
    requires i < |s| && s[i] == None
    ensures Slots(s[i := Some(a)]) == Slots(s) + {a}
  {
    var t := s[i := Some(a)];
    forall b | b in Slots(t)
      ensures b in Slots(s) + {a}
    {
      var j :| 0 <= j < |t| && t[j].Some? && t[j].value == b;
      if j != i {
        assert s[j] == t[j];
      }
    }
    forall b | b in Slots(s) + {a}
      ensures b in Slots(t)
    {
      if b == a {
        assert t[i].value == a;
      } else {
        var j :| 0 <= j < |s| && s[j].Some? && s[j].value == b;
        assert t[j] == s[j];
      }
    }
  }

  /** The common tail of the main-coder branch: seek to pack stream si,
      which starts GetSum(packSizes, si) bytes after startPos, and decode it. */
  method SeekAndDecode(coder: Coder, packSizes: seq<nat>, si: nat, inStream: LookToRead, startPos: nat,
                       out: array<byte>, start: nat, outSize: nat, codecs: CodecSet) returns (res: SRes)
    requires inStream.Valid()
    requires out != inStream.buf
    requires si < |packSizes|
    requires start + outSize <= out.Length
    modifies inStream, inStream.buf, inStream.realStream, out
    ensures inStream.Valid()
    ensures var r := MainCoderOutcome(coder, inStream.realStream.data, startPos + Sum(packSizes, si),
                                      packSizes[si], old(out[start..start + outSize]), codecs);
      res == r.res && (res == SZ_OK ==> out[start..start + outSize] == r.out)
  {
    var offset := GetSum(packSizes, si);
    var inSize := packSizes[si];
    SeekTo(inStream, startPos + offset);
    res := DecodeMainCoder(coder, inSize, inStream, out, start, outSize, codecs);
  }

  /** The first half of the BCJ2 branch of SzFolder_Decode2: seeks to pack
      stream 1, refuses a size that does not fit SizeT, allocates slot 2 and
      copies the pack stream into it raw. */
  method CopyRawStream(packSizes: seq<nat>, inStream: LookToRead, startPos: nat, alloc: Allocator,
                       tempBuf: array<Option<array<byte>>>) returns (res: SRes)
    requires inStream.Valid()
    requires |packSizes| >= 2
    requires tempBuf.Length == 3 && tempBuf[2] == None
    modifies inStream, inStream.buf, inStream.realStream, tempBuf, alloc
    ensures inStream.Valid()
    ensures var raw := From(inStream.realStream.data, startPos + Sum(packSizes, 1));
      res == (if !FitsSizeT(packSizes[1]) then SZ_ERROR_MEM
              else if packSizes[1] > |raw| then SZ_ERROR_INPUT_EOF
              else SZ_OK) &&
      (res == SZ_OK ==> tempBuf[2].Some? && tempBuf[2].value[..] == raw[..packSizes[1]])
    ensures tempBuf[..] == old(tempBuf[..])[2 := tempBuf[2]]
    ensures tempBuf[2].Some? ==> fresh(tempBuf[2].value) && alloc.live == old(alloc.live) + {tempBuf[2].value}
    ensures tempBuf[2].None? ==> alloc.live == old(alloc.live)
  {
    var offset := GetSum(packSizes, 1);
    var s3Size := packSizes[1];
    SeekTo(inStream, startPos + offset);
    if s3Size % SIZE_T_LIMIT != s3Size {
      res := SZ_ERROR_MEM;
    } else {
      var raw;
      res, raw := CopyIntoNewBlock(s3Size, inStream, alloc);
      tempBuf[2] := Some(raw);
    }
  }

  /** Allocates a block of s3Size bytes and copies that many bytes of the
      stream into it. */
  method CopyIntoNewBlock(s3Size: nat, inStream: LookToRead, alloc: Allocator) returns (res: SRes, raw: array<byte>)
    requires inStream.Valid()
    modifies inStream, inStream.buf, inStream.realStream, alloc
    ensures inStream.Valid()
    ensures fresh(raw) && raw.Length == s3Size && alloc.live == old(alloc.live) + {raw}
    ensures res == (if s3Size > |old(inStream.Upcoming())| then SZ_ERROR_INPUT_EOF else SZ_OK)
    ensures res == SZ_OK ==> raw[..] == old(inStream.Upcoming())[..s3Size]
  {
    raw := alloc.Alloc(s3Size);
    res := SzDecodeCopy(s3Size, inStream, raw, 0);
    assert raw[..] == raw[0..s3Size];
  }

  /** The BCJ2 branch of SzFolder_Decode2: copies pack stream 1 raw into
      slot 2, then lets BCJ2 recombine coder 2's output (tempBuf3), the
      buffers of coders 1 and 0 (slots 0 and 1) and the raw stream into the
      whole output buffer. */
  method Bcj2Step(packSizes: seq<nat>, inStream: LookToRead, startPos: nat, outBuffer: array<byte>,
                  tempStart3: nat, tempSize3: nat, alloc: Allocator, tempBuf: array<Option<array<byte>>>,
                  bcj2: Bcj2Decoder) returns (res: SRes)
    requires inStream.Valid()
    requires outBuffer != inStream.buf
    requires |packSizes| >= 2
    requires tempStart3 + tempSize3 <= outBuffer.Length
    requires tempBuf.Length == 3 && tempBuf[0].Some? && tempBuf[1].Some? && tempBuf[2] == None
    requires tempBuf[0].value != inStream.buf && tempBuf[1].value != inStream.buf
    modifies inStream, inStream.buf, inStream.realStream, outBuffer, tempBuf, alloc
    ensures inStream.Valid()
    ensures var raw := From(inStream.realStream.data, startPos + Sum(packSizes, 1));
      var r := bcj2(old(outBuffer[tempStart3..tempStart3 + tempSize3]), old(tempBuf[0].value[..]),
                    old(tempBuf[1].value[..]), raw[..Min(packSizes[1], |raw|)], outBuffer.Length);
      res == (if !FitsSizeT(packSizes[1]) then SZ_ERROR_MEM
              else if packSizes[1] > |raw| then SZ_ERROR_INPUT_EOF
              else r.res) &&
      (res == SZ_OK ==> outBuffer[..] == r.out)
    ensures tempBuf[..] == old(tempBuf[..])[2 := tempBuf[2]]
    ensures old(Slots(tempBuf[..])) <= Slots(tempBuf[..])
    ensures tempBuf[2].Some? ==> fresh(tempBuf[2].value)
    ensures alloc.live == old(alloc.live) + (Slots(tempBuf[..]) - old(Slots(tempBuf[..])))
  {
    ghost var before := tempBuf[..];
    res := CopyRawStream(packSizes, inStream, startPos, alloc, tempBuf);
    if tempBuf[2].Some? {
      assert tempBuf[..] == before[2 := Some(tempBuf[2].value)];
      SlotsFill(before, 2, tempBuf[2].value);
    } else {
      assert tempBuf[..] == before;
    }
    if res != SZ_OK {
      return;
    }
    var r := bcj2(outBuffer[tempStart3..tempStart3 + tempSize3], tempBuf[0].value[..],
                  tempBuf[1].value[..], tempBuf[2].value[..], outBuffer.Length);
    res := r.res;
    if res != SZ_OK {
      return;
    }
    forall i | 0 <= i < outBuffer.Length {
      outBuffer[i] := r.out[i];
    }
  }

  /** The filter branch of SzFolder_Decode2: converts the whole output buffer
      in place with the x86 (BCJ) or ARM converter, from address 0 and, for
      x86, from the initial state; any other filter is unsupported. */
  method BranchFilterStep(methodId: nat, outBuffer: array<byte>, codecs: CodecSet) returns (res: SRes)
    modifies outBuffer
    ensures methodId in {K_BCJ, K_ARM} ==>
      res == SZ_OK && outBuffer[..] == BranchConvert(methodId, old(outBuffer[..]), codecs)
    ensures methodId !in {K_BCJ, K_ARM} ==> res == SZ_ERROR_UNSUPPORTED && unchanged(outBuffer)
  {
    var converted;
    if methodId == K_BCJ {
      converted := codecs.x86(outBuffer[..], 0, 0);
    } else if methodId == K_ARM {
      converted := codecs.arm(outBuffer[..], 0);
    } else {
      return SZ_ERROR_UNSUPPORTED;
    }
    forall i | 0 <= i < outBuffer.Length {
      outBuffer[i] := converted.data[i];
    }
    res := SZ_OK;
  }

  /** Once the three main coders of a BCJ2 folder have succeeded, what is
      left of Bcj2FolderOutcome is the raw copy of pack stream 1 and BCJ2. */
  lemma Bcj2FolderOutcomeLastStep(f: Folder, packSizes: seq<nat>, data: seq<byte>, startPos: nat, init: seq<byte>,
                                  codecs: CodecSet)
    requires IsBcj2Folder(f) && |packSizes| >= 4 && |f.unpackSizes| >= 4
    requires FitsSizeT(f.unpackSizes[0]) && FitsSizeT(f.unpackSizes[1]) && f.unpackSizes[2] <= |init|
    requires Bcj2TempStage(f, packSizes, data, startPos, 0, codecs).res == SZ_OK
    requires Bcj2TempStage(f, packSizes, data, startPos, 1, codecs).res == SZ_OK
    requires Bcj2TailStage(f, packSizes, data, startPos, init, codecs).res == SZ_OK
    ensures var raw := From(data, startPos + Sum(packSizes, 1));
      FolderDecodeOutcome(f, packSizes, data, startPos, init, codecs) ==
        if !FitsSizeT(packSizes[1]) then DecodeOutcome(SZ_ERROR_MEM, [])
        else if packSizes[1] > |raw| then DecodeOutcome(SZ_ERROR_INPUT_EOF, [])
        else codecs.bcj2(Bcj2TailStage(f, packSizes, data, startPos, init, codecs).out,
                         Bcj2TempStage(f, packSizes, data, startPos, 1, codecs).out,
                         Bcj2TempStage(f, packSizes, data, startPos, 0, codecs).out,
                         raw[..packSizes[1]], |init|)
  {
    FolderDecodeOutcomeOfBcj2(f, packSizes, data, startPos, init, codecs);
  }

  /** A BCJ2 folder is decoded as Bcj2FolderOutcome says. */
  lemma FolderDecodeOutcomeOfBcj2(f: Folder, packSizes: seq<nat>, data: seq<byte>, startPos: nat, init: seq<byte>,
                                  codecs: CodecSet)
    requires IsBcj2Folder(f) && |packSizes| >= 4 && |f.unpackSizes| >= 4
    ensures FolderDecodeOutcome(f, packSizes, data, startPos, init, codecs) ==
            Bcj2FolderOutcome(f, packSizes, data, startPos, init, codecs)
  {
    assert IsSupportedTopology(f);
  }

  /** Once coder 0 has succeeded if ci is 1, a failure of coder ci (0 or 1)
      of a BCJ2 folder decides Bcj2FolderOutcome: an unpack size that does
      not fit SizeT, or else the coder's own error. */
  lemma Bcj2FolderOutcomeAtTempStage(f: Folder, packSizes: seq<nat>, data: seq<byte>, startPos: nat,
                                     init: seq<byte>, codecs: CodecSet, ci: nat)
    requires IsBcj2Folder(f) && |packSizes| >= 4 && |f.unpackSizes| >= 4
    requires ci < 2
    requires ci == 1 ==>
      FitsSizeT(f.unpackSizes[0]) && Bcj2TempStage(f, packSizes, data, startPos, 0, codecs).res == SZ_OK
    ensures var r := FolderDecodeOutcome(f, packSizes, data, startPos, init, codecs).res;
      var s := Bcj2TempStage(f, packSizes, data, startPos, ci, codecs);
      (!FitsSizeT(f.unpackSizes[ci]) ==> r == SZ_ERROR_MEM) &&
      (FitsSizeT(f.unpackSizes[ci]) && s.res != SZ_OK ==> r == s.res)
  {
    FolderDecodeOutcomeOfBcj2(f, packSizes, data, startPos, init, codecs);
  }

  /** Once coders 0 and 1 have succeeded, a failure of coder 2 of a BCJ2
      folder decides Bcj2FolderOutcome: an unpack size larger than the
      output buffer, or else the coder's own error. */
  lemma Bcj2FolderOutcomeAtTailStage(f: Folder, packSizes: seq<nat>, data: seq<byte>, startPos: nat,
                                     init: seq<byte>, codecs: CodecSet)
    requires IsBcj2Folder(f) && |packSizes| >= 4 && |f.unpackSizes| >= 4
    requires FitsSizeT(f.unpackSizes[0]) && Bcj2TempStage(f, packSizes, data, startPos, 0, codecs).res == SZ_OK
    requires FitsSizeT(f.unpackSizes[1]) && Bcj2TempStage(f, packSizes, data, startPos, 1, codecs).res == SZ_OK
    ensures var r := FolderDecodeOutcome(f, packSizes, data, startPos, init, codecs).res;
      (f.unpackSizes[2] > |init| ==> r == SZ_ERROR_PARAM) &&
      (f.unpackSizes[2] <= |init| && Bcj2TailStage(f, packSizes, data, startPos, init, codecs).res != SZ_OK ==>
        r == Bcj2TailStage(f, packSizes, data, startPos, init, codecs).res)
  {
    FolderDecodeOutcomeOfBcj2(f, packSizes, data, startPos, init, codecs);
  }

  /** The bytes a temporary slot holds, if it holds a buffer. */
  ghost function SlotBytes(o: Option<array<byte>>): Option<seq<byte>>
    reads if o.Some? then {o.value} else {}
  {
    if o.Some? then Some(o.value[..]) else None
  }

  /** The state SzFolder_Decode2 has reached before coder ci of a validated
      folder, stated on values: init is what the output buffer held at the
      start, out what it holds now, t0, t1 and t2 the contents of the three
      temporary slots. The output buffer is untouched until a coder writes
      to it, each finished coder's output sits where a later coder reads
      it, and once every coder has run the output buffer holds
      FolderDecodeOutcome. */
  ghost predicate Progress(folder: Folder, packSizes: seq<nat>, data: seq<byte>, startPos: nat, codecs: CodecSet,
                           ci: nat, init: seq<byte>, out: seq<byte>, t0: Option<seq<byte>>,
                           t1: Option<seq<byte>>, t2: Option<seq<byte>>, start3: nat, size3: nat)
  {
    |packSizes| >= |folder.packStreams| && |folder.unpackSizes| >= |folder.coders| &&
    IsSupportedTopology(folder) && ci <= |folder.coders| && |out| == |init| &&
    var spec := FolderDecodeOutcome(folder, packSizes, data, startPos, init, codecs);
    (ci == |folder.coders| ==> spec.res == SZ_OK && out == spec.out) &&
    if |folder.coders| != 4 then
      t0 == None && t1 == None && t2 == None &&
      (ci == 0 ==> out == init) &&
      (ci == 1 && |folder.coders| == 2 ==>
        var m0 := FirstCoderOutcome(folder, packSizes, data, startPos, init, codecs);
        m0.res == SZ_OK && out == m0.out)
    else
      var s0 := Bcj2TempStage(folder, packSizes, data, startPos, 0, codecs);
      var s1 := Bcj2TempStage(folder, packSizes, data, startPos, 1, codecs);
      (ci < 1 ==> t1 == None) &&
      (ci < 2 ==> t0 == None) &&
      (ci < 4 ==> t2 == None) &&
      (ci < 3 ==> out == init) &&
      (ci >= 1 ==> FitsSizeT(folder.unpackSizes[0]) && s0.res == SZ_OK && t1 == Some(s0.out)) &&
      (ci >= 2 ==> FitsSizeT(folder.unpackSizes[1]) && s1.res == SZ_OK && t0 == Some(s1.out)) &&
      (ci >= 3 ==>
        folder.unpackSizes[2] <= |init| &&
        var s2 := Bcj2TailStage(folder, packSizes, data, startPos, init, codecs);
        s2.res == SZ_OK && start3 == |out| - folder.unpackSizes[2] && size3 == folder.unpackSizes[2] &&
        (ci == 3 ==> out[start3..start3 + size3] == s2.out))
  }

  /** Progress on the heap: the output buffer and the three slots of tempBuf
      are in the state Progress describes, and the two buffers of coders 0
      and 1 are distinct blocks. */
  ghost predicate Decode2Progress(folder: Folder, packSizes: seq<nat>, data: seq<byte>, startPos: nat,
                                  codecs: CodecSet, ci: nat, init: seq<byte>, outBuffer: array<byte>,
                                  tempBuf: array<Option<array<byte>>>, tempStart3: nat, tempSize3: nat)
    reads outBuffer, tempBuf, set i | 0 <= i < tempBuf.Length && tempBuf[i].Some? :: tempBuf[i].value
  {
    tempBuf.Length == 3 &&
    Progress(folder, packSizes, data, startPos, codecs, ci, init, outBuffer[..],
             SlotBytes(tempBuf[0]), SlotBytes(tempBuf[1]), SlotBytes(tempBuf[2]), tempStart3, tempSize3) &&
    (tempBuf[0].Some? && tempBuf[1].Some? ==> tempBuf[0].value != tempBuf[1].value)
  }

  /** Before any coder has run, the state is Progress at coder 0. */
  lemma ProgressStart(folder: Folder, packSizes: seq<nat>, data: seq<byte>, startPos: nat, codecs: CodecSet,
                      out: seq<byte>)
    requires |packSizes| >= |folder.packStreams| && |folder.unpackSizes| >= |folder.coders|
    requires IsSupportedTopology(folder)
    ensures Progress(folder, packSizes, data, startPos, codecs, 0, out, out, None, None, None, 0, 0)
  {
  }

  /** The main coder of a one- or two-coder folder: decoding pack stream 0
      over the whole output buffer either advances Progress past coder 0 or
      fails with the result FolderDecodeOutcome predicts. */
  lemma ProgressMainToOutput(folder: Folder, packSizes: seq<nat>, data: seq<byte>, startPos: nat, codecs: CodecSet,
                             init: seq<byte>, out: seq<byte>, out': seq<byte>, start3: nat, size3: nat, res: SRes)
    requires Progress(folder, packSizes, data, startPos, codecs, 0, init, out, None, None, None, start3, size3)
    requires |folder.coders| != 4 && |out'| == |out|
    requires var m0 := MainCoderOutcome(folder.coders[0], data, startPos + Sum(packSizes, 0), packSizes[0], out, codecs);
      res == m0.res && (res == SZ_OK ==> out' == m0.out)
    ensures res == SZ_OK ==>
      Progress(folder, packSizes, data, startPos, codecs, 1, init, out', None, None, None, start3, size3)
    ensures res != SZ_OK ==> res == FolderDecodeOutcome(folder, packSizes, data, startPos, init, codecs).res
  {
    assert IsSingleCoderFolder(folder) || IsBranchFilterFolder(folder);
    assert out == init;
    FirstCoderDecides(folder, packSizes, data, startPos, init, codecs);
  }

  /** In a one- or two-coder folder the main coder's outcome is the
      folder's when there is no filter after it or when it fails. */
  lemma FirstCoderDecides(f: Folder, packSizes: seq<nat>, data: seq<byte>, startPos: nat, init: seq<byte>,
                          codecs: CodecSet)
    requires |packSizes| >= |f.packStreams| && |f.unpackSizes| >= |f.coders|
    requires (IsSingleCoderFolder(f) || IsBranchFilterFolder(f)) && |packSizes| >= 1
    ensures var m := FirstCoderOutcome(f, packSizes, data, startPos, init, codecs);
      |f.coders| == 1 || m.res != SZ_OK ==> FolderDecodeOutcome(f, packSizes, data, startPos, init, codecs) == m
  {
    assert IsSupportedTopology(f);
  }

  /** Coder 0 or 1 of a BCJ2 folder: its output, in slot 1 - ci, advances
      Progress past coder ci. */
  lemma ProgressMainToTemp(folder: Folder, packSizes: seq<nat>, data: seq<byte>, startPos: nat, codecs: CodecSet,
                           ci: nat, init: seq<byte>, out: seq<byte>, t0: Option<seq<byte>>, t1: Option<seq<byte>>,
                           start3: nat, size3: nat)
    requires Progress(folder, packSizes, data, startPos, codecs, ci, init, out, t0, t1, None, start3, size3)
    requires |folder.coders| == 4 && ci < 2
    requires FitsSizeT(folder.unpackSizes[ci])
    requires Bcj2TempStage(folder, packSizes, data, startPos, ci, codecs).res == SZ_OK
    ensures var s := Some(Bcj2TempStage(folder, packSizes, data, startPos, ci, codecs).out);
      Progress(folder, packSizes, data, startPos, codecs, ci + 1, init, out,
               if ci == 1 then s else t0, if ci == 0 then s else t1, None, start3, size3)
  {
  }

  /** Coder 0 or 1 of a BCJ2 folder, stated on values: with the outcome
      DecodeToSlot reports, either Progress advances past coder ci with the
      coder's output in slot 1 - ci, or the step fails with the result
      FolderDecodeOutcome predicts. */
  lemma ProgressMainToTempStep(folder: Folder, packSizes: seq<nat>, data: seq<byte>, startPos: nat,
                               codecs: CodecSet, ci: nat, init: seq<byte>, out: seq<byte>, t0: Option<seq<byte>>,
                               t1: Option<seq<byte>>, start3: nat, size3: nat, res: SRes, slot: Option<seq<byte>>)
    requires IsBcj2Folder(folder) && |packSizes| >= 4 && |folder.unpackSizes| >= 4 && ci < 2
    requires Progress(folder, packSizes, data, startPos, codecs, ci, init, out, t0, t1, None, start3, size3)
    requires var s := Bcj2TempStage(folder, packSizes, data, startPos, ci, codecs);
      res == (if !FitsSizeT(folder.unpackSizes[ci]) then SZ_ERROR_MEM else s.res) &&
      (res == SZ_OK ==> slot == Some(s.out))
    ensures res == SZ_OK ==>
      Progress(folder, packSizes, data, startPos, codecs, ci + 1, init, out,
               if ci == 1 then slot else t0, if ci == 0 then slot else t1, None, start3, size3)
    ensures res != SZ_OK ==> res == FolderDecodeOutcome(folder, packSizes, data, startPos, init, codecs).res
  {
    Bcj2FolderOutcomeAtTempStage(folder, packSizes, data, startPos, init, codecs, ci);
    if res == SZ_OK {
      ProgressMainToTemp(folder, packSizes, data, startPos, codecs, ci, init, out, t0, t1, start3, size3);
    }
  }

  /** Coder 2 of a BCJ2 folder: its output, in the tail of the output
      buffer, advances Progress past coder 2 and fixes tempBuf3. */
  lemma ProgressMainToTail(folder: Folder, packSizes: seq<nat>, data: seq<byte>, startPos: nat, codecs: CodecSet,
                           init: seq<byte>, out: seq<byte>, out': seq<byte>, t0: Option<seq<byte>>,
                           t1: Option<seq<byte>>, start3: nat, size3: nat)
    requires Progress(folder, packSizes, data, startPos, codecs, 2, init, out, t0, t1, None, start3, size3)
    requires |folder.coders| == 4
    requires |out'| == |out| && folder.unpackSizes[2] <= |out|
    requires var s2 := Bcj2TailStage(folder, packSizes, data, startPos, init, codecs);
      s2.res == SZ_OK && out'[|out| - folder.unpackSizes[2]..] == s2.out
    ensures Progress(folder, packSizes, data, startPos, codecs, 3, init, out', t0, t1, None,
                     |out| - folder.unpackSizes[2], folder.unpackSizes[2])
  {
    assert out'[|out| - folder.unpackSizes[2]..|out| - folder.unpackSizes[2] + folder.unpackSizes[2]]
        == out'[|out| - folder.unpackSizes[2]..];
  }

  /** In a folder of a supported shape, a coder that is neither a main
      coder nor BCJ2 is coder 1 of a two-coder folder. */
  lemma FilterCoderIsLast(folder: Folder, ci: nat)
    requires IsSupportedTopology(folder) && ci < |folder.coders|
    requires !IsMainMethod(folder.coders[ci].methodId % UINT32_LIMIT) && folder.coders[ci].methodId != K_BCJ2
    ensures |folder.coders| == 2 && ci == 1
  {
  }

  /** The filter coder of a two-coder folder is BCJ or ARM, runs with no
      temporary slot in use, and converting the main coder's output
      completes Progress. */
  lemma ProgressFilter(folder: Folder, packSizes: seq<nat>, data: seq<byte>, startPos: nat, codecs: CodecSet,
                       init: seq<byte>, out: seq<byte>, t0: Option<seq<byte>>, t1: Option<seq<byte>>,
                       t2: Option<seq<byte>>, start3: nat, size3: nat)
    requires Progress(folder, packSizes, data, startPos, codecs, 1, init, out, t0, t1, t2, start3, size3)
    requires |folder.coders| == 2
    ensures t0 == None && t1 == None && t2 == None
    ensures folder.coders[1].methodId in {K_BCJ, K_ARM}
    ensures Progress(folder, packSizes, data, startPos, codecs, 2, init,
                     BranchConvert(folder.coders[1].methodId, out, codecs), None, None, None, start3, size3)
  {
    assert IsSupportedTopology(folder);
  }

  /** BCJ2 itself: once its three main coders have run, a BCJ2 folder's
      outcome is that of copying pack stream 1 raw and recombining it with
      tempBuf3 and slots 0 and 1. */
  lemma ProgressBcj2(folder: Folder, packSizes: seq<nat>, data: seq<byte>, startPos: nat, codecs: CodecSet,
                     init: seq<byte>, out: seq<byte>, t0: Option<seq<byte>>, t1: Option<seq<byte>>,
                     start3: nat, size3: nat)
    requires Progress(folder, packSizes, data, startPos, codecs, 3, init, out, t0, t1, None, start3, size3)
    requires |folder.coders| == 4
    ensures t0.Some? && t1.Some? && start3 + size3 <= |out|
    ensures var raw := From(data, startPos + Sum(packSizes, 1));
      FolderDecodeOutcome(folder, packSizes, data, startPos, init, codecs) ==
        if !FitsSizeT(packSizes[1]) then DecodeOutcome(SZ_ERROR_MEM, [])
        else if packSizes[1] > |raw| then DecodeOutcome(SZ_ERROR_INPUT_EOF, [])
        else codecs.bcj2(out[start3..start3 + size3], t0.value, t1.value, raw[..packSizes[1]], |out|)
  {
    Bcj2FolderOutcomeLastStep(folder, packSizes, data, startPos, init, codecs);
  }

  /** Before the BCJ2 coder, slots 0 and 1 are filled and tempBuf3 lies
      within the output buffer. */
  lemma ProgressBcj2Shape(folder: Folder, packSizes: seq<nat>, data: seq<byte>, startPos: nat, codecs: CodecSet,
                          init: seq<byte>, out: seq<byte>, t0: Option<seq<byte>>, t1: Option<seq<byte>>,
                          start3: nat, size3: nat)
    requires Progress(folder, packSizes, data, startPos, codecs, 3, init, out, t0, t1, None, start3, size3)
    requires |folder.coders| == 4
    ensures t0.Some? && t1.Some? && start3 + size3 <= |out|
    ensures IsBcj2Folder(folder) && |packSizes| >= 4
  {
  }

  /** A successful BCJ2 run completes Progress, whatever slot 2 holds. */
  lemma ProgressBcj2Done(folder: Folder, packSizes: seq<nat>, data: seq<byte>, startPos: nat, codecs: CodecSet,
                         init: seq<byte>, out: seq<byte>, out': seq<byte>, t0: Option<seq<byte>>,
                         t1: Option<seq<byte>>, t2: Option<seq<byte>>, start3: nat, size3: nat)
    requires Progress(folder, packSizes, data, startPos, codecs, 3, init, out, t0, t1, None, start3, size3)
    requires |folder.coders| == 4
    requires var spec := FolderDecodeOutcome(folder, packSizes, data, startPos, init, codecs);
      spec.res == SZ_OK && out' == spec.out
    ensures Progress(folder, packSizes, data, startPos, codecs, 4, init, out', t0, t1, t2, start3, size3)
  {
  }

  /** What the BCJ2 step leaves behind, stated on values: either Progress
      past coder 3, or the failure FolderDecodeOutcome predicts. */
  lemma ProgressBcj2Step(folder: Folder, packSizes: seq<nat>, data: seq<byte>, startPos: nat, codecs: CodecSet,
                         init: seq<byte>, out: seq<byte>, out': seq<byte>, t0: seq<byte>, t1: seq<byte>,
                         t2: Option<seq<byte>>, start3: nat, size3: nat, res: SRes)
    requires IsBcj2Folder(folder) && |packSizes| >= 4
    requires Progress(folder, packSizes, data, startPos, codecs, 3, init, out, Some(t0), Some(t1), None,
                      start3, size3)
    requires start3 + size3 <= |out| && |out'| == |out|
    requires var raw := From(data, startPos + Sum(packSizes, 1));
      var r := codecs.bcj2(out[start3..start3 + size3], t0, t1, raw[..Min(packSizes[1], |raw|)], |out|);
      res == (if !FitsSizeT(packSizes[1]) then SZ_ERROR_MEM
              else if packSizes[1] > |raw| then SZ_ERROR_INPUT_EOF
              else r.res) &&
      (res == SZ_OK ==> out' == r.out)
    ensures res == SZ_OK ==>
      Progress(folder, packSizes, data, startPos, codecs, 4, init, out', Some(t0), Some(t1), t2, start3, size3)
    ensures res != SZ_OK ==> res == FolderDecodeOutcome(folder, packSizes, data, startPos, init, codecs).res
  {
    ProgressBcj2(folder, packSizes, data, startPos, codecs, init, out, Some(t0), Some(t1), start3, size3);
    if res == SZ_OK {
      ProgressBcj2Done(folder, packSizes, data, startPos, codecs, init, out, out', Some(t0), Some(t1), t2,
                       start3, size3);
    }
  }

  /** One iteration of SzFolder_Decode2's loop: runs coder ci through the
      main-coder, BCJ2 or filter branch. It either reaches the state before
      coder ci + 1 or fails with the result FolderDecodeOutcome predicts; the
      blocks it adds to tempBuf are fresh and live. */
  method CoderStep(folder: Folder, packSizes: seq<nat>, ci: nat, inStream: LookToRead, startPos: nat,
                   outBuffer: array<byte>, alloc: Allocator, tempBuf: array<Option<array<byte>>>,
                   codecs: CodecSet, tempStart3: nat, tempSize3: nat, ghost init: seq<byte>)
    returns (res: SRes, nextStart3: nat, nextSize3: nat)
    requires inStream.Valid()
    requires outBuffer != inStream.buf
    requires ci < |folder.coders|
    requires Decode2Progress(folder, packSizes, inStream.realStream.data, startPos, codecs, ci, init, outBuffer,
                             tempBuf, tempStart3, tempSize3)
    requires SlotsApartFrom(tempBuf, inStream.buf) && SlotsApartFrom(tempBuf, outBuffer)
    modifies inStream, inStream.buf, inStream.realStream, outBuffer, tempBuf, alloc
    ensures inStream.Valid()
    ensures old(Slots(tempBuf[..])) <= Slots(tempBuf[..])
    ensures forall i | 0 <= i < tempBuf.Length && tempBuf[i] != old(tempBuf[i]) ::
      tempBuf[i].Some? && fresh(tempBuf[i].value)
    ensures alloc.live == old(alloc.live) + (Slots(tempBuf[..]) - old(Slots(tempBuf[..])))
    ensures res == SZ_OK ==>
      Decode2Progress(folder, packSizes, inStream.realStream.data, startPos, codecs, ci + 1, init, outBuffer,
                      tempBuf, nextStart3, nextSize3)
    ensures res != SZ_OK ==>
      res == FolderDecodeOutcome(folder, packSizes, inStream.realStream.data, startPos, init, codecs).res
  {
    var coder := folder.coders[ci];
    if IsMainMethod(coder.methodId % UINT32_LIMIT) {
      res, nextStart3, nextSize3 := MainBranch(folder, packSizes, ci, inStream, startPos, outBuffer, alloc, tempBuf,
                                               codecs, tempStart3, tempSize3, init);
    } else if coder.methodId == K_BCJ2 {
      res, nextStart3, nextSize3 := Bcj2Branch(folder, packSizes, ci, inStream, startPos, outBuffer, alloc, tempBuf,
                                               codecs, tempStart3, tempSize3, init);
    } else {
      nextStart3, nextSize3 := tempStart3, tempSize3;
      res := FilterBranch(folder, packSizes, ci, inStream, startPos, outBuffer, tempBuf, codecs, tempStart3,
                          tempSize3, init);
    }
  }

  /** The main-coder branch of SzFolder_Decode2 for coder ci: in a BCJ2
      folder, coders 0 and 1 decode into a new temporary buffer in slot
      1 - ci and coder 2 into the tail of the output buffer, which becomes
      tempBuf3; otherwise coder 0 decodes into the whole output buffer. */
  method MainBranch(folder: Folder, packSizes: seq<nat>, ci: nat, inStream: LookToRead, startPos: nat,
                   outBuffer: array<byte>, alloc: Allocator, tempBuf: array<Option<array<byte>>>,
                   codecs: CodecSet, tempStart3: nat, tempSize3: nat, ghost init: seq<byte>)
    returns (res: SRes, nextStart3: nat, nextSize3: nat)
    requires inStream.Valid()
    requires outBuffer != inStream.buf
    requires ci < |folder.coders|
    requires Decode2Progress(folder, packSizes, inStream.realStream.data, startPos, codecs, ci, init, outBuffer,
                             tempBuf, tempStart3, tempSize3)
    requires SlotsApartFrom(tempBuf, inStream.buf) && SlotsApartFrom(tempBuf, outBuffer)
    requires IsMainMethod(folder.coders[ci].methodId % UINT32_LIMIT)
    modifies inStream, inStream.buf, inStream.realStream, outBuffer, tempBuf, alloc
    ensures inStream.Valid()
    ensures old(Slots(tempBuf[..])) <= Slots(tempBuf[..])
    ensures forall i | 0 <= i < tempBuf.Length && tempBuf[i] != old(tempBuf[i]) ::
      tempBuf[i].Some? && fresh(tempBuf[i].value)
    ensures alloc.live == old(alloc.live) + (Slots(tempBuf[..]) - old(Slots(tempBuf[..])))
    ensures res == SZ_OK ==>
      Decode2Progress(folder, packSizes, inStream.realStream.data, startPos, codecs, ci + 1, init, outBuffer,
                      tempBuf, nextStart3, nextSize3)
    ensures res != SZ_OK ==>
      res == FolderDecodeOutcome(folder, packSizes, inStream.realStream.data, startPos, init, codecs).res
  {
    nextStart3, nextSize3 := tempStart3, tempSize3;
    if |folder.coders| != 4 {
      res := MainToOutput(folder, packSizes, ci, inStream, startPos, outBuffer, tempBuf, codecs, tempStart3,
                          tempSize3, init);
    } else if ci < 2 {
      res := MainToTemp(folder, packSizes, ci, inStream, startPos, outBuffer, alloc, tempBuf, codecs, tempStart3,
                        tempSize3, init);
    } else {
      res, nextStart3, nextSize3 := MainToTail(folder, packSizes, ci, inStream, startPos, outBuffer, tempBuf,
                                               codecs, tempStart3, tempSize3, init);
    }
  }

  /** MainBranch for the main coder of a one- or two-coder folder: decodes
      pack stream 0 over the whole output buffer. */
  method MainToOutput(folder: Folder, packSizes: seq<nat>, ci: nat, inStream: LookToRead, startPos: nat,
                      outBuffer: array<byte>, tempBuf: array<Option<array<byte>>>, codecs: CodecSet,
                      tempStart3: nat, tempSize3: nat, ghost init: seq<byte>) returns (res: SRes)
    requires inStream.Valid()
    requires outBuffer != inStream.buf
    requires ci < |folder.coders| && |folder.coders| != 4
    requires IsMainMethod(folder.coders[ci].methodId % UINT32_LIMIT)
    requires Decode2Progress(folder, packSizes, inStream.realStream.data, startPos, codecs, ci, init, outBuffer,
                             tempBuf, tempStart3, tempSize3)
    modifies inStream, inStream.buf, inStream.realStream, outBuffer
    ensures inStream.Valid()
    ensures res == SZ_OK ==>
      Decode2Progress(folder, packSizes, inStream.realStream.data, startPos, codecs, ci + 1, init, outBuffer,
                      tempBuf, tempStart3, tempSize3)
    ensures res != SZ_OK ==>
      res == FolderDecodeOutcome(folder, packSizes, inStream.realStream.data, startPos, init, codecs).res
  {
    assert ci == 0;
    ghost var data := inStream.realStream.data;
    ghost var out := outBuffer[..];
    assert Progress(folder, packSizes, data, startPos, codecs, 0, init, out, None, None, None, tempStart3, tempSize3);
    assert outBuffer[0..outBuffer.Length] == out;
    res := SeekAndDecode(folder.coders[ci], packSizes, 0, inStream, startPos, outBuffer, 0, outBuffer.Length, codecs);
    assert outBuffer[..] == outBuffer[0..outBuffer.Length];
    ProgressMainToOutput(folder, packSizes, data, startPos, codecs, init, out, outBuffer[..],
                         tempStart3, tempSize3, res);
    assert SlotBytes(tempBuf[0]) == None && SlotBytes(tempBuf[1]) == None && SlotBytes(tempBuf[2]) == None;
  }

  /** MainBranch for coder 0 or 1 of a BCJ2 folder: refuses an unpack size
      that does not fit SizeT, allocates slot 1 - ci and decodes the coder's
      pack stream into it. */
  method MainToTemp(folder: Folder, packSizes: seq<nat>, ci: nat, inStream: LookToRead, startPos: nat,
                    outBuffer: array<byte>, alloc: Allocator, tempBuf: array<Option<array<byte>>>,
                    codecs: CodecSet, tempStart3: nat, tempSize3: nat, ghost init: seq<byte>) returns (res: SRes)
    requires inStream.Valid()
    requires outBuffer != inStream.buf
    requires |folder.coders| == 4 && ci < 2
    requires SlotsApartFrom(tempBuf, inStream.buf)
    requires Decode2Progress(folder, packSizes, inStream.realStream.data, startPos, codecs, ci, init, outBuffer,
                             tempBuf, tempStart3, tempSize3)
    modifies inStream, inStream.buf, inStream.realStream, tempBuf, alloc
    ensures inStream.Valid()
    ensures old(Slots(tempBuf[..])) <= Slots(tempBuf[..])
    ensures forall i | 0 <= i < tempBuf.Length && tempBuf[i] != old(tempBuf[i]) ::
      tempBuf[i].Some? && fresh(tempBuf[i].value)
    ensures alloc.live == old(alloc.live) + (Slots(tempBuf[..]) - old(Slots(tempBuf[..])))
    ensures res == SZ_OK ==>
      Decode2Progress(folder, packSizes, inStream.realStream.data, startPos, codecs, ci + 1, init, outBuffer,
                      tempBuf, tempStart3, tempSize3)
    ensures res != SZ_OK ==>
      res == FolderDecodeOutcome(folder, packSizes, inStream.realStream.data, startPos, init, codecs).res
  {
    ghost var data := inStream.realStream.data;
    ghost var t0, t1 := SlotBytes(tempBuf[0]), SlotBytes(tempBuf[1]);
    ghost var before := tempBuf[..];
    assert Progress(folder, packSizes, data, startPos, codecs, ci, init, outBuffer[..], t0, t1, None,
                    tempStart3, tempSize3);
    res := DecodeToSlot(folder, packSizes, ci, inStream, startPos, alloc, tempBuf, codecs);
    if tempBuf[1 - ci].Some? {
      assert tempBuf[..] == before[1 - ci := tempBuf[1 - ci]];
      SlotsFill(before, 1 - ci, tempBuf[1 - ci].value);
    } else {
      assert tempBuf[..] == before;
    }
    ProgressMainToTempStep(folder, packSizes, data, startPos, codecs, ci, init, outBuffer[..], t0, t1,
                           tempStart3, tempSize3, res, SlotBytes(tempBuf[1 - ci]));
    if res == SZ_OK {
      assert SlotBytes(tempBuf[ci]) == if ci == 0 then t0 else t1;
    }
  }

  /** The work of MainToTemp: coder ci (0 or 1) of a BCJ2 folder decodes
      into a new buffer in slot 1 - ci, unless its unpack size does not fit
      SizeT. */
  method DecodeToSlot(folder: Folder, packSizes: seq<nat>, ci: nat, inStream: LookToRead, startPos: nat,
                      alloc: Allocator, tempBuf: array<Option<array<byte>>>, codecs: CodecSet) returns (res: SRes)
    requires inStream.Valid()
    requires IsBcj2Folder(folder) && |packSizes| >= 4 && |folder.unpackSizes| >= 4 && ci < 2
    requires tempBuf.Length == 3 && tempBuf[1 - ci] == None
    modifies inStream, inStream.buf, inStream.realStream, tempBuf, alloc
    ensures inStream.Valid()
    ensures var s := Bcj2TempStage(folder, packSizes, inStream.realStream.data, startPos, ci, codecs);
      res == (if !FitsSizeT(folder.unpackSizes[ci]) then SZ_ERROR_MEM else s.res) &&
      (res == SZ_OK ==> SlotBytes(tempBuf[1 - ci]) == Some(s.out))
    ensures tempBuf[..] == old(tempBuf[..])[1 - ci := tempBuf[1 - ci]]
    ensures tempBuf[1 - ci].Some? ==>
      fresh(tempBuf[1 - ci].value) && alloc.live == old(alloc.live) + {tempBuf[1 - ci].value}
    ensures tempBuf[1 - ci].None? ==> alloc.live == old(alloc.live)
  {
    var unpackSize := folder.unpackSizes[ci];
    var outSizeCur := unpackSize % SIZE_T_LIMIT;
    if outSizeCur != unpackSize {
      return SZ_ERROR_MEM;
    }
    var temp := alloc.Alloc(outSizeCur);
    tempBuf[1 - ci] := Some(temp);
    res := DecodeIntoTemp(folder, packSizes, ci, inStream, startPos, temp, codecs);
  }

  /** The decoding half of DecodeToSlot: coder ci (0 or 1) of a BCJ2 folder
      decodes its pack stream over a new, zero-filled buffer of its unpack
      size. */
  method DecodeIntoTemp(folder: Folder, packSizes: seq<nat>, ci: nat, inStream: LookToRead, startPos: nat,
                        temp: array<byte>, codecs: CodecSet) returns (res: SRes)
    requires inStream.Valid()
    requires temp != inStream.buf
    requires IsBcj2Folder(folder) && |packSizes| >= 4 && |folder.unpackSizes| >= 4 && ci < 2
    requires temp.Length == folder.unpackSizes[ci] && temp[..] == Zeros(temp.Length)
    modifies inStream, inStream.buf, inStream.realStream, temp
    ensures inStream.Valid()
    ensures var s := Bcj2TempStage(folder, packSizes, inStream.realStream.data, startPos, ci, codecs);
      res == s.res && (res == SZ_OK ==> temp[..] == s.out)
  {
    var si := [3, 2, 0][ci];
    assert temp[0..temp.Length] == temp[..];
    res := SeekAndDecode(folder.coders[ci], packSizes, si, inStream, startPos, temp, 0, temp.Length, codecs);
    assert temp[..] == temp[0..temp.Length];
  }

  /** MainBranch for coder 2 of a BCJ2 folder: refuses an unpack size larger
      than the output buffer and decodes the coder's pack stream into the
      buffer's tail, which becomes tempBuf3. */
  method MainToTail(folder: Folder, packSizes: seq<nat>, ci: nat, inStream: LookToRead, startPos: nat,
                    outBuffer: array<byte>, tempBuf: array<Option<array<byte>>>, codecs: CodecSet,
                    tempStart3: nat, tempSize3: nat, ghost init: seq<byte>)
    returns (res: SRes, nextStart3: nat, nextSize3: nat)
    requires inStream.Valid()
    requires outBuffer != inStream.buf
    requires |folder.coders| == 4 && 2 <= ci < 4
    requires IsMainMethod(folder.coders[ci].methodId % UINT32_LIMIT)
    requires Decode2Progress(folder, packSizes, inStream.realStream.data, startPos, codecs, ci, init, outBuffer,
                             tempBuf, tempStart3, tempSize3)
    requires SlotsApartFrom(tempBuf, inStream.buf) && SlotsApartFrom(tempBuf, outBuffer)
    modifies inStream, inStream.buf, inStream.realStream, outBuffer
    ensures inStream.Valid()
    ensures res == SZ_OK ==>
      Decode2Progress(folder, packSizes, inStream.realStream.data, startPos, codecs, ci + 1, init, outBuffer,
                      tempBuf, nextStart3, nextSize3)
    ensures res != SZ_OK ==>
      res == FolderDecodeOutcome(folder, packSizes, inStream.realStream.data, startPos, init, codecs).res
  {
    assert ci == 2;
    ghost var data := inStream.realStream.data;
    ghost var out := outBuffer[..];
    ghost var t0, t1 := SlotBytes(tempBuf[0]), SlotBytes(tempBuf[1]);
    assert Progress(folder, packSizes, data, startPos, codecs, 2, init, out, t0, t1, None, tempStart3, tempSize3);
    assert out == init;
    Bcj2FolderOutcomeAtTailStage(folder, packSizes, data, startPos, init, codecs);
    res, nextStart3, nextSize3 := DecodeToTail(folder, packSizes, inStream, startPos, outBuffer, codecs);
    if res == SZ_OK {
      ProgressMainToTail(folder, packSizes, data, startPos, codecs, init, out, outBuffer[..], t0, t1,
                         tempStart3, tempSize3);
      assert SlotBytes(tempBuf[0]) == t0 && SlotBytes(tempBuf[1]) == t1;
    } else {
      nextStart3, nextSize3 := tempStart3, tempSize3;
    }
  }

  /** The work of MainToTail: coder 2 of a BCJ2 folder decodes over the last
      UnpackSizes[2] bytes of the output buffer, unless it declares more
      bytes than the buffer holds. */
  method DecodeToTail(folder: Folder, packSizes: seq<nat>, inStream: LookToRead, startPos: nat,
                      outBuffer: array<byte>, codecs: CodecSet) returns (res: SRes, start3: nat, size3: nat)
    requires inStream.Valid()
    requires outBuffer != inStream.buf
    requires IsBcj2Folder(folder) && |packSizes| >= 4 && |folder.unpackSizes| >= 4
    modifies inStream, inStream.buf, inStream.realStream, outBuffer
    ensures inStream.Valid()
    ensures folder.unpackSizes[2] > outBuffer.Length ==> res == SZ_ERROR_PARAM
    ensures folder.unpackSizes[2] <= outBuffer.Length ==>
      var s := Bcj2TailStage(folder, packSizes, inStream.realStream.data, startPos, old(outBuffer[..]), codecs);
      res == s.res && (res == SZ_OK ==> outBuffer[outBuffer.Length - folder.unpackSizes[2]..] == s.out)
    ensures res == SZ_OK ==> start3 == outBuffer.Length - folder.unpackSizes[2] && size3 == folder.unpackSizes[2]
  {
    var unpackSize := folder.unpackSizes[2];
    var si := [3, 2, 0][2];
    if unpackSize > outBuffer.Length {
      return SZ_ERROR_PARAM, 0, 0;
    }
    start3 := outBuffer.Length - unpackSize;
    size3 := unpackSize;
    assert outBuffer[start3..start3 + unpackSize] == outBuffer[..][start3..];
    res := SeekAndDecode(folder.coders[2], packSizes, si, inStream, startPos, outBuffer, start3, unpackSize, codecs);
    assert outBuffer[start3..] == outBuffer[start3..start3 + unpackSize];
  }

  /** The BCJ2 coder of a BCJ2 folder: copies pack stream 1 raw into slot 2
      and recombines it with tempBuf3 and slots 0 and 1 into the whole
      output buffer. */
  method Bcj2Branch(folder: Folder, packSizes: seq<nat>, ci: nat, inStream: LookToRead, startPos: nat,
                    outBuffer: array<byte>, alloc: Allocator, tempBuf: array<Option<array<byte>>>,
                    codecs: CodecSet, tempStart3: nat, tempSize3: nat, ghost init: seq<byte>)
    returns (res: SRes, nextStart3: nat, nextSize3: nat)
    requires inStream.Valid()
    requires outBuffer != inStream.buf
    requires ci < |folder.coders|
    requires Decode2Progress(folder, packSizes, inStream.realStream.data, startPos, codecs, ci, init, outBuffer,
                             tempBuf, tempStart3, tempSize3)
    requires SlotsApartFrom(tempBuf, inStream.buf) && SlotsApartFrom(tempBuf, outBuffer)
    requires folder.coders[ci].methodId == K_BCJ2
    modifies inStream, inStream.buf, inStream.realStream, outBuffer, tempBuf, alloc
    ensures inStream.Valid()
    ensures old(Slots(tempBuf[..])) <= Slots(tempBuf[..])
    ensures forall i | 0 <= i < tempBuf.Length && tempBuf[i] != old(tempBuf[i]) ::
      tempBuf[i].Some? && fresh(tempBuf[i].value)
    ensures alloc.live == old(alloc.live) + (Slots(tempBuf[..]) - old(Slots(tempBuf[..])))
    ensures res == SZ_OK ==>
      Decode2Progress(folder, packSizes, inStream.realStream.data, startPos, codecs, ci + 1, init, outBuffer,
                      tempBuf, nextStart3, nextSize3)
    ensures res != SZ_OK ==>
      res == FolderDecodeOutcome(folder, packSizes, inStream.realStream.data, startPos, init, codecs).res
  {
    assert ci == 3 && IsBcj2Folder(folder);
    ghost var data := inStream.realStream.data;
    ghost var out := outBuffer[..];
    assert Progress(folder, packSizes, data, startPos, codecs, 3, init, out, SlotBytes(tempBuf[0]),
                    SlotBytes(tempBuf[1]), None, tempStart3, tempSize3);
    ProgressBcj2Shape(folder, packSizes, data, startPos, codecs, init, out, SlotBytes(tempBuf[0]),
                      SlotBytes(tempBuf[1]), tempStart3, tempSize3);
    ghost var t0, t1 := tempBuf[0].value[..], tempBuf[1].value[..];
    nextStart3, nextSize3 := tempStart3, tempSize3;
    res := Bcj2Step(packSizes, inStream, startPos, outBuffer, tempStart3, tempSize3, alloc, tempBuf,
                    codecs.bcj2);
    ProgressBcj2Step(folder, packSizes, data, startPos, codecs, init, out, outBuffer[..], t0, t1,
                     SlotBytes(tempBuf[2]), tempStart3, tempSize3, res);
    if res == SZ_OK {
      assert SlotBytes(tempBuf[0]) == Some(t0) && SlotBytes(tempBuf[1]) == Some(t1);
    }
  }

  /** The filter coder of a two-coder folder: converts the output buffer in
      place with BCJ (x86) or ARM. */
  method FilterBranch(folder: Folder, packSizes: seq<nat>, ci: nat, inStream: LookToRead, startPos: nat,
                      outBuffer: array<byte>, tempBuf: array<Option<array<byte>>>, codecs: CodecSet,
                      tempStart3: nat, tempSize3: nat, ghost init: seq<byte>) returns (res: SRes)
    requires inStream.Valid()
    requires ci < |folder.coders|
    requires Decode2Progress(folder, packSizes, inStream.realStream.data, startPos, codecs, ci, init, outBuffer,
                             tempBuf, tempStart3, tempSize3)
    requires !IsMainMethod(folder.coders[ci].methodId % UINT32_LIMIT) && folder.coders[ci].methodId != K_BCJ2
    modifies outBuffer
    ensures res == SZ_OK
    ensures Decode2Progress(folder, packSizes, inStream.realStream.data, startPos, codecs, ci + 1, init, outBuffer,
                            tempBuf, tempStart3, tempSize3)
  {
    assert IsSupportedTopology(folder);
    FilterCoderIsLast(folder, ci);
    ProgressFilter(folder, packSizes, inStream.realStream.data, startPos, codecs, init, outBuffer[..],
                   SlotBytes(tempBuf[0]), SlotBytes(tempBuf[1]), SlotBytes(tempBuf[2]), tempStart3, tempSize3);
    res := BranchFilterStep(folder.coders[ci].methodId, outBuffer, codecs);
  }

  /** SzFolder_Decode2: validates the folder, then runs its coders in order.
      It produces exactly FolderDecodeOutcome of what the output buffer held
      before; a rejected folder touches neither the stream nor any buffer;
      every temporary buffer it leaves in tempBuf is freshly allocated and
      still live. */
  method SzFolderDecode2(folder: Folder, packSizes: seq<nat>, inStream: LookToRead, startPos: nat,
                         outBuffer: array<byte>, alloc: Allocator, tempBuf: array<Option<array<byte>>>,
                         codecs: CodecSet) returns (res: SRes)
    requires inStream.Valid()
    requires outBuffer != inStream.buf
    requires |packSizes| >= |folder.packStreams| && |folder.unpackSizes| >= |folder.coders|
    requires tempBuf.Length == 3 && forall i | 0 <= i < 3 :: tempBuf[i] == None
    modifies inStream, inStream.buf, inStream.realStream, outBuffer, tempBuf, alloc
    ensures inStream.Valid()
    ensures var r := FolderDecodeOutcome(folder, packSizes, inStream.realStream.data, startPos,
                                         old(outBuffer[..]), codecs);
      res == r.res && (res == SZ_OK ==> outBuffer[..] == r.out)
    ensures CheckSupportedFolder(folder) != SZ_OK ==>
      unchanged(inStream, inStream.realStream, inStream.buf, outBuffer, tempBuf, alloc)
    ensures forall i | 0 <= i < 3 && tempBuf[i].Some? :: fresh(tempBuf[i].value)
    ensures alloc.live == old(alloc.live) + Slots(tempBuf[..])
  {
    res := CheckSupportedFolder(folder);
    if res != SZ_OK {
      return;
    }
    var tempSize3: nat := 0;
    var tempStart3: nat := 0;
    ghost var init := outBuffer[..];
    assert tempBuf[..] == [None, None, None];
    ProgressStart(folder, packSizes, inStream.realStream.data, startPos, codecs, init);
    for ci := 0 to |folder.coders|
      invariant inStream.Valid()
      invariant res == SZ_OK
      invariant forall i | 0 <= i < 3 && tempBuf[i].Some? :: fresh(tempBuf[i].value)
      invariant alloc.live == old(alloc.live) + Slots(tempBuf[..])
      invariant Decode2Progress(folder, packSizes, inStream.realStream.data, startPos, codecs, ci, init, outBuffer,
                                tempBuf, tempStart3, tempSize3)
    {
      res, tempStart3, tempSize3 := CoderStep(folder, packSizes, ci, inStream, startPos, outBuffer, alloc, tempBuf,
                                              codecs, tempStart3, tempSize3, init);
      if res != SZ_OK {
        return;
      }
    }
  }

  /** SzFolder_Decode: runs SzFolder_Decode2 with three empty temporary
      slots and frees whatever they hold afterwards, so that on every path,
      failing or not, no temporary buffer stays allocated. */
  method SzFolderDecode(folder: Folder, packSizes: seq<nat>, inStream: LookToRead, startPos: nat,
                        outBuffer: array<byte>, alloc: Allocator, codecs: CodecSet) returns (res: SRes)
    requires inStream.Valid()
    requires outBuffer != inStream.buf
    requires |packSizes| >= |folder.packStreams| && |folder.unpackSizes| >= |folder.coders|
    modifies inStream, inStream.buf, inStream.realStream, outBuffer, alloc
    ensures inStream.Valid()
    ensures var r := FolderDecodeOutcome(folder, packSizes, inStream.realStream.data, startPos,
                                         old(outBuffer[..]), codecs);
      res == r.res && (res == SZ_OK ==> outBuffer[..] == r.out)
    ensures CheckSupportedFolder(folder) != SZ_OK ==>
      unchanged(inStream, inStream.realStream, inStream.buf, outBuffer)
    ensures alloc.live == old(alloc.live)
  {
    var tempBuf := new Option<array<byte>>[3](_ => None);
    res := SzFolderDecode2(folder, packSizes, inStream, startPos, outBuffer, alloc, tempBuf, codecs);
    for i := 0 to 3
      invariant old(alloc.live) <= alloc.live <= old(alloc.live) + Slots(tempBuf[i..])
      modifies alloc
    {
      assert Slots(tempBuf[i..]) <= (if tempBuf[i].Some? then {tempBuf[i].value} else {}) + Slots(tempBuf[i + 1..]);
      alloc.Free(tempBuf[i]);
    }
  }
}
