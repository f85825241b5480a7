/** The codecs that 7zDec.c calls but does not contain: the LZMA and LZMA2
    decoders, the x86 and ARM branch converters and the BCJ2 decoder. Each
    is a function value whose type carries only what the codec guarantees
    about sizes. Also the end-of-stream acceptance tests that 7zDec.c
    applies to where the LZMA and LZMA2 decoders stopped. */
module Codecs {
  import opened SzTypes

  /** What a decoder reports: a result code and its output. */
  datatype DecodeOutcome = DecodeOutcome(res: SRes, out: seq<byte>)

  /** Where an LZMA or LZMA2 decoder stopped once SzDecodeLzma's or
      SzDecodeLzma2's loop left it: its result code, the bytes it put at the
      front of the output buffer (dicPos of them), the status it last
      reported and how many of the bytes it last looked at it did not
      consume. */
  datatype DecoderRun = DecoderRun(res: SRes, written: seq<byte>, status: LzmaStatus, lookaheadLeft: nat)

  /** A decoder of one pack stream (LzmaDec, Lzma2Dec) run until the
      adapter's loop stops: given the coder's property blob, the packed
      bytes it may read and the dictionary size, it writes at most that many
      bytes. It may stop sooner, at an end marker or when the input runs
      out. */
  type PackDecoder = f: (seq<byte>, seq<byte>, nat) -> DecoderRun
    | forall props, packed, dicBufSize :: |f(props, packed, dicBufSize).written| <= dicBufSize
    witness (props: seq<byte>, packed: seq<byte>, dicBufSize: nat) => DecoderRun(SZ_ERROR_DATA, [], NotSpecified, 0)

  /** Bcj2_Decode (Bcj2.h:46-51): recombines the main stream, the call and
      jump streams and the range-coded control stream into outSize bytes,
      or reports SZ_ERROR_DATA. */
  type Bcj2Decoder = f: (seq<byte>, seq<byte>, seq<byte>, seq<byte>, nat) -> DecodeOutcome
    | forall b0, b1, b2, b3, outSize :: f(b0, b1, b2, b3, outSize).res == SZ_OK ==> |f(b0, b1, b2, b3, outSize).out| == outSize
    witness (b0: seq<byte>, b1: seq<byte>, b2: seq<byte>, b3: seq<byte>, outSize: nat) => DecodeOutcome(SZ_ERROR_DATA, [])

  /** What a branch converter leaves behind: the converted buffer, how many
      leading bytes it has finished with, and its carried automaton state. */
  datatype Converted = Converted(data: seq<byte>, processed: nat, state: nat)

  /** x86_Convert(data, size, ip, &state, decoding): converts in place, never
      reports more processed bytes than it was given. */
  type X86Converter = f: (seq<byte>, nat, nat) -> Converted
    | forall data, ip, state :: |f(data, ip, state).data| == |data| && f(data, ip, state).processed <= |data|
    witness (data: seq<byte>, ip: nat, state: nat) => Converted(data, 0, state)

  /** ARM_Convert(data, size, ip, decoding): the same contract, without a
      carried state. */
  type ArmConverter = f: (seq<byte>, nat) -> Converted
    | forall data, ip :: |f(data, ip).data| == |data| && f(data, ip).processed <= |data|
    witness (data: seq<byte>, ip: nat) => Converted(data, 0, 0)

  /** The codec implementations a decode call is linked against. */
  datatype CodecSet = CodecSet(
    lzma: PackDecoder,
    lzma2: PackDecoder,
    x86: X86Converter,
    arm: ArmConverter,
    bcj2: Bcj2Decoder)

  /** ELzmaStatus as LzmaDec_DecodeToDic reports it. */
  datatype LzmaStatus =
    | NotSpecified
    | FinishedWithMark
    | NotFinished
    | NeedsMoreInput
    | MaybeFinishedWithoutMark

  /** The LZMA end-state test: a stopped decode is good only if the
      dictionary size is the caller's output size, every looked-at byte was
      consumed and the decoder either saw the end marker or may have
      finished without one. How many bytes the decoder wrote is not part of
      the test. */
  function LzmaEndCheck(dicBufSize: nat, outSize: nat, lookaheadLeft: nat, status: LzmaStatus): (r: SRes)
    ensures r == SZ_OK || r == SZ_ERROR_DATA
    ensures r == SZ_OK <==>
      dicBufSize == outSize && lookaheadLeft == 0 && status in {FinishedWithMark, MaybeFinishedWithoutMark}
  {
    if dicBufSize != outSize || lookaheadLeft != 0 ||
       (status != FinishedWithMark && status != MaybeFinishedWithoutMark)
    then SZ_ERROR_DATA
    else SZ_OK
  }

  /** The LZMA2 end-state test: as for LZMA, but only an explicit end of
      stream is accepted. */
  function Lzma2EndCheck(dicBufSize: nat, outSize: nat, lookaheadLeft: nat, status: LzmaStatus): (r: SRes)
    ensures r == SZ_OK || r == SZ_ERROR_DATA
    ensures r == SZ_OK <==> dicBufSize == outSize && lookaheadLeft == 0 && status == FinishedWithMark
  {
    if dicBufSize != outSize || lookaheadLeft != 0 || status != FinishedWithMark
    then SZ_ERROR_DATA
    else SZ_OK
  }

  /** Every end state LZMA2 accepts, LZMA accepts too; LZMA alone also
      accepts a stream that may have finished without an end marker. */
  lemma Lzma2EndCheckIsStricter(dicBufSize: nat, outSize: nat, lookaheadLeft: nat, status: LzmaStatus)
    ensures Lzma2EndCheck(dicBufSize, outSize, lookaheadLeft, status) == SZ_OK ==>
      LzmaEndCheck(dicBufSize, outSize, lookaheadLeft, status) == SZ_OK
    ensures (LzmaEndCheck(dicBufSize, outSize, lookaheadLeft, status) == SZ_OK &&
             Lzma2EndCheck(dicBufSize, outSize, lookaheadLeft, status) != SZ_OK) ==>
      status == MaybeFinishedWithoutMark
  {
  }
}
