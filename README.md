# 7z folder decoder and output streams

A Dafny model of the extraction core of the zlib-like 7z extractor built on the
LZMA SDK. It covers two source files.

- `7zDec.c`:
  - the folder validator (`CheckSupportedFolder`), which accepts exactly three
    coder graphs: a single main coder, a main coder followed by a BCJ or ARM
    branch filter, and three main coders feeding BCJ2;
  - the pack-stream prefix sum `GetSum`;
  - the Copy decoder `SzDecodeCopy` and the LZMA and LZMA2 adapters, which
    apply their end-of-stream tests to where the decoder stopped;
  - `SzFolder_Decode2` and `SzFolder_Decode`, which run the coders of a folder
    in order and route their outputs through temporary buffers;
  - the chunked x86 (BCJ) filter step `DecodeBCJ` with its `BCJ_state`, and the
    `ApplyBCJ` loop that drives it;
  - `IsFilterPresent`.
- `7zStream.c`:
  - the `CLookToRead` look-ahead adapter and the read loops built on it;
  - `CountBytesToWrite`, which maps the folder's output offset to the file that
    owns the next bytes;
  - `WriteStream`, which splits a decoded buffer across the files of a folder;
  - `WriteTempStream` and `ReadTempStream`, which move a filter's input through
    the single temporary file;
  - `BaseName`.

## Modules

| module | what it holds |
|---|---|
| `SzTypes` (`sz_types.dfy`) | bytes, the SRes codes, the 32-bit SizeT and UInt32 limits, `Option` |
| `Folder` (`folder.dfy`) | coders, bind pairs, pack streams; `CheckSupportedFolder`; `GetSum` and the prefix-sum lemmas |
| `Codecs` (`codecs.dfy`) | the external codecs as function values; the LZMA and LZMA2 end-state tests |
| `LookStream` (`look_stream.dfy`) | the archive stream, `CLookToRead` as a class, the read loops |
| `Decode` (`decode.dfy`) | `SzDecodeCopy`, the main-coder dispatch, `SzFolder_Decode2` and `SzFolder_Decode` |
| `Bcj` (`bcj.dfy`) | one `DecodeBCJ` step, on values and in place; the `ApplyBCJ` run and its two `LastBuf` variants |
| `FileIo` (`file_io.dfy`) | the `IFileStream` sink, with an append-only log of calls |
| `OutStream` (`out_stream.dfy`) | `CountBytesToWrite`, `WriteStream`, `WriteTempStream`, `ReadTempStream`, `BaseName` |

## How the model is organised

**The reference definition of a folder decode.** `Decode.FolderDecodeOutcome` is
a function that says what decoding a folder yields: a result code and, on
`SZ_OK`, the output bytes. It is written from the coder graph: main coder, then
filter, or the three BCJ2 inputs and then BCJ2.

The imperative `SzFolderDecode2` walks the coders one at a time, as the C loop
does. Its loop keeps a progress invariant (`Decode2Progress`) stating what the
output buffer and the three temporary slots hold after each coder. It is proved
to return `FolderDecodeOutcome`'s code, and on success to leave exactly its
bytes in the output buffer. Every early return is proved to return the code the
reference definition gives.

**External codecs.** The LZMA and LZMA2 decoders, the x86 and ARM converters and
`Bcj2_Decode` are parameters (`Codecs.CodecSet`). A decoder run
(`Codecs.DecoderRun`) reports a result code, the bytes written at the front of
the dictionary (never more than its size), the status it stopped in, and how
much of its last look-ahead it left unconsumed. A converter keeps the length.
`Bcj2_Decode` receives the tail of the output buffer as its main input while it
writes into that same buffer. The model passes it the tail as it was before the
call. That is sound because the call meets the two overlap conditions stated in
Bcj2.h:37-39: the tail starts at or after the output buffer, and it ends where
the output buffer ends.

**Where a decoder stops.** The adapters make the dictionary exactly the output
region and then test the end state. The tests compare the dictionary size with
the output size, which are always equal here, but never compare how far the
decoder got with it. So a decoder that meets an end marker early, having
consumed all it looked at, is accepted with `SZ_OK`. The rest of the region
keeps what it held (`Decode.EarlyEndMarkerAccepted`,
`Decode.LzmaFolderKeepsUnwrittenTail`). The reference definition therefore
depends on what the output buffer held before the call, and so do the
contracts of `SzFolderDecode2` and `SzFolderDecode`.

**The file system.** The file system behind `IFileStream` is a class
(`FileIo.FileSink`):
- it keeps a log of every open, write, read and close;
- it holds the temporary file's contents;
- it takes the outcome of each call (whether an open or read succeeds, how many
  bytes a write accepts) from environment functions indexed by the call's
  position in the log.

Each writer in `OutStream` is proved against that log:
- `WriteStream`: the bytes handed to real files are a prefix of the buffer.
  `bytesWritten` advances only by the writes that completed in full: on
  `SZ_ERROR_WRITE` it leaves out the bytes that the short write did hand to the
  file. The current file is left open exactly when the folder offset is still
  inside it. Every error code is tied to the call that caused it.
- `WriteTempStream`: if the temporary file was already open, it ends up as what
  it held before followed by the buffer. If this call opens it, the open
  truncates it (CREATE_ALWAYS), and the file ends up as the buffer alone.
- `ReadTempStream`: hands back the next bytes of the temporary file.

**Integer widths.** SizeT is 32 bits wide, as in the Windows build this
extractor targets. Casts that may not survive are modelled as the source checks
them (`SZ_ERROR_MEM`). The BCJ address counter wraps modulo 2^32.

## Model

| member | source | states |
|---|---|---|
| `SzTypes.PutBytes` | 7zDec.c:235 | copying a view into the output buffer writes exactly that range and leaves every other byte as it was |
| `Folder.MainMethodsAreNotFilters` | 7zDec.c:243-256 | a main method (Copy, LZMA, LZMA2) is never BCJ, ARM or BCJ2 and fits in 32 bits, so the three branches of the coder loop are disjoint |
| `Folder.CheckSupportedFolder` | 7zDec.c:258-322 | the validator returns `SZ_OK` exactly for the three supported coder graphs and `SZ_ERROR_UNSUPPORTED` for every other folder, in particular for coder counts outside {1, 2, 4} and for a first coder that is not a main coder |
| `Folder.IsFilterPresent` | 7zDec.c:757-765 | on a valid folder the answer is true exactly for a BCJ2 folder or a BCJ (not ARM) filter folder; a true answer implies two or four coders |
| `Folder.Bcj2RoutingMatchesWiring` | 7zDec.c:360-362 | the pack stream the decoder picks for coder ci (indices 3, 2, 0) is the one that the validated wiring feeds into that coder, and each of the first three coders' output is bound to a BCJ2 input |
| `Folder.GetSum` | 7zDec.c:324-331 | the loop returns the sum of the first `index` pack sizes |
| `Folder.SumMonotone` | 7zDec.c:324-331 | the prefix sum never decreases as the index grows |
| `Folder.PackStreamsDisjoint` | 7zDec.c:385-386 | pack stream i ends at or before the offset where a later pack stream j starts, so the decoder's reads never overlap |
| `Folder.PackStreamWithinTotal` | 7zDec.c:385-386 | every pack stream lies within the total of all pack sizes |
| `Codecs.LzmaEndCheck` | 7zDec.c:157-163 | the LZMA end test is `SZ_OK` exactly when the dictionary size equals the output size, nothing looked at is left unconsumed, and the status is finished-with-mark or maybe-finished-without-mark; otherwise `SZ_ERROR_DATA`. It does not test how far the decoder got |
| `Codecs.Lzma2EndCheck` | 7zDec.c:207-211 | the LZMA2 end test is `SZ_OK` exactly when the dictionary size equals the output size, nothing looked at is left unconsumed, and the status is finished-with-mark; otherwise `SZ_ERROR_DATA` |
| `Codecs.Lzma2EndCheckIsStricter` | 7zDec.c:207-211 | every end state LZMA2 accepts is accepted by LZMA, and the only extra state LZMA accepts is maybe-finished-without-mark |
| `LookStream.SeekInStream.constructor` | 7zFile.c:268-272 | the archive stream starts at position 0 over the given bytes |
| `LookStream.SeekInStream.Read` | 7zFile.c:256-260 | a read returns the next bytes from the cursor, as many as requested and as remain, and advances the cursor by that many |
| `LookStream.SeekInStream.Seek` | 7zFile.c:262-266 | a seek sets the cursor to the given offset |
| `LookStream.LookToRead.BufferedIsUpcoming` | 7zStream.c:115-127 | the unconsumed bytes of the adapter's buffer are the next bytes of the file at the logical position |
| `LookStream.LookToRead.constructor` | 7zStream.c:136-149 | a new adapter has an empty buffer, so its logical position is the real stream's cursor |
| `LookStream.LookToRead.Refill` | 7zStream.c:76-82 | refilling an exhausted buffer reads up to the wanted count from the real stream without moving the logical position |
| `LookStream.LookToRead.LookLookahead` | 7zStream.c:71-87 | Look_Lookahead refills a full buffer only when the buffer is exhausted and something is asked for; the view is the next bytes of the file, never more than asked for, and non-empty whenever something is asked for and the file has more |
| `LookStream.LookToRead.LookExact` | 7zStream.c:89-106 | Look_Exact behaves the same but refills only as many bytes as asked for (at most the buffer size) |
| `LookStream.LookToRead.Look` | 7zStream.c:136-140 | the look chosen at construction returns a prefix of what comes next, at most the request, non-empty when possible, and does not consume anything |
| `LookStream.LookToRead.Skip` | 7zStream.c:108-113 | skipping at most the looked-at bytes advances the logical position by exactly that many |
| `LookStream.LookToRead.Read` | 7zStream.c:115-127 | a read returns a prefix of what comes next, from the buffer if it holds anything and from the real stream otherwise, and consumes exactly what it returns |
| `LookStream.LookToRead.ReadDirect` | 7zStream.c:119-120 | with an empty buffer, the read goes straight to the real stream |
| `LookStream.LookToRead.ReadBuffered` | 7zStream.c:121-126 | with a non-empty buffer, the read returns the smaller of the request and what is buffered |
| `LookStream.LookToRead.Seek` | 7zStream.c:129-134 | a seek empties the buffer and moves the logical position to the offset |
| `LookStream.SeekTo` | 7zStream.c:36-40 | after the seek the stream yields the file's bytes from the offset on |
| `LookStream.LookRead` | 7zStream.c:42-50 | look-then-skip returns a prefix of what comes next and consumes exactly it |
| `LookStream.LookInStreamRead2` | 7zStream.c:52-64 | the loop returns `SZ_OK` with exactly the requested bytes when the stream has them, and otherwise the caller's error code with everything that was left |
| `LookStream.LookInStreamRead` | 7zStream.c:66-69 | `SZ_OK` exactly when enough bytes remain, otherwise `SZ_ERROR_INPUT_EOF` |
| `LookStream.SeqInStreamRead2` | 7zStream.c:10-22 | the same loop over a sequential stream: success with the requested bytes, or the caller's error code with all remaining bytes |
| `LookStream.SeqInStreamRead` | 7zStream.c:24-27 | `SZ_OK` exactly when enough bytes remain, otherwise `SZ_ERROR_INPUT_EOF` |
| `LookStream.SeqInStreamReadByte` | 7zStream.c:29-34 | one byte and `SZ_OK` when the stream is not at its end; otherwise `SZ_ERROR_INPUT_EOF` and nothing consumed |
| `Decode.Allocator.Alloc` | 7zDec.c:369-371 | an allocation yields a fresh, zero-filled block of the requested size and records it as live |
| `Decode.Allocator.Free` | 7zDec.c:467-468 | freeing a block removes it from the live set; freeing NULL does nothing |
| `Decode.SzDecodeCopy` | 7zDec.c:224-241 | `SZ_OK` exactly when the stream holds inSize more bytes; then those bytes are in the output and consumed. Otherwise `SZ_ERROR_INPUT_EOF`, with everything that was left copied. Nothing outside the target range changes |
| `Decode.CopyChunk` | 7zDec.c:229-238 | one iteration copies a non-empty look-ahead chunk and consumes it, or finds the stream exhausted, keeping the copied-so-far invariant |
| `Decode.CopiedMore` | 7zDec.c:235-237 | appending the next chunk to the output extends the copied prefix by exactly that chunk and leaves the rest of the buffer unchanged |
| `Decode.CopiedToEnd` | 7zDec.c:233-234 | when the look returns nothing, all the stream's remaining bytes are already in the output |
| `Decode.PackedWindow` | 7zDec.c:142-145 | what a decoder may read is a prefix of the pack stream at its offset, no longer than the pack size |
| `Decode.DecoderRunOutcome` | 7zDec.c:151-163 | the region holds what the decoder wrote followed by what it held before. The result is `SZ_OK` exactly when the decoder returned `SZ_OK`, left nothing looked at unconsumed and stopped with the end mark (LZMA also accepts maybe-without-mark). A decoder error is passed on, and a refused end state is `SZ_ERROR_DATA` |
| `Decode.EarlyEndMarkerAccepted` | 7zDec.c:157-163 | a decoder that stops at an end marker before the region is full, having consumed all it looked at, is accepted with `SZ_OK`, and the region past what it wrote keeps what it held |
| `Decode.MainCoderOutcome` | 7zDec.c:387-409 | Copy succeeds exactly when the pack and unpack sizes agree and the stream has that many bytes, and then yields those bytes; a size mismatch is `SZ_ERROR_DATA`. LZMA and LZMA2 yield the decoder's bytes over the front of the region and the rest as it was, and succeed exactly when the end test accepts where the decoder stopped. LZMA2 with a property blob other than one byte is `SZ_ERROR_DATA`; a non-main method is `SZ_ERROR_UNSUPPORTED`; any success yields exactly the region's size |
| `Decode.SzDecodeLzma` | 7zDec.c:127-173 | the LZMA decoder runs with the target range as its dictionary; afterwards the range holds what it wrote followed by what the range held before, whether the call succeeds or fails, and the result is the end test's verdict on where it stopped. Nothing outside the target range changes |
| `Decode.SzDecodeLzma2` | 7zDec.c:175-222 | a property blob other than one byte is `SZ_ERROR_DATA` before decoding, with the buffer unchanged; otherwise as for LZMA with the LZMA2 decoder and its end test |
| `Decode.DecodeMainCoder` | 7zDec.c:389-409 | the dispatch gives the main coder's reference outcome; a Copy size mismatch touches neither the stream nor the buffer |
| `Decode.DecodeCopyCoder` | 7zDec.c:389-394 | the Copy branch gives the Copy coder's reference outcome |
| `Decode.BranchConvert` | 7zDec.c:441-453 | the in-place branch filters keep the buffer's length |
| `Decode.Bcj2Stage` | 7zDec.c:358-381 | a successful BCJ2 input stage yields exactly as many bytes as the region it decodes over |
| `Decode.Bcj2TempStage` | 7zDec.c:363-373 | coders 0 and 1 decode over a new block of their unpack size, and a success yields exactly that many bytes |
| `Decode.Bcj2TailStage` | 7zDec.c:375-381 | coder 2 decodes over the last UnpackSizes[2] bytes of the output buffer as they were, and a success yields exactly that many bytes |
| `Decode.Bcj2FolderOutcome` | 7zDec.c:358-436 | a successful BCJ2 folder decode yields exactly the output size, and success implies the size casts and the tail-placement check passed |
| `Decode.FolderDecodeOutcome` | 7zDec.c:335-457 | success implies a supported coder graph and exactly as many bytes as the output buffer holds; an unsupported folder is `SZ_ERROR_UNSUPPORTED` |
| `Decode.LzmaFolderKeepsUnwrittenTail` | 7zDec.c:395-398 | a one-coder LZMA folder whose decoder stops early at an end marker, having consumed all it looked at, decodes with `SZ_OK`: the output starts with the decoded bytes and the rest of the buffer keeps what it held |
| `Decode.CopyFolderYieldsPackBytes` | 7zDec.c:389-394 | a single Copy folder succeeds exactly when its pack size equals the output size and the archive holds that many bytes at the start position, and then yields those bytes |
| `Decode.BranchFilterFolderConverts` | 7zDec.c:437-454 | a filter folder has its main coder's result code, and on success its output is that coder's output run through the branch converter |
| `Decode.SlotsFill` | 7zDec.c:372 | storing a block in an empty temporary slot adds exactly that block to the held set |
| `Decode.SeekAndDecode` | 7zDec.c:385-409 | seeking to the pack stream's offset and decoding gives the main coder's reference outcome for that pack stream |
| `Decode.CopyRawStream` | 7zDec.c:414-427 | BCJ2's control stream: too large for SizeT is `SZ_ERROR_MEM`, short is `SZ_ERROR_INPUT_EOF`, otherwise slot 2 holds exactly that stream's bytes; only slot 2 changes and allocation is tracked |
| `Decode.CopyIntoNewBlock` | 7zDec.c:423-426 | a fresh block of the stream's size, filled with its bytes when the stream has them, and otherwise `SZ_ERROR_INPUT_EOF` |
| `Decode.Bcj2Step` | 7zDec.c:412-436 | the BCJ2 branch returns the size-cast error, the EOF error or the BCJ2 decoder's result on the tail, the two temporary streams and the control stream, and on success the output buffer is the decoder's output |
| `Decode.BranchFilterStep` | 7zDec.c:441-453 | BCJ and ARM convert the whole buffer in place and return `SZ_OK`; any other method is `SZ_ERROR_UNSUPPORTED` and leaves the buffer alone |
| `Decode.Bcj2FolderOutcomeLastStep` | 7zDec.c:429-435 | once the three input stages have succeeded, the folder's outcome is decided by the control stream and the BCJ2 decoder |
| `Decode.FolderDecodeOutcomeOfBcj2` | 7zDec.c:358-436 | for a BCJ2 folder the reference outcome is the BCJ2 pipeline's |
| `Decode.Bcj2FolderOutcomeAtTempStage` | 7zDec.c:363-373 | if coder 0's or 1's size does not fit SizeT, the folder's outcome is `SZ_ERROR_MEM`; if it fits and the coder fails, the folder fails with the coder's code |
| `Decode.Bcj2FolderOutcomeAtTailStage` | 7zDec.c:375-381 | if coder 2's size exceeds the output buffer, the folder's outcome is `SZ_ERROR_PARAM`; if it fits and the coder fails, the folder fails with the coder's code |
| `Decode.ProgressStart` | 7zDec.c:345-347 | a supported folder starts the coder loop in the initial progress state |
| `Decode.ProgressMainToOutput` | 7zDec.c:351-411 | decoding a non-BCJ2 main coder into the output buffer either advances progress with its output or fails with the folder's reference code |
| `Decode.FirstCoderDecides` | 7zDec.c:347-411 | a single-coder folder has its coder's outcome, and so has a filter folder whose main coder fails |
| `Decode.ProgressMainToTemp` | 7zDec.c:363-374 | a successful first or second BCJ2 input stage fills temporary slot 1 - ci with its output |
| `Decode.ProgressMainToTempStep` | 7zDec.c:363-374 | after a first or second BCJ2 stage, progress advances with the slot filled, or the result is the folder's reference code |
| `Decode.ProgressMainToTail` | 7zDec.c:375-381 | the third BCJ2 input stage is decoded into the tail of the output buffer, and progress records that tail's position and size |
| `Decode.FilterCoderIsLast` | 7zDec.c:437-440 | in a valid folder a coder that is neither main nor BCJ2 is the second of two, so the `ci != 1` rejection never fires |
| `Decode.ProgressFilter` | 7zDec.c:441-453 | after the main coder of a filter folder, applying the filter reaches the state whose output is the converted buffer |
| `Decode.ProgressBcj2` | 7zDec.c:429-434 | with the three inputs decoded, the reference outcome is the BCJ2 decoder applied to the tail, the two slots and the control stream |
| `Decode.ProgressBcj2Shape` | 7zDec.c:412-418 | when the BCJ2 coder is reached, both temporary slots are filled and the tail lies within the output buffer |
| `Decode.ProgressBcj2Done` | 7zDec.c:429-435 | a BCJ2 decode that yields the reference output completes progress |
| `Decode.ProgressBcj2Step` | 7zDec.c:412-436 | the BCJ2 step either completes progress with the decoder's output or fails with the folder's reference code |
| `Decode.CoderStep` | 7zDec.c:349-455 | one iteration of the coder loop either advances the progress invariant or returns the folder's reference code; new temporary blocks are fresh and tracked as live |
| `Decode.MainBranch` | 7zDec.c:351-411 | the main-coder branch, routed by coder count and index, advances progress or returns the reference code |
| `Decode.MainToOutput` | 7zDec.c:356-409 | a main coder of a one- or two-coder folder decodes its pack stream straight into the output buffer |
| `Decode.MainToTemp` | 7zDec.c:363-374 | a first or second BCJ2 input stage decodes into a newly allocated temporary block |
| `Decode.DecodeToSlot` | 7zDec.c:365-373 | a size that does not fit SizeT is `SZ_ERROR_MEM`; otherwise the slot is a fresh block that holds the stage's output on success; only that slot changes |
| `Decode.DecodeIntoTemp` | 7zDec.c:384-399 | decoding coder 0's or 1's pack stream over its new block gives that stage's reference result, and on success the block holds its output |
| `Decode.MainToTail` | 7zDec.c:375-381 | the third BCJ2 input stage decodes into the output buffer's tail and records where it is |
| `Decode.DecodeToTail` | 7zDec.c:375-381 | a tail larger than the output is `SZ_ERROR_PARAM`; otherwise the tail holds the stage's output on success, and its start and size are reported |
| `Decode.Bcj2Branch` | 7zDec.c:412-436 | the BCJ2 coder combines the four inputs into the output buffer, or returns the reference code |
| `Decode.FilterBranch` | 7zDec.c:437-454 | the filter coder of a valid folder always succeeds and advances progress |
| `Decode.SzFolderDecode2` | 7zDec.c:335-457 | the result is the reference outcome's code for what the output buffer held before the call, and on success the output buffer is its output; an unsupported folder changes nothing; every temporary block is fresh and tracked as live |
| `Decode.SzFolderDecode` | 7zDec.c:459-470 | the same result and output, and every temporary block is freed again |
| `Bcj.Step` | 7zDec.c:538-565 | the converted window is as long as the retained bytes plus the new chunk (where the window sits in the buffer and what it holds is stated by `Bcj.DecodeBCJ`) |
| `Bcj.StepOutcome` | 7zDec.c:544-564 | the address advances by the processed count modulo 2^32. A tail longer than four bytes is `SZ_ERROR_MEM` reported as a count, with the old retained bytes kept. Otherwise the window splits into processed bytes and the new retained tail, and the step returns the processed count, or the whole window on the last call |
| `Bcj.StepConserves` | 7zDec.c:550-563 | in a successful step every byte taken in is either reported or retained, and at most four are retained |
| `Bcj.BcjState.constructor` | 7zDec.c:508-514 | a new state has address 0, converter state 0, an empty four-byte retain buffer and is flagged as first |
| `Bcj.BcjState.Retain` | 7zDec.c:558-559 | the retain buffer holds exactly the new tail; address and state stay |
| `Bcj.BcjState.Offset` | 7zDec.c:544 | the chunk's window starts at most four bytes in, and after the first buffer it starts exactly where the retained bytes fit in front of the chunk |
| `Bcj.DecodeBCJ` | 7zDec.c:538-565 | the step in place: the return value, the new size and the carried state are those of `Step` on the old state and chunk; the window is in the buffer at the offset; nothing before the offset or after the chunk changes |
| `Bcj.PlaceRetained` | 7zDec.c:544-550 | the retained bytes are placed directly in front of the chunk, and offset plus size is the chunk's end |
| `Bcj.ConvertWindow` | 7zDec.c:551-552 | the converter's output replaces the window, and the address advances by the processed count modulo 2^32 |
| `Bcj.StepMakesProgress` | 7zDec.c:551-563 | with a converter that leaves at most its look-ahead, a non-last step on a chunk longer than four bytes reports a positive count and conserves bytes |
| `Bcj.LastStepFlushes` | 7zDec.c:561-563 | with such a converter, the last step reports the whole window |
| `Bcj.ApplyBcjWritesAll` | 7zDec.c:793-818 | with `LastBuf` set once the window covers what remains, the run writes exactly the folder's size, given chunks longer than four bytes except the last |
| `Bcj.ApplyBcjWritesInOrder` | 7zDec.c:793-818 | under the same conditions, with a converter that keeps the bytes as they are, the run writes the retained bytes followed by every chunk, in order, each byte once |
| `Bcj.RunWithNothingLeft` | 7zDec.c:793 | when nothing is left to write the run writes all of it (nothing); when no chunk is left to read, what remains is exactly the retained bytes or everything was written |
| `Bcj.LastStepWritesAll` | 7zDec.c:812-816 | a run whose first chunk covers what remains writes it all in one step |
| `Bcj.StepKeepsRunInShape` | 7zDec.c:793-818 | a non-last step of the run writes something, no more than remains, and leaves a run with the same shape |
| `Bcj.RunEndsWithLastStep` | 7zDec.c:812-816 | a last step that reports everything that remains ends the run with all of it written |
| `Bcj.RunContinues` | 7zDec.c:812-818 | a step that writes part, followed by a run that writes the rest, writes everything |
| `Bcj.ApplyBcjRunWritesNoMore` | 7zDec.c:793-818 | for the `ApplyBCJ` loop (`Bcj.ApplyBcjRun`), with either setting of LastBuf: with a converter that leaves at most its four-byte look-ahead unprocessed, the bytes the loop writes never exceed the retained bytes plus the chunks read back |
| `Bcj.ApplyBcjAsWrittenDropsTail` | 7zDec.c:795-818 | as written, a folder of exactly one full read (1 MiB), whose next read returns nothing, is written without its last four bytes; with `LastBuf` set once the window covers the rest, it is written whole |
| `Bcj.ApplyBcjAsWrittenRereads` | 7zDec.c:795-818 | as written, an 8-byte folder whose one read is short is read again from its start, because `ReadTempStream` closes the temporary file after the short read and the next read reopens it at offset 0: the run writes the whole folder and then its first four bytes again. The loop goes on past the folder's end because the second step reports 8 bytes against a remaining total of 4, so the total wraps to 2^32 - 4 instead of reaching zero |
| `FileIo.FileSink.constructor` | 7zFile.c:369-376 | a new sink has no handles open, an empty temporary file and an empty log |
| `FileIo.FileSink.OpenOutFile` | 7zFile.c:291-300 | an open for writing logs one event. A real file cannot be opened without a name. A successful temporary open starts an empty file, and only the opened handle's state changes |
| `FileIo.FileSink.OpenInTempFile` | 7zFile.c:302-311 | an open for reading of the temporary file logs one event and, on success, starts reading at the beginning |
| `FileIo.FileSink.FileWrite` | 7zFile.c:313-322 | a write hands over a prefix of the data, as much as the environment accepts, and returns its length; only a temporary write changes the temporary file |
| `FileIo.FileSink.FileReadTemp` | 7zFile.c:323-331 | a successful read returns the next bytes of the temporary file and advances the read position by that many; a failed read is `SZ_ERROR_READ` and returns nothing |
| `FileIo.FileSink.FileClose` | 7zFile.c:332-342 | a close logs one event and releases only that handle |
| `OutStream.FolderBytesMonotone` | 7zStream.c:233 | the running sum of the folder's file sizes never decreases |
| `OutStream.SelectFromMeaning` | 7zStream.c:223-251 | the scan from any file on finds nothing exactly when the folder's output ends at or before the offset; otherwise it finds the folder file whose output range holds the offset, and counts the whole buffer if the buffer ends strictly inside that file and the bytes up to its end if not |
| `OutStream.CountBytesToWriteMeaning` | 7zStream.c:217-252 | as above from the first file. The selected file is never empty, the count never exceeds the buffer, and it is positive exactly when the buffer is non-empty |
| `OutStream.WriteState.constructor` | 7zStream.h:12-18 | a fresh write state: nothing written, file index 0, no file open |
| `OutStream.CountBytesToWrite` | 7zStream.c:217-252 | the loop returns the selection's count and records its file and fit flag; when nothing is selected it returns 0 and leaves both fields unchanged |
| `OutStream.FileNameOf` | 7zStream.c:271-277 | the name of entry index, or NULL when the index is past the last entry |
| `OutStream.ChunkAfterSilentCalls` | 7zStream.c:279-283 | calls that hand no bytes to a real file do not change what a chunk has written |
| `OutStream.ChunkFailedOpen` | 7zStream.c:176-179 | a failed open ends the chunk with `SZ_ERROR_FAIL` and nothing written |
| `OutStream.FlushToFile` | 7zStream.c:279-298 | one chunk opens the selected file if none is open, writes the counted bytes from the offset, closes the file unless the buffer fits in it, and reports `SZ_ERROR_FAIL` or `SZ_ERROR_WRITE` for the failing call |
| `OutStream.OpenHandsNothing` | 7zStream.c:281 | an open hands no bytes to a file |
| `OutStream.OpenIfClosed` | 7zStream.c:279-283 | the file is opened under its entry's name only when no file is open; success means it is open, failure is `SZ_ERROR_FAIL` with a failed open as the last call |
| `OutStream.WriteThenClose` | 7zStream.c:285-298 | a full write followed by a close when the buffer does not fit, or a short write, make up a chunk's outcome |
| `OutStream.WriteAndClose` | 7zStream.c:285-298 | the write and close part of a chunk, with the counter advanced only by a full write |
| `OutStream.WriteChunk` | 7zStream.c:186-192 | one write call on the real file: a short write is `SZ_ERROR_WRITE`, and the counter advances only on a full write |
| `OutStream.ProgressAfterPass` | 7zStream.c:263-299 | a successful pass that wrote something extends the written prefix of the buffer; a failing or empty pass ends the call with the outcome as stated |
| `OutStream.ProgressComplete` | 7zStream.c:263-301 | when the whole buffer is written the call ends with `SZ_OK` |
| `OutStream.WriteStream` | 7zStream.c:254-302 | NULL is `SZ_ERROR_DATA` and an empty buffer `SZ_OK`, with no calls. Otherwise the bytes handed to real files are a prefix of the buffer. `bytesWritten` advances only by the bytes of writes that completed in full: on `SZ_ERROR_WRITE` it leaves out the bytes that the write which fell short did hand to the file, since the counter is updated only after a full write. Once something is written, the current file stays open exactly when the folder offset is still inside it. The call ends with `SZ_OK` either with the whole buffer written or once no file of the folder is left (the bytes are dropped); any other result code comes from the call that failed |
| `OutStream.WritePass` | 7zStream.c:265-298 | one iteration of the outer loop: no selection ends the call with `SZ_OK`, otherwise one chunk is written to the selected file |
| `OutStream.SizeTAdvance` | 7zStream.c:292 | a SizeT counter advance is the sum below 2^32 and wraps to 0 at 2^32 |
| `OutStream.SizeTCounterReselectsFirstFile` | 7zStream.c:292 | were one write state handed more than 4 GiB, the 32-bit counter would send the byte after a 4 GiB first file to the first file again instead of the second |
| `OutStream.WriteTempStream` | 7zStream.c:305-332 | NULL is `SZ_ERROR_DATA` and an empty buffer `SZ_OK`, with no calls. On success the temporary file is the buffer appended to what it held, or the buffer alone when the call opened it. The file stays open unless this was the last buffer. A failed open is `SZ_ERROR_FAIL`; a short write is `SZ_ERROR_WRITE` with the file left open |
| `OutStream.ReadTempStream` | 7zStream.c:333-358 | NULL is `SZ_ERROR_DATA` and a zero size `SZ_OK`, with no calls. On success the buffer starts with the next bytes of the temporary file (from its start if the call opened it), the new size is their count, the rest of the buffer stays, and the file stays open exactly when the buffer was filled, and the read position advances by the new size. A failed open is `SZ_ERROR_FAIL`; a failed read is `SZ_ERROR_READ` with the file left open and the size unchanged |
| `OutStream.LastSeparatorBelow` | 7zStream.c:211 | the backward scan finds the last `\` or `/` before the bound, or reports that there is none |
| `OutStream.BaseName` | 7zStream.c:202-215 | the result is a suffix of the path. It is the whole path exactly when no separator appears at index 1 or later. Otherwise it starts right after the last separator and holds none |

## Left out

- I/O failures of the archive stream: `SeekInStream` models the archive file as bytes that never fail to read or seek, so the `RINOK` paths after `Look`, `Skip`, `Read` and `Seek` on it are not modelled.
- PPMd: this build leaves `_7ZIP_PPMD_SUPPPORT` undefined. `IS_MAIN_METHOD` has no PPMd case, and `SzDecodePpmd` and its `ReadByte` (7zDec.c:29-125) are compiled out.
- The LZMA, LZMA2, x86, ARM and BCJ2 codecs are not part of this model. They are function values: a decoder reports its result, the bytes it wrote (no more than the dictionary size), its status and the look-ahead it left; a converter keeps the length.
- The decoders' look-and-skip loops (7zDec.c:139-169, 189-218) are collapsed into one `DecoderRun` on the pack window, standing for the state in which the source loop exits.
- `Decode.Allocator.Alloc`: blocks are zero-filled, while `IAlloc_Alloc` returns indeterminate contents. This matters only for bytes that a decoder stopping early leaves unwritten in a BCJ2 temporary block.
- `OutStream.WriteStream`: the contract states the bytes handed to real files as one sequence, in order. It does not state which file receives each byte. `OutStream.FlushToFile` states that the file it opens is the selected entry's.
- `SzDecodeLzma` and `SzDecodeLzma2` do not say where they leave the stream. The caller always seeks before the next coder, so nothing depends on it.
- Allocation failure (`IAlloc_Alloc` returning NULL, 7zDec.c:369-371, 423-425) is not modelled: an allocation always succeeds.
- The to-file variants of the decoder (`SzDecodeLzmaToFileWithBuf`, `SzDecodeLzma2ToFileWithBuf`, `ApplyBCJ2`, `SzFolder_Decode2ToFile` and their buffer macros) are not part of this model, apart from the `ApplyBCJ` loop.
- `Bcj.ApplyBcjRun` models the `ApplyBCJ` loop on values. The chunks its `ReadTempStream` calls return are a parameter, and its output is the concatenation of what it hands to `WriteStream`; the two calls themselves are not chained to it.
- `Bcj.ApplyBcjRun` also stops when the chunks run out, which matches no exit of the source loop. The chunks stand for what the reads return, including a reread of the temporary file from its start, and are not derived from the file.
- `Bcj.ApplyBcjWritesInOrder` states which bytes the corrected loop writes only for a converter that keeps the bytes as they are. For a converter that rewrites branch targets, the model states how many bytes are written (`Bcj.ApplyBcjWritesAll`), not their values, because those depend on how the converter's output on one window relates to its output on the next.
- `Bcj.DecodeBCJ` requires that the retain buffer is empty while `FirstBuffer` is set. `ApplyBCJ`, the only caller, clears the flag before the first call.
- The prototype of `WriteStream` in 7zStream.h:34 has no `IFileStream` parameter. The model follows the definition in 7zStream.c:254.
- 64-bit sums (`GetSum`, the start position plus offset) are unbounded naturals; an archive whose pack sizes overflow 64 bits is not modelled.
- `OutStream.WriteStream`: `bytesWritten` is an unbounded counter in the model, not the 32-bit SizeT of 7zStream.h:5. The two agree while a write state has been handed less than 4 GiB (`OutStream.SizeTAdvance`). Every caller in 7zDec.c writes at most one folder's SizeT output size through one write state, so the wrap shown by `OutStream.SizeTCounterReselectsFirstFile` needs a caller that is not part of this model.
- `FileIo.FileSink.OpenOutFile`: an open while the same handle is live is excluded by a precondition. In the source the old handle would leak.
- `FileIo.FileSink` does not model real files' contents. Only the temporary file's contents are kept, because the extractor reads them back.
- `read_state_t` is not among the source files, so `OutStream.ReadState` keeps only the `fileOpened` flag that `ReadTempStream` uses.
- Progress output, the `wprintf` calls, file deletion and the `main` driver are not part of this model.

## Findings

| source | as written | input that shows it | evidently intended | confidence | as-written member | corrected member |
|---|---|---|---|---|---|---|
| 7zDec.c:795-818 | `ApplyBCJ` declares `LastBuf = False` and never sets it, so `DecodeBCJ` never flushes the retained tail on its own | a BCJ folder whose size is a multiple of the 1 MiB read size: every read is full, the read after the last one returns 0 bytes, the step over the retained bytes alone processes nothing, and the loop ends with the retained tail never written: whatever the converter kept back, up to four bytes (exactly four for `x86_Convert` on data without branch instructions, as in the lemma). (When the last read is short instead, `ReadTempStream` closes the file and the next read reopens it from its start, so the folder is read again and the remaining total wraps; see `Bcj.ApplyBcjAsWrittenRereads`.) | set `LastBuf` once the window holds everything that remains, so the tail is flushed and exactly the folder's size is written | not executed | `Bcj.ApplyBcjAsWrittenDropsTail` | `Bcj.ApplyBcjWritesAll` |
