/** The output side of 7zStream.c. A folder decodes to one byte stream that
    is the concatenation of its non-directory files, in file order;
    CountBytesToWrite finds the file the next buffered bytes belong to and
    how many of them it takes, and WriteStream drives the sink from that.
    WriteTempStream and ReadTempStream move a filter's input through the
    single temporary file. BaseName strips the directories from a path. */
module OutStream {
  import opened SzTypes
  import opened FileIo

  /** What the writer needs to know about an archive entry: the folder its
      data lives in (FileIndexToFolderIndexMap), whether it is a directory,
      its size and its name. */
  datatype FileEntry = FileEntry(folderIndex: nat, isDir: bool, size: nat, name: seq<char>)

  /** An entry whose bytes are part of the folder's output. */
  predicate Contributes(f: FileEntry, folderIndex: nat) {
    f.folderIndex == folderIndex && !f.isDir
  }

  /** How many of the folder's output bytes belong to the entries before
      index i: file k of the folder occupies the output range
      [FolderBytesBefore(k), FolderBytesBefore(k + 1)). */
  function FolderBytesBefore(files: seq<FileEntry>, folderIndex: nat, i: nat): nat
    requires i <= |files|
  {
    if i == 0 then 0
    else FolderBytesBefore(files, folderIndex, i - 1) + (if Contributes(files[i - 1], folderIndex) then files[i - 1].size else 0)
  }

  /** The folder's whole output size. */
  function FolderSize(files: seq<FileEntry>, folderIndex: nat): nat {
    FolderBytesBefore(files, folderIndex, |files|)
  }

  lemma {:induction false} FolderBytesMonotone(files: seq<FileEntry>, folderIndex: nat, i: nat, j: nat)
    requires i <= j <= |files|
    ensures FolderBytesBefore(files, folderIndex, i) <= FolderBytesBefore(files, folderIndex, j)
    decreases j - i
  {
    if i < j {
      FolderBytesMonotone(files, folderIndex, i, j - 1);
    }
  }

  /** What CountBytesToWrite decides: no file, or the file that gets the
      next `count` bytes and whether the buffer ends strictly inside it. */
  datatype Selection = NoFile | Selected(index: nat, count: nat, fits: bool)

  /** The scan of CountBytesToWrite from entry i on, where sum is the
      folder's byte count before entry i. */
  function SelectFrom(files: seq<FileEntry>, folderIndex: nat, start: nat, bufSize: nat, i: nat, sum: nat): Selection
    requires i <= |files|
    decreases |files| - i
  {
    if i == |files| then NoFile
    else if files[i].folderIndex != folderIndex || files[i].isDir then
      SelectFrom(files, folderIndex, start, bufSize, i + 1, sum)
    else
      var end := sum + files[i].size;
      if start < end then
        if end - (start + bufSize) > 0 then Selected(i, bufSize, true)
        else Selected(i, end - start, false)
      else SelectFrom(files, folderIndex, start, bufSize, i + 1, end)
  }

  /** The decision for a buffer of bufSize bytes when start bytes of the
      folder have been written. */
  function SelectFile(files: seq<FileEntry>, folderIndex: nat, start: nat, bufSize: nat): Selection {
    SelectFrom(files, folderIndex, start, bufSize, 0, 0)
  }

  lemma {:induction false} SelectFromMeaning(files: seq<FileEntry>, folderIndex: nat, start: nat, bufSize: nat, i: nat, sum: nat)
    requires i <= |files| && sum == FolderBytesBefore(files, folderIndex, i) && sum <= start
    ensures var r := SelectFrom(files, folderIndex, start, bufSize, i, sum);
      (r.NoFile? <==> FolderSize(files, folderIndex) <= start) &&
      (r.Selected? ==>
        r.index < |files| && Contributes(files[r.index], folderIndex) &&
        FolderBytesBefore(files, folderIndex, r.index) <= start < FolderBytesBefore(files, folderIndex, r.index + 1) &&
        (r.fits <==> start + bufSize < FolderBytesBefore(files, folderIndex, r.index + 1)) &&
        r.count == (if r.fits then bufSize else FolderBytesBefore(files, folderIndex, r.index + 1) - start))
    decreases |files| - i
  {
    if i == |files| {
      return;
    }
    var next := FolderBytesBefore(files, folderIndex, i + 1);
    if files[i].folderIndex != folderIndex || files[i].isDir {
      SelectFromMeaning(files, folderIndex, start, bufSize, i + 1, sum);
    } else if start < next {
      FolderBytesMonotone(files, folderIndex, i + 1, |files|);
    } else {
      SelectFromMeaning(files, folderIndex, start, bufSize, i + 1, next);
    }
  }

  /** What CountBytesToWrite's answer means. Nothing is selected exactly
      when the whole folder has been written. Otherwise the selected entry
      is a non-empty file of the folder whose output range contains the
      current offset; the count is the whole buffer when the buffer ends
      strictly inside that file, and otherwise the bytes up to the file's
      end; it is never more than the buffer and is positive for a
      non-empty buffer. */
  lemma CountBytesToWriteMeaning(files: seq<FileEntry>, folderIndex: nat, start: nat, bufSize: nat)
    ensures var r := SelectFile(files, folderIndex, start, bufSize);
      (r.NoFile? <==> FolderSize(files, folderIndex) <= start) &&
      (r.Selected? ==>
        r.index < |files| && Contributes(files[r.index], folderIndex) && files[r.index].size > 0 &&
        FolderBytesBefore(files, folderIndex, r.index) <= start < FolderBytesBefore(files, folderIndex, r.index + 1) &&
        r.count <= bufSize && (r.count > 0 <==> bufSize > 0) &&
        (r.fits <==> start + bufSize < FolderBytesBefore(files, folderIndex, r.index + 1)) &&
        (r.fits ==> r.count == bufSize) &&
        (!r.fits ==> start + r.count == FolderBytesBefore(files, folderIndex, r.index + 1)))
  {
    SelectFromMeaning(files, folderIndex, start, bufSize, 0, 0);
  }

  /** write_state_t: the folder's output offset, the file being written,
      whether its handle is open and whether the last buffer ended inside
      it. */
  class WriteState {
    var outSize: nat
    var bytesWritten: nat
    var fileToWriteIndex: nat
    var fileOpened: bool
    var fitsToOneFile: bool

    /** write_state_init. */
    constructor ()
      ensures outSize == 0 && bytesWritten == 0 && fileToWriteIndex == 0
      ensures !fitsToOneFile && !fileOpened
    {
      outSize := 0;
      bytesWritten := 0;
      fileToWriteIndex := 0;
      fitsToOneFile := false;
      fileOpened := false;
    }
  }

  /** read_state_t as ReadTempStream uses it. */
  class ReadState {
    var fileOpened: bool
  }

  /** CountBytesToWrite: walks the folder's non-directory files in index
      order, summing their sizes, up to the first one that ends after the
      current offset; records it and whether the buffer fits in it. */
  method CountBytesToWrite(folderIndex: nat, db: seq<FileEntry>, bufSize: nat, st: WriteState) returns (n: nat)
    modifies st`fileToWriteIndex, st`fitsToOneFile
    ensures var r := SelectFile(db, folderIndex, st.bytesWritten, bufSize);
      (r.NoFile? ==> n == 0 && st.fileToWriteIndex == old(st.fileToWriteIndex) && st.fitsToOneFile == old(st.fitsToOneFile)) &&
      (r.Selected? ==> n == r.count && st.fileToWriteIndex == r.index && st.fitsToOneFile == r.fits)
  {
    var startOffset := st.bytesWritten;
    var filesOffsetSums := 0;
    var i := 0;
    while i < |db|
      invariant i <= |db| && filesOffsetSums == FolderBytesBefore(db, folderIndex, i)
      invariant SelectFile(db, folderIndex, startOffset, bufSize) == SelectFrom(db, folderIndex, startOffset, bufSize, i, filesOffsetSums)
    {
      if db[i].folderIndex != folderIndex || db[i].isDir {
        i := i + 1;
        continue;
      }
      filesOffsetSums := filesOffsetSums + db[i].size;
      if startOffset < filesOffsetSums {
        var remForCurFile: int := filesOffsetSums - (startOffset + bufSize);
        st.fileToWriteIndex := i;
        if remForCurFile > 0 {
          st.fitsToOneFile := true;
          return bufSize;
        } else {
          st.fitsToOneFile := false;
          return filesOffsetSums - startOffset;
        }
      }
      i := i + 1;
    }
    return 0;
  }

  /** The search in WriteStream for the name of the file to write: the
      entry at that index, or NULL when there is none. */
  method FileNameOf(db: seq<FileEntry>, index: nat) returns (name: Option<seq<char>>)
    ensures name == if index < |db| then Some(db[index].name) else None
  {
    name := None;
    var i := 0;
    while i < |db|
      invariant i <= |db| && i <= index && name == None
    {
      if i == index {
        name := Some(db[i].name);
        break;
      }
      i := i + 1;
    }
  }

  lemma LogSuffixSplit(log0: seq<SinkEvent>, mid: seq<SinkEvent>, log: seq<SinkEvent>)
    requires |log0| <= |mid| <= |log| && log[..|mid|] == mid
    ensures log[|log0|..] == mid[|log0|..] + log[|mid|..]
  {
  }

  /** When the calls made since log0 handed over b[..offset] and the calls
      made since mid hand over the next bytes of b, the calls made since
      log0 hand over a longer prefix of b. */
  lemma PayloadGrows(log0: seq<SinkEvent>, mid: seq<SinkEvent>, log: seq<SinkEvent>, b: seq<byte>, offset: nat)
    requires |log0| <= |mid| <= |log| && log[..|mid|] == mid
    requires offset <= |b| && Payload(mid[|log0|..], false) == b[..offset]
    requires var w := Payload(log[|mid|..], false); offset + |w| <= |b| && w == b[offset..offset + |w|]
    ensures var w := Payload(log[|mid|..], false); Payload(log[|log0|..], false) == b[..offset + |w|]
  {
    LogSuffixSplit(log0, mid, log);
    PayloadConcat(mid[|log0|..], log[|mid|..], false);
    var w := Payload(log[|mid|..], false);
    assert b[..offset] + b[offset..offset + |w|] == b[..offset + |w|];
  }

  /** Appending one event to a log extends the payload of its new part. */
  lemma PayloadOfNewPart(log0: seq<SinkEvent>, log: seq<SinkEvent>, e: SinkEvent, isTemp: bool)
    requires |log0| <= |log|
    ensures Payload((log + [e])[|log0|..], isTemp) == Payload(log[|log0|..], isTemp) + Written(e, isTemp)
  {
    assert (log + [e])[|log0|..] == log[|log0|..] + [e];
    PayloadAppend(log[|log0|..], e, isTemp);
  }

  /** What handing `count` bytes of buf from offset on to the current file
      does, given the calls made on the sink (events, the tail of log) and
      the offset before (bw0) and after (bw): the bytes handed over are the
      next bytes of buf; on success all `count` of them, added to the offset,
      and the file stays open exactly when the buffer did not reach its end
      (fits). A failed open hands over nothing, and a short write hands over
      its bytes without adding them to the offset. */
  ghost predicate ChunkOutcome(buf: seq<byte>, offset: nat, count: nat, events: seq<SinkEvent>, log: seq<SinkEvent>,
                               bw0: nat, bw: nat, isOpen: bool, fits: bool, res: SRes)
  {
    var w := Payload(events, false);
    offset + |w| <= |buf| && w == buf[offset..offset + |w|] &&
    (res == SZ_OK ==> |w| == count && bw == bw0 + count && isOpen == fits) &&
    (res == SZ_ERROR_FAIL ==> w == [] && bw == bw0 && EndsWithFailedOpen(log)) &&
    (res == SZ_ERROR_WRITE ==> bw == bw0 && EndsWithShortWrite(log) && |w| == |log[|log| - 1].data|)
  }

  /** Calls that hand nothing to the real file do not change the outcome of
      the calls after them. */
  lemma ChunkAfterSilentCalls(buf: seq<byte>, offset: nat, count: nat, log0: seq<SinkEvent>, mid: seq<SinkEvent>,
                              log: seq<SinkEvent>, bw0: nat, bw: nat, isOpen: bool, fits: bool, res: SRes)
    requires |log0| <= |mid| <= |log| && log[..|mid|] == mid
    requires Payload(mid[|log0|..], false) == []
    requires ChunkOutcome(buf, offset, count, log[|mid|..], log, bw0, bw, isOpen, fits, res)
    ensures ChunkOutcome(buf, offset, count, log[|log0|..], log, bw0, bw, isOpen, fits, res)
  {
    LogSuffixSplit(log0, mid, log);
    PayloadConcat(mid[|log0|..], log[|mid|..], false);
  }

  /** A failed open that handed nothing over is SZ_ERROR_FAIL's outcome. */
  lemma ChunkFailedOpen(buf: seq<byte>, offset: nat, count: nat, events: seq<SinkEvent>, log: seq<SinkEvent>,
                        bw: nat, isOpen: bool, fits: bool)
    requires offset <= |buf| && Payload(events, false) == [] && EndsWithFailedOpen(log)
    ensures ChunkOutcome(buf, offset, count, events, log, bw, bw, isOpen, fits, SZ_ERROR_FAIL)
  {
  }

  /** The body of WriteStream's loop once a file has been selected: opens
      the file unless it is open already, writes `count` bytes of the buffer
      from `offset` on, adds them to the offset and closes the file when the
      buffer reached its end. */
  method FlushToFile(sink: FileSink, db: seq<FileEntry>, buf: seq<byte>, offset: nat, count: nat, st: WriteState)
    returns (res: SRes)
    requires sink.Valid() && st.fileOpened == sink.realOpen
    requires 0 < count && offset + count <= |buf| && st.fileToWriteIndex < |db|
    modifies sink, st`fileOpened, st`bytesWritten
    ensures sink.Valid() && st.fileOpened == sink.realOpen
    ensures |old(sink.log)| <= |sink.log| && sink.log[..|old(sink.log)|] == old(sink.log)
    ensures sink.tempOpen == old(sink.tempOpen) && sink.tempFile == old(sink.tempFile) && sink.tempReadPos == old(sink.tempReadPos)
    ensures !old(st.fileOpened) ==>
      |sink.log| > |old(sink.log)| && OpensRealFile(sink.log[|old(sink.log)|], db[st.fileToWriteIndex].name)
    ensures res == SZ_OK || res == SZ_ERROR_FAIL || res == SZ_ERROR_WRITE
    ensures ChunkOutcome(buf, offset, count, sink.log[|old(sink.log)|..], sink.log,
                         old(st.bytesWritten), st.bytesWritten, st.fileOpened, st.fitsToOneFile, res)
  {
    ghost var log0 := sink.log;
    res := OpenIfClosed(sink, db, st);
    if res != SZ_OK {
      ChunkFailedOpen(buf, offset, count, sink.log[|log0|..], sink.log, st.bytesWritten, st.fileOpened, st.fitsToOneFile);
      return;
    }
    ghost var mid := sink.log;
    res := WriteAndClose(sink, buf, offset, count, st);
    ChunkAfterSilentCalls(buf, offset, count, log0, mid, sink.log, old(st.bytesWritten), st.bytesWritten,
                          st.fileOpened, st.fitsToOneFile, res);
  }

  /** An open call hands no bytes to a file. */
  lemma OpenHandsNothing(log0: seq<SinkEvent>, log: seq<SinkEvent>)
    requires |log| == |log0| + 1 && log[|log0|].Open?
    ensures Payload(log[|log0|..], false) == []
  {
    assert log[|log0|..] == [log[|log0|]];
    PayloadAppend([], log[|log0|], false);
  }

  /** The first part of a pass of WriteStream's loop: looks up the selected
      file's name and opens it unless it is open already. */
  method OpenIfClosed(sink: FileSink, db: seq<FileEntry>, st: WriteState) returns (res: SRes)
    requires sink.Valid() && st.fileOpened == sink.realOpen && st.fileToWriteIndex < |db|
    modifies sink, st`fileOpened
    ensures sink.Valid() && st.fileOpened == sink.realOpen
    ensures sink.tempOpen == old(sink.tempOpen) && sink.tempFile == old(sink.tempFile) && sink.tempReadPos == old(sink.tempReadPos)
    ensures res == SZ_OK || res == SZ_ERROR_FAIL
    ensures res == SZ_OK <==> st.fileOpened
    ensures old(st.fileOpened) ==> sink.log == old(sink.log) && res == SZ_OK
    ensures !old(st.fileOpened) ==>
      |sink.log| == |old(sink.log)| + 1 && sink.log[..|old(sink.log)|] == old(sink.log) &&
      OpensRealFile(sink.log[|old(sink.log)|], db[st.fileToWriteIndex].name) &&
      (res == SZ_OK <==> sink.log[|old(sink.log)|].ok)
    ensures Payload(sink.log[|old(sink.log)|..], false) == []
    ensures res != SZ_OK ==> EndsWithFailedOpen(sink.log)
  {
    ghost var log0 := sink.log;
    var fileName := FileNameOf(db, st.fileToWriteIndex);
    res := SZ_OK;
    if !st.fileOpened {
      var failed := sink.OpenOutFile(fileName, false);
      OpenHandsNothing(log0, sink.log);
      if failed {
        return SZ_ERROR_FAIL;
      }
      st.fileOpened := true;
    } else {
      assert sink.log[|log0|..] == [];
    }
  }

  /** One write of buf[offset..offset + count], possibly followed by the
      close of the file, has ChunkOutcome's outcome. */
  lemma WriteThenClose(buf: seq<byte>, offset: nat, count: nat, log0: seq<SinkEvent>, log: seq<SinkEvent>,
                       bw0: nat, bw: nat, isOpen: bool, fits: bool, res: SRes, closed: bool)
    requires offset + count <= |buf|
    requires |log| == |log0| + 1 + (if closed then 1 else 0) && log[..|log0|] == log0
    requires var e := log[|log0|];
      e.Write? && !e.isTemp && e.requested == count && |e.data| <= count &&
      e.data == buf[offset..offset + count][..|e.data|] &&
      (res == SZ_OK <==> |e.data| == count) && (res == SZ_OK || res == SZ_ERROR_WRITE)
    requires bw == bw0 + (if res == SZ_OK then count else 0)
    requires closed ==> res == SZ_OK && log[|log0| + 1] == Close(false)
    requires res == SZ_OK ==> (isOpen == fits) && (closed == !fits)
    ensures ChunkOutcome(buf, offset, count, log[|log0|..], log, bw0, bw, isOpen, fits, res)
  {
    var e := log[|log0|];
    assert log[..|log0| + 1] == log0 + [e];
    PayloadOfNewPart(log0, log0, e, false);
    assert log0[|log0|..] == [];
    if closed {
      assert log == log[..|log0| + 1] + [Close(false)];
      PayloadOfNewPart(log0, log[..|log0| + 1], Close(false), false);
    } else {
      assert log == log0 + [e];
    }
  }

  /** The second part of a pass of WriteStream's loop: writes the bytes to
      the open file and closes it when the buffer reached the file's end. */
  method WriteAndClose(sink: FileSink, buf: seq<byte>, offset: nat, count: nat, st: WriteState) returns (res: SRes)
    requires sink.Valid() && sink.realOpen && st.fileOpened
    requires 0 < count && offset + count <= |buf|
    modifies sink, st`fileOpened, st`bytesWritten
    ensures sink.Valid() && st.fileOpened == sink.realOpen
    ensures |old(sink.log)| <= |sink.log| && sink.log[..|old(sink.log)|] == old(sink.log)
    ensures sink.tempOpen == old(sink.tempOpen) && sink.tempFile == old(sink.tempFile) && sink.tempReadPos == old(sink.tempReadPos)
    ensures res == SZ_OK || res == SZ_ERROR_WRITE
    ensures ChunkOutcome(buf, offset, count, sink.log[|old(sink.log)|..], sink.log,
                         old(st.bytesWritten), st.bytesWritten, st.fileOpened, st.fitsToOneFile, res)
  {
    ghost var log0 := sink.log;
    ghost var bw0 := st.bytesWritten;
    res := WriteChunk(sink, buf[offset..offset + count], st);
    var closed := false;
    if res == SZ_OK && !st.fitsToOneFile {
      sink.FileClose(false);
      st.fileOpened := false;
      closed := true;
    }
    WriteThenClose(buf, offset, count, log0, sink.log, bw0, st.bytesWritten, st.fileOpened, st.fitsToOneFile, res, closed);
  }

  /** The write loop of WriteStream for one file: hands the bytes to the
      open real file and adds them to the offset; a short write is
      SZ_ERROR_WRITE and leaves the offset as it was. */
  method WriteChunk(sink: FileSink, data: seq<byte>, st: WriteState) returns (res: SRes)
    requires sink.Valid() && sink.realOpen && |data| > 0
    modifies sink, st`bytesWritten
    ensures sink.Valid() && sink.realOpen
    ensures |sink.log| == |old(sink.log)| + 1 && sink.log[..|old(sink.log)|] == old(sink.log)
    ensures sink.tempOpen == old(sink.tempOpen) && sink.tempFile == old(sink.tempFile) && sink.tempReadPos == old(sink.tempReadPos)
    ensures var e := sink.log[|old(sink.log)|];
      e.Write? && !e.isTemp && e.requested == |data| && |e.data| <= |data| && e.data == data[..|e.data|] &&
      (res == SZ_OK <==> |e.data| == |data|) &&
      (res != SZ_OK ==> res == SZ_ERROR_WRITE)
    ensures st.bytesWritten == old(st.bytesWritten) + (if res == SZ_OK then |data| else 0)
  {
    res := SZ_OK;
    var bytesToWrite: nat := |data|;
    var offset: nat := 0;
    while bytesToWrite > 0
      invariant offset + bytesToWrite == |data|
      invariant bytesToWrite == |data| ==> sink.log == old(sink.log) && st.bytesWritten == old(st.bytesWritten)
      invariant bytesToWrite == 0 ==>
        sink.log == old(sink.log) + [Write(false, |data|, data)] && st.bytesWritten == old(st.bytesWritten) + |data|
      invariant bytesToWrite == |data| || bytesToWrite == 0
      invariant sink.Valid() && sink.realOpen
      invariant sink.tempOpen == old(sink.tempOpen) && sink.tempFile == old(sink.tempFile) && sink.tempReadPos == old(sink.tempReadPos)
    {
      assert data[offset..offset + bytesToWrite] == data;
      var bytesWritten := sink.FileWrite(data[offset..offset + bytesToWrite], false);
      if bytesWritten != bytesToWrite {
        return SZ_ERROR_WRITE;
      }
      bytesToWrite := bytesToWrite - bytesWritten;
      offset := offset + bytesWritten;
      st.bytesWritten := st.bytesWritten + bytesWritten;
    }
  }

  /** What WriteStream promises about a non-empty buffer b, given the
      calls it made on the sink (events, the tail of log) and the offset
      before (bw0) and after (bw). The bytes handed to the real files are a
      prefix of b, in order. On success the offset grows by exactly that
      many bytes, all of b is handed over unless the folder's files are
      already complete (the rest is then dropped), and the current file is
      left open exactly when the offset is still inside it. A failed open
      ends with SZ_ERROR_FAIL, a short write with SZ_ERROR_WRITE; the bytes
      of a short write are not added to the offset. */
  ghost predicate WriteOutcome(db: seq<FileEntry>, folderIndex: nat, b: seq<byte>, events: seq<SinkEvent>,
                               log: seq<SinkEvent>, bw0: nat, bw: nat, isOpen: bool, index: nat, res: SRes)
  {
    var w := Payload(events, false);
    |w| <= |b| && w == b[..|w|] &&
    (res == SZ_OK ==>
      bw == bw0 + |w| &&
      (|w| == |b| || FolderSize(db, folderIndex) <= bw) &&
      (|w| > 0 ==>
        index < |db| &&
        (isOpen <==> bw < FolderBytesBefore(db, folderIndex, index + 1)))) &&
    (res == SZ_ERROR_FAIL ==> bw == bw0 + |w| && EndsWithFailedOpen(log)) &&
    (res == SZ_ERROR_WRITE ==> EndsWithShortWrite(log) && bw + |log[|log| - 1].data| == bw0 + |w|)
  }

  /** WriteStream's loop invariant: b[..offset] has been handed over by the
      calls made so far and added to the offset, and once something was
      written the current file is open exactly when the offset is inside
      it. */
  ghost predicate WriteProgress(db: seq<FileEntry>, folderIndex: nat, b: seq<byte>, offset: nat, events: seq<SinkEvent>,
                                bw0: nat, bw: nat, isOpen: bool, index: nat)
  {
    offset <= |b| && Payload(events, false) == b[..offset] && bw == bw0 + offset &&
    (offset > 0 ==>
      index < |db| &&
      (isOpen <==> bw < FolderBytesBefore(db, folderIndex, index + 1)))
  }

  /** What one pass of WriteStream's loop does, from offset on: the bytes it
      hands over are the next bytes of b; a count of 0 means the folder's
      files are complete and nothing changed; a positive count n is handed
      over and added to the offset, and the current file is open exactly
      when the offset is inside it. */
  ghost predicate PassOutcome(db: seq<FileEntry>, folderIndex: nat, b: seq<byte>, offset: nat, events: seq<SinkEvent>,
                              log: seq<SinkEvent>, bw0: nat, bw: nat, isOpen0: bool, isOpen: bool,
                              index0: nat, index: nat, res: SRes, n: nat)
  {
    var w := Payload(events, false);
    offset + |w| <= |b| && w == b[offset..offset + |w|] &&
    (res == SZ_OK && n == 0 ==>
      w == [] && bw == bw0 && FolderSize(db, folderIndex) <= bw && isOpen == isOpen0 && index == index0) &&
    (res == SZ_OK && n > 0 ==>
      |w| == n && bw == bw0 + n && index < |db| &&
      (isOpen <==> bw < FolderBytesBefore(db, folderIndex, index + 1))) &&
    (res == SZ_ERROR_FAIL ==> w == [] && bw == bw0 && EndsWithFailedOpen(log)) &&
    (res == SZ_ERROR_WRITE ==> bw == bw0 && EndsWithShortWrite(log) && |w| == |log[|log| - 1].data|)
  }

  /** A pass that hands over more bytes extends the progress; any other
      pass ends WriteStream with its outcome. */
  lemma ProgressAfterPass(db: seq<FileEntry>, folderIndex: nat, b: seq<byte>, offset: nat,
                          log0: seq<SinkEvent>, mid: seq<SinkEvent>, log: seq<SinkEvent>,
                          bw0: nat, bwMid: nat, bw: nat, isOpenMid: bool, isOpen: bool,
                          indexMid: nat, index: nat, res: SRes, n: nat)
    requires |log0| <= |mid| <= |log| && log[..|mid|] == mid
    requires WriteProgress(db, folderIndex, b, offset, mid[|log0|..], bw0, bwMid, isOpenMid, indexMid)
    requires PassOutcome(db, folderIndex, b, offset, log[|mid|..], log, bwMid, bw, isOpenMid, isOpen, indexMid, index, res, n)
    ensures res == SZ_OK && n > 0 ==> WriteProgress(db, folderIndex, b, offset + n, log[|log0|..], bw0, bw, isOpen, index)
    ensures res != SZ_OK || n == 0 ==> WriteOutcome(db, folderIndex, b, log[|log0|..], log, bw0, bw, isOpen, index, res)
  {
    PayloadGrows(log0, mid, log, b, offset);
  }

  /** Progress over the whole buffer is a successful outcome. */
  lemma ProgressComplete(db: seq<FileEntry>, folderIndex: nat, b: seq<byte>, events: seq<SinkEvent>, log: seq<SinkEvent>,
                         bw0: nat, bw: nat, isOpen: bool, index: nat)
    requires WriteProgress(db, folderIndex, b, |b|, events, bw0, bw, isOpen, index)
    ensures WriteOutcome(db, folderIndex, b, events, log, bw0, bw, isOpen, index, SZ_OK)
  {
    assert b[..|b|] == b;
  }

  /** WriteStream: splits a decoded buffer across the folder's files; see
      WriteOutcome. A NULL buffer is SZ_ERROR_DATA and an empty one SZ_OK,
      both without any call on the sink. */
  method WriteStream(sink: FileSink, folderIndex: nat, db: seq<FileEntry>, buf: Option<seq<byte>>, st: WriteState)
    returns (res: SRes)
    requires sink.Valid() && st.fileOpened == sink.realOpen
    modifies sink, st
    ensures sink.Valid() && st.fileOpened == sink.realOpen
    ensures |old(sink.log)| <= |sink.log| && sink.log[..|old(sink.log)|] == old(sink.log)
    ensures sink.tempOpen == old(sink.tempOpen) && sink.tempFile == old(sink.tempFile) && sink.tempReadPos == old(sink.tempReadPos)
    ensures res == SZ_OK || res == SZ_ERROR_DATA || res == SZ_ERROR_FAIL || res == SZ_ERROR_WRITE
    ensures buf.None? ==> res == SZ_ERROR_DATA && sink.log == old(sink.log) && st.bytesWritten == old(st.bytesWritten)
    ensures buf == Some([]) ==> res == SZ_OK && sink.log == old(sink.log) && st.bytesWritten == old(st.bytesWritten)
    ensures buf.Some? && buf.value != [] ==>
      WriteOutcome(db, folderIndex, buf.value, sink.log[|old(sink.log)|..], sink.log,
                   old(st.bytesWritten), st.bytesWritten, st.fileOpened, st.fileToWriteIndex, res)
  {
    if buf.None? {
      return SZ_ERROR_DATA;
    }
    var b := buf.value;
    if |b| == 0 {
      return SZ_OK;
    }
    ghost var log0 := sink.log;
    ghost var bw0 := st.bytesWritten;
    res := SZ_OK;
    var offset: nat := 0;
    var bufSize: nat := |b|;
    assert log0[|log0|..] == [];
    while bufSize > 0
      invariant offset + bufSize == |b|
      invariant sink.Valid() && st.fileOpened == sink.realOpen
      invariant |log0| <= |sink.log| && sink.log[..|log0|] == log0
      invariant sink.tempOpen == old(sink.tempOpen) && sink.tempFile == old(sink.tempFile) && sink.tempReadPos == old(sink.tempReadPos)
      invariant WriteProgress(db, folderIndex, b, offset, sink.log[|log0|..], bw0, st.bytesWritten, st.fileOpened, st.fileToWriteIndex)
      invariant res == SZ_OK
    {
      ghost var mid := sink.log;
      ghost var bwMid := st.bytesWritten;
      ghost var isOpenMid := st.fileOpened;
      ghost var indexMid := st.fileToWriteIndex;
      var n;
      res, n := WritePass(sink, folderIndex, db, b, offset, st);
      ProgressAfterPass(db, folderIndex, b, offset, log0, mid, sink.log, bw0, bwMid, st.bytesWritten,
                        isOpenMid, st.fileOpened, indexMid, st.fileToWriteIndex, res, n);
      if res != SZ_OK || n == 0 {
        return;
      }
      offset := offset + n;
      bufSize := bufSize - n;
    }
    ProgressComplete(db, folderIndex, b, sink.log[|log0|..], sink.log, bw0, st.bytesWritten, st.fileOpened, st.fileToWriteIndex);
  }

  /** One pass of WriteStream's loop: asks CountBytesToWrite how many of
      the remaining bytes go to which file and hands them over. With no
      file left it returns SZ_OK and a count of 0 and writes nothing. */
  method WritePass(sink: FileSink, folderIndex: nat, db: seq<FileEntry>, b: seq<byte>, offset: nat, st: WriteState)
    returns (res: SRes, n: nat)
    requires sink.Valid() && st.fileOpened == sink.realOpen && offset < |b|
    modifies sink, st
    ensures sink.Valid() && st.fileOpened == sink.realOpen
    ensures |old(sink.log)| <= |sink.log| && sink.log[..|old(sink.log)|] == old(sink.log)
    ensures sink.tempOpen == old(sink.tempOpen) && sink.tempFile == old(sink.tempFile) && sink.tempReadPos == old(sink.tempReadPos)
    ensures res == SZ_OK || res == SZ_ERROR_FAIL || res == SZ_ERROR_WRITE
    ensures PassOutcome(db, folderIndex, b, offset, sink.log[|old(sink.log)|..], sink.log,
                        old(st.bytesWritten), st.bytesWritten, old(st.fileOpened), st.fileOpened,
                        old(st.fileToWriteIndex), st.fileToWriteIndex, res, n)
  {
    var bufSize := |b| - offset;
    n := CountBytesToWrite(folderIndex, db, bufSize, st);
    CountBytesToWriteMeaning(db, folderIndex, st.bytesWritten, bufSize);
    if n == 0 {
      assert sink.log[|old(sink.log)|..] == [];
      return SZ_OK, 0;
    }
    res := FlushToFile(sink, db, b, offset, n, st);
  }

  /** st->bytesWritten += n as the source has it, on a 32-bit SizeT. */
  function SizeTAdvance(bytesWritten: nat, n: nat): (r: nat)
    ensures r < SIZE_T_LIMIT
    ensures bytesWritten + n < SIZE_T_LIMIT ==> r == bytesWritten + n
    ensures bytesWritten + n == SIZE_T_LIMIT ==> r == 0
  {
    (bytesWritten + n) % SIZE_T_LIMIT
  }

  /** With a 32-bit counter, a folder whose first file is exactly 4 GiB
      long: once its last byte is written the counter is back at 0, so the
      next buffer, which belongs to the second file, is sent to the first
      file again, and reopening it recreates it empty. With the offset kept
      in full, the second file is chosen. */
  lemma SizeTCounterReselectsFirstFile()
    ensures var db := [FileEntry(0, false, SIZE_T_LIMIT, "a"), FileEntry(0, false, 100, "b")];
      SelectFile(db, 0, SIZE_T_LIMIT - 1, 1) == Selected(0, 1, false) &&
      SelectFile(db, 0, SizeTAdvance(SIZE_T_LIMIT - 1, 1), 100) == Selected(0, 100, true) &&
      SelectFile(db, 0, SIZE_T_LIMIT - 1 + 1, 100) == Selected(1, 100, false)
  {
    var db := [FileEntry(0, false, SIZE_T_LIMIT, "a"), FileEntry(0, false, 100, "b")];
    assert SelectFile(db, 0, SIZE_T_LIMIT, 100) == SelectFrom(db, 0, SIZE_T_LIMIT, 100, 1, SIZE_T_LIMIT);
  }

  /** WriteTempStream: appends a buffer to the temporary file, opening
      (and so recreating) it first unless it is open, and closes it when
      StopWriting is set. */
  method WriteTempStream(sink: FileSink, buf: Option<seq<byte>>, stopWriting: bool, st: WriteState) returns (res: SRes)
    requires sink.Valid() && st.fileOpened == sink.tempOpen
    modifies sink, st`fileOpened
    ensures sink.Valid() && st.fileOpened == sink.tempOpen && sink.realOpen == old(sink.realOpen)
    ensures |old(sink.log)| <= |sink.log| && sink.log[..|old(sink.log)|] == old(sink.log)
    ensures res == SZ_OK || res == SZ_ERROR_DATA || res == SZ_ERROR_FAIL || res == SZ_ERROR_WRITE
    ensures buf.None? ==> res == SZ_ERROR_DATA && sink.log == old(sink.log) && st.fileOpened == old(st.fileOpened)
    ensures buf == Some([]) ==> res == SZ_OK && sink.log == old(sink.log) && st.fileOpened == old(st.fileOpened)
    ensures res == SZ_OK && buf.Some? && buf.value != [] ==>
      sink.tempFile == (if old(st.fileOpened) then old(sink.tempFile) else []) + buf.value &&
      st.fileOpened == !stopWriting
    ensures res == SZ_ERROR_FAIL ==> EndsWithFailedOpen(sink.log) && !st.fileOpened
    ensures res == SZ_ERROR_WRITE ==> EndsWithShortWrite(sink.log) && st.fileOpened
  {
    if buf.None? {
      return SZ_ERROR_DATA;
    }
    var b := buf.value;
    if |b| == 0 {
      return SZ_OK;
    }
    if !st.fileOpened {
      var failed := sink.OpenOutFile(None, true);
      if failed {
        return SZ_ERROR_FAIL;
      }
      st.fileOpened := true;
    }
    ghost var base := sink.tempFile;
    assert base == (if old(st.fileOpened) then old(sink.tempFile) else []);
    var bufSize := |b|;
    while bufSize > 0
      invariant bufSize == 0 || bufSize == |b|
      invariant sink.tempFile == base + (if bufSize == 0 then b else [])
      invariant sink.Valid() && sink.tempOpen && st.fileOpened && sink.realOpen == old(sink.realOpen)
      invariant |old(sink.log)| <= |sink.log| && sink.log[..|old(sink.log)|] == old(sink.log)
    {
      var bytesToWrite := sink.FileWrite(b[..bufSize], true);
      if bytesToWrite != bufSize {
        return SZ_ERROR_WRITE;
      }
      bufSize := bufSize - bytesToWrite;
    }
    if stopWriting {
      sink.FileClose(true);
      st.fileOpened := false;
    }
    res := SZ_OK;
  }

  /** ReadTempStream: reads up to bufSize bytes of the temporary file into
      buf, opening it for reading (from its start) unless it is open, and
      closes it after a short read. The count read is returned in newSize;
      on the early returns the size is left as it was. */
  method ReadTempStream(sink: FileSink, buf: Option<array<byte>>, bufSize: nat, st: ReadState)
    returns (res: SRes, newSize: nat)
    requires sink.Valid() && st.fileOpened == sink.tempOpen
    requires buf.Some? ==> bufSize <= buf.value.Length
    modifies sink, st, if buf.Some? then {buf.value} else {}
    ensures sink.Valid() && st.fileOpened == sink.tempOpen
    ensures sink.realOpen == old(sink.realOpen) && sink.tempFile == old(sink.tempFile)
    ensures |old(sink.log)| <= |sink.log| && sink.log[..|old(sink.log)|] == old(sink.log)
    ensures res == SZ_OK || res == SZ_ERROR_DATA || res == SZ_ERROR_FAIL || res == SZ_ERROR_READ
    ensures res != SZ_OK ==> newSize == bufSize
    ensures buf.None? ==> res == SZ_ERROR_DATA && sink.log == old(sink.log)
    ensures buf.Some? && bufSize == 0 ==> res == SZ_OK && newSize == 0 && sink.log == old(sink.log)
    ensures buf.Some? && bufSize > 0 && res == SZ_OK ==>
      var pos := if old(st.fileOpened) then old(sink.tempReadPos) else 0;
      var avail := old(sink.tempFile)[pos..];
      newSize == Min(bufSize, |avail|) &&
      buf.value[..newSize] == avail[..newSize] &&
      buf.value[newSize..] == old(buf.value[newSize..]) &&
      (st.fileOpened <==> newSize == bufSize) &&
      sink.tempReadPos == pos + newSize
    ensures res == SZ_ERROR_FAIL ==> EndsWithFailedOpen(sink.log) && !st.fileOpened
    ensures res == SZ_ERROR_READ ==> st.fileOpened
  {
    newSize := bufSize;
    if buf.None? {
      return SZ_ERROR_DATA, newSize;
    }
    var out := buf.value;
    if bufSize == 0 {
      return SZ_OK, newSize;
    }
    if !st.fileOpened {
      var failed := sink.OpenInTempFile();
      if failed {
        return SZ_ERROR_FAIL, newSize;
      }
      st.fileOpened := true;
    }
    var data;
    res, data := sink.FileReadTemp(bufSize);
    if res != SZ_OK {
      return SZ_ERROR_READ, newSize;
    }
    PutBytes(out, 0, data);
    var bytesToRead := |data|;
    if bytesToRead < bufSize || res != SZ_OK {
      sink.FileClose(true);
      st.fileOpened := false;
    }
    newSize := bytesToRead;
  }

  /** The directory separators BaseName recognises. */
  predicate IsSeparator(c: char) {
    c == '\\' || c == '/'
  }

  /** The index of the last separator among path[..k], if any. */
  function LastSeparatorBelow(path: seq<char>, k: nat): (r: Option<nat>)
    requires k <= |path|
    ensures r.Some? ==>
      r.value < k && IsSeparator(path[r.value]) &&
      forall j :: r.value < j < k ==> !IsSeparator(path[j])
    ensures r.None? ==> forall j :: 0 <= j < k ==> !IsSeparator(path[j])
    decreases k
  {
    if k == 0 then None
    else if IsSeparator(path[k - 1]) then Some(k - 1)
    else LastSeparatorBelow(path, k - 1)
  }

  /** BaseName: the part of a path (the characters before its terminating
      NUL) after its last separator. The forward scan only looks for
      separators from index 1 on, so a path whose only separator is its
      first character is returned whole. */
  function BaseName(path: seq<char>): (r: seq<char>)
    ensures |r| <= |path| && r == path[|path| - |r|..]
    ensures r == path <==> forall j :: 1 <= j < |path| ==> !IsSeparator(path[j])
    ensures r != path ==>
      IsSeparator(path[|path| - |r| - 1]) && forall j :: |path| - |r| <= j < |path| ==> !IsSeparator(path[j])
  {
    match LastSeparatorBelow(path, |path|)
    case Some(j) => if j >= 1 then path[j + 1..] else path
    case None => path
  }
}
