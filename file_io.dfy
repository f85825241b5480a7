/** The IFileStream interface of 7zFile.c that the output writers of
    7zStream.c call: open, write, read and close, each on either the current
    real output file or the single temporary file. What the operating system
    does is not visible, so the sink keeps an append-only log of the calls
    and takes the outcome of each call from environment functions indexed by
    the call's position in the log. */
module FileIo {
  import opened SzTypes

  /** One call on the sink, with its outcome. */
  datatype SinkEvent =
    | Open(name: Option<seq<char>>, forWrite: bool, isTemp: bool, ok: bool)
    | Write(isTemp: bool, requested: nat, data: seq<byte>)
    | Read(isTemp: bool, requested: nat, data: seq<byte>, ok: bool)
    | Close(isTemp: bool)

  /** The bytes a single event hands to the real or the temporary file. */
  function Written(e: SinkEvent, isTemp: bool): seq<byte> {
    if e.Write? && e.isTemp == isTemp then e.data else []
  }

  /** The bytes a sequence of events hands to the real (isTemp false) or
      the temporary file, in order. */
  function Payload(events: seq<SinkEvent>, isTemp: bool): seq<byte>
  {
    if events == [] then [] else Payload(events[..|events| - 1], isTemp) + Written(events[|events| - 1], isTemp)
  }

  lemma PayloadAppend(events: seq<SinkEvent>, e: SinkEvent, isTemp: bool)
    ensures Payload(events + [e], isTemp) == Payload(events, isTemp) + Written(e, isTemp)
  {
    assert (events + [e])[..|events|] == events;
  }

  /** The payload of two runs of calls is the payload of the first followed
      by that of the second. */
  lemma {:induction false} PayloadConcat(a: seq<SinkEvent>, b: seq<SinkEvent>, isTemp: bool)
    ensures Payload(a + b, isTemp) == Payload(a, isTemp) + Payload(b, isTemp)
    decreases |b|
  {
    if b == [] {
      assert a + b == a && Payload(b, isTemp) == [];
    } else {
      var b', x := b[..|b| - 1], b[|b| - 1];
      var ab := a + b;
      assert ab[..|ab| - 1] == a + b' && ab[|ab| - 1] == x;
      assert Payload(ab, isTemp) == Payload(a + b', isTemp) + Written(x, isTemp);
      assert Payload(b, isTemp) == Payload(b', isTemp) + Written(x, isTemp);
      PayloadConcat(a, b', isTemp);
    }
  }

  /** A write that handed over fewer bytes than requested. */
  predicate IsShortWrite(e: SinkEvent) {
    e.Write? && |e.data| < e.requested
  }

  /** An open call that failed. */
  predicate IsFailedOpen(e: SinkEvent) {
    e.Open? && !e.ok
  }

  /** The last call on the sink was a failed open. */
  predicate EndsWithFailedOpen(log: seq<SinkEvent>) {
    |log| > 0 && IsFailedOpen(log[|log| - 1])
  }

  /** The last call on the sink was a short write. */
  predicate EndsWithShortWrite(log: seq<SinkEvent>) {
    |log| > 0 && IsShortWrite(log[|log| - 1])
  }

  /** An open for writing of the real file with the given name. */
  predicate OpensRealFile(e: SinkEvent, name: seq<char>) {
    e.Open? && e.name == Some(name) && e.forWrite && !e.isTemp
  }

  /** The sink. realOpen and tempOpen say whether the realFile and tempFile
      handles are live; tempFile is the temporary file's contents and
      tempReadPos the read handle's position in it. openOk, writeLimit and
      readOk are the environment: whether the open at a given log position
      succeeds, how many bytes the write at a given log position accepts,
      and whether the read at a given log position succeeds. */
  class FileSink {
    var log: seq<SinkEvent>
    var realOpen: bool
    var tempOpen: bool
    var tempFile: seq<byte>
    var tempReadPos: nat
    const openOk: nat -> bool
    const writeLimit: nat -> nat
    const readOk: nat -> bool

    ghost predicate Valid()
      reads this
    {
      tempReadPos <= |tempFile|
    }

    constructor (openOk: nat -> bool, writeLimit: nat -> nat, readOk: nat -> bool)
      ensures Valid() && log == [] && !realOpen && !tempOpen && tempFile == []
      ensures this.openOk == openOk && this.writeLimit == writeLimit && this.readOk == readOk
    {
      log := [];
      realOpen := false;
      tempOpen := false;
      tempFile := [];
      tempReadPos := 0;
      this.openOk := openOk;
      this.writeLimit := writeLimit;
      this.readOk := readOk;
    }

    /** IFileStream_OpenWrite: a real file cannot be opened without a name;
        the temporary file is created empty (CREATE_ALWAYS). The handle must
        not be live already, since the old one would be lost. */
    method OpenOutFile(name: Option<seq<char>>, isTemp: bool) returns (failed: bool)
      requires Valid()
      requires if isTemp then !tempOpen else !realOpen
      modifies this
      ensures Valid()
      ensures failed == !((isTemp || name.Some?) && openOk(|old(log)|))
      ensures log == old(log) + [Open(name, true, isTemp, !failed)]
      ensures realOpen == (if isTemp then old(realOpen) else !failed)
      ensures tempOpen == (if isTemp then !failed else old(tempOpen))
      ensures tempFile == (if isTemp && !failed then [] else old(tempFile))
      ensures tempReadPos == (if isTemp && !failed then 0 else old(tempReadPos))
    {
      failed := !((isTemp || name.Some?) && openOk(|log|));
      log := log + [Open(name, true, isTemp, !failed)];
      if isTemp {
        tempOpen := !failed;
        if !failed {
          tempFile := [];
          tempReadPos := 0;
        }
      } else {
        realOpen := !failed;
      }
    }

    /** IFileStream_OpenRead on the temporary file: reading starts at its
        beginning. */
    method OpenInTempFile() returns (failed: bool)
      requires Valid() && !tempOpen
      modifies this
      ensures Valid()
      ensures failed == !openOk(|old(log)|)
      ensures log == old(log) + [Open(None, false, true, !failed)]
      ensures tempOpen == !failed && realOpen == old(realOpen) && tempFile == old(tempFile)
      ensures tempReadPos == (if failed then old(tempReadPos) else 0)
    {
      failed := !openOk(|log|);
      log := log + [Open(None, false, true, !failed)];
      tempOpen := !failed;
      if !failed {
        tempReadPos := 0;
      }
    }

    /** IFileStream_Write: hands over as many bytes as the environment
        accepts and returns that count. */
    method FileWrite(data: seq<byte>, isTemp: bool) returns (written: nat)
      requires Valid() && (if isTemp then tempOpen else realOpen)
      modifies this
      ensures Valid()
      ensures written == Min(|data|, writeLimit(|old(log)|))
      ensures log == old(log) + [Write(isTemp, |data|, data[..written])]
      ensures tempFile == (if isTemp then old(tempFile) + data[..written] else old(tempFile))
      ensures realOpen == old(realOpen) && tempOpen == old(tempOpen) && tempReadPos == old(tempReadPos)
    {
      written := Min(|data|, writeLimit(|log|));
      log := log + [Write(isTemp, |data|, data[..written])];
      if isTemp {
        tempFile := tempFile + data[..written];
      }
    }

    /** IFileStream_Read on the temporary file: on success, the next bytes
        of the file, as many as requested and as remain; on failure
        SZ_ERROR_READ and nothing. */
    method FileReadTemp(n: nat) returns (res: SRes, data: seq<byte>)
      requires Valid() && tempOpen
      modifies this
      ensures Valid()
      ensures res == (if readOk(|old(log)|) then SZ_OK else SZ_ERROR_READ)
      ensures res == SZ_OK ==> data == old(tempFile[tempReadPos..][..Min(n, |tempFile| - tempReadPos)])
      ensures res != SZ_OK ==> data == []
      ensures tempReadPos == old(tempReadPos) + |data|
      ensures log == old(log) + [Read(true, n, data, res == SZ_OK)]
      ensures realOpen == old(realOpen) && tempOpen == old(tempOpen) && tempFile == old(tempFile)
    {
      if readOk(|log|) {
        res := SZ_OK;
        data := tempFile[tempReadPos..][..Min(n, |tempFile| - tempReadPos)];
      } else {
        res := SZ_ERROR_READ;
        data := [];
      }
      tempReadPos := tempReadPos + |data|;
      log := log + [Read(true, n, data, res == SZ_OK)];
    }

    /** IFileStream_CloseFile: closes and frees a live handle. */
    method FileClose(isTemp: bool)
      requires Valid() && (if isTemp then tempOpen else realOpen)
      modifies this
      ensures Valid()
      ensures log == old(log) + [Close(isTemp)]
      ensures realOpen == (if isTemp then old(realOpen) else false)
      ensures tempOpen == (if isTemp then false else old(tempOpen))
      ensures tempFile == old(tempFile) && tempReadPos == old(tempReadPos)
    {
      log := log + [Close(isTemp)];
      if isTemp {
        tempOpen := false;
      } else {
        realOpen := false;
      }
    }
  }
}
