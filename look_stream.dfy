/** The byte-source layer of 7zStream.c: the CLookToRead adapter, a small
    buffer with a read position that sits on a seekable stream and offers
    look (peek), skip, read and seek, and the loops that read until a
    requested size is consumed. */
module LookStream {
  import opened SzTypes

  /** LookToRead_BUF_SIZE, the adapter's buffer size (1 << 14 in the SDK's
      Types.h). */
  const LOOK_TO_READ_BUF_SIZE: nat := 0x4000

  /** The bytes of `data` from position p on; nothing once p is at or past
      the end. */
  function From(data: seq<byte>, p: nat): (r: seq<byte>)
    ensures |r| == if p < |data| then |data| - p else 0
  {
    if p < |data| then data[p..] else []
  }

  lemma FromAdvance(data: seq<byte>, p: nat, k: nat)
    requires k <= |From(data, p)|
    ensures From(data, p + k) == From(data, p)[k..]
  {
  }

  /** The archive file behind the adapter: a fixed byte sequence and a
      cursor. A read returns as many of the requested bytes as remain and
      never fails; a seek may go past the end, after which reads return
      nothing. */
  class SeekInStream {
    const data: seq<byte>
    var cursor: nat

    constructor (data: seq<byte>)
      ensures this.data == data && cursor == 0
    {
      this.data := data;
      cursor := 0;
    }

    method Read(n: nat) returns (bytes: seq<byte>)
      modifies this
      ensures bytes == From(data, old(cursor))[..Min(n, |From(data, old(cursor))|)]
      ensures cursor == old(cursor) + |bytes|
    {
      var rest := From(data, cursor);
      bytes := rest[..Min(n, |rest|)];
      cursor := cursor + |bytes|;
    }

    method Seek(offset: nat)
      modifies this
      ensures cursor == offset
    {
      cursor := offset;
    }
  }

  /** CLookToRead: buf[pos..size) holds bytes already read from realStream
      but not yet consumed. Look_Lookahead or Look_Exact is chosen once, when
      the vtable is created. */
  class LookToRead {
    const lookahead: bool
    const buf: array<byte>
    const realStream: SeekInStream
    var pos: nat
    var size: nat

    /** The buffered bytes are exactly the bytes of the file just before the
        real stream's cursor. */
    ghost predicate Valid()
      reads this, buf, realStream
    {
      buf.Length == LOOK_TO_READ_BUF_SIZE &&
      pos <= size <= buf.Length &&
      size - pos <= realStream.cursor &&
      (pos < size ==> realStream.cursor <= |realStream.data|) &&
      forall i :: pos <= i < size ==> buf[i] == realStream.data[realStream.cursor - size + i]
    }

    /** The logical read position in the file: the real cursor minus what is
        buffered and not yet consumed. */
    function Position(): nat
      reads this, buf, realStream
      requires Valid()
    {
      realStream.cursor - (size - pos)
    }

    /** What a consumer of this stream will see next. */
    function Upcoming(): seq<byte>
      reads this, buf, realStream
      requires Valid()
    {
      From(realStream.data, Position())
    }

    lemma BufferedIsUpcoming()
      requires Valid()
      ensures size - pos <= |Upcoming()|
      ensures buf[pos..size] == Upcoming()[..size - pos]
    {
      if pos < size {
        assert Position() < |realStream.data|;
        forall i | 0 <= i < size - pos
          ensures buf[pos..size][i] == Upcoming()[i]
        {
          assert buf[pos + i] == realStream.data[realStream.cursor - size + pos + i];
        }
      }
    }

    /** LookToRead_CreateVTable followed by LookToRead_Init. */
    constructor (realStream: SeekInStream, lookahead: bool)
      ensures Valid() && fresh(buf)
      ensures this.realStream == realStream && this.lookahead == lookahead
      ensures pos == 0 && size == 0
      ensures Position() == realStream.cursor
    {
      this.lookahead := lookahead;
      this.realStream := realStream;
      buf := new byte[LOOK_TO_READ_BUF_SIZE];
      pos, size := 0, 0;
    }

    /** Reads up to `want` bytes from the real stream into the start of the
        buffer; the caller has found the buffer empty. */
    method Refill(want: nat)
      requires Valid() && pos == size
      requires 0 < want <= LOOK_TO_READ_BUF_SIZE
      modifies this, buf, realStream
      ensures Valid()
      ensures pos == 0 && size == Min(want, |old(Upcoming())|)
      ensures Position() == old(Position())
    {
      ghost var p0 := Position();
      pos := 0;
      var got := realStream.Read(want);
      forall i | 0 <= i < |got| {
        buf[i] := got[i];
      }
      size := |got|;
      assert realStream.cursor == p0 + |got|;
    }

    /** LookToRead_Look_Lookahead: shows min(request, size - pos) buffered
        bytes without consuming them; only when the buffer is empty and the
        request is positive does it refill a whole buffer, resetting pos. */
    method LookLookahead(request: nat) returns (view: seq<byte>)
      requires Valid()
      modifies this, buf, realStream
      ensures Valid()
      ensures Position() == old(Position())
      ensures old(size - pos) == 0 && request > 0 ==>
        pos == 0 && size == Min(LOOK_TO_READ_BUF_SIZE, |old(Upcoming())|)
      ensures old(size - pos) != 0 || request == 0 ==> pos == old(pos) && size == old(size)
      ensures |view| == Min(request, size - pos) && view == buf[pos..pos + |view|]
      ensures view == Upcoming()[..|view|]
      ensures request > 0 && Upcoming() != [] ==> |view| > 0
    {
      var size2 := size - pos;
      if size2 == 0 && request > 0 {
        Refill(LOOK_TO_READ_BUF_SIZE);
        size2 := size;
      }
      var n := if size2 < request then size2 else request;
      assert n <= size - pos;
      view := buf[pos..pos + n];
      BufferedIsUpcoming();
      assert view == buf[pos..size][..n] by {
        forall k | 0 <= k < n
          ensures view[k] == buf[pos..size][..n][k]
        {
        }
      }
    }

    /** LookToRead_Look_Exact: like Look_Lookahead, but a refill asks the real
        stream for the request itself, capped at LookToRead_BUF_SIZE, and
        `size` becomes the number of bytes actually read. */
    method LookExact(request: nat) returns (view: seq<byte>)
      requires Valid()
      modifies this, buf, realStream
      ensures Valid()
      ensures Position() == old(Position())
      ensures old(size - pos) == 0 && request > 0 ==>
        pos == 0 && size == Min(Min(request, LOOK_TO_READ_BUF_SIZE), |old(Upcoming())|)
      ensures old(size - pos) != 0 || request == 0 ==> pos == old(pos) && size == old(size)
      ensures |view| == Min(request, size - pos) && view == buf[pos..pos + |view|]
      ensures view == Upcoming()[..|view|]
      ensures request > 0 && Upcoming() != [] ==> |view| > 0
    {
      var size2 := size - pos;
      var want := request;
      if size2 == 0 && want > 0 {
        if want > LOOK_TO_READ_BUF_SIZE {
          want := LOOK_TO_READ_BUF_SIZE;
        }
        Refill(want);
        size2 := size;
      }
      var n := if size2 < request then size2 else request;
      assert n <= size - pos;
      view := buf[pos..pos + n];
      BufferedIsUpcoming();
      assert view == buf[pos..size][..n] by {
        forall k | 0 <= k < n
          ensures view[k] == buf[pos..size][..n][k]
        {
        }
      }
    }

    /** ILookInStream.Look through the vtable chosen at creation: never
        consumes, returns a prefix of what comes next, no longer than asked,
        and returns nothing for a positive request only at end of file. */
    method Look(request: nat) returns (view: seq<byte>)
      requires Valid()
      modifies this, buf, realStream
      ensures Valid()
      ensures Position() == old(Position()) && Upcoming() == old(Upcoming())
      ensures |view| <= request && |view| <= size - pos
      ensures view == Upcoming()[..|view|]
      ensures request > 0 && Upcoming() != [] ==> |view| > 0
    {
      if lookahead {
        view := LookLookahead(request);
      } else {
        view := LookExact(request);
      }
    }

    /** LookToRead_Skip: adds offset to pos without any bounds check, so the
        caller must not skip past the bytes it has looked at. */
    method Skip(offset: nat)
      requires Valid()
      requires offset <= size - pos
      modifies this
      ensures Valid()
      ensures pos == old(pos) + offset && size == old(size)
      ensures Position() == old(Position()) + offset
      ensures Upcoming() == old(Upcoming())[offset..]
    {
      BufferedIsUpcoming();
      ghost var before := Upcoming();
      pos := pos + offset;
      FromAdvance(realStream.data, Position() - offset, offset);
      assert Upcoming() == before[offset..];
    }

    /** LookToRead_Read: serves min(size - pos, n) buffered bytes and advances
        pos by that much; only when nothing is buffered does it read the real
        stream directly, leaving the buffer empty. */
    method Read(n: nat) returns (bytes: seq<byte>)
      requires Valid()
      modifies this, realStream
      ensures Valid()
      ensures |bytes| <= n && |bytes| <= |old(Upcoming())|
      ensures bytes == old(Upcoming())[..|bytes|]
      ensures Upcoming() == old(Upcoming())[|bytes|..]
      ensures n > 0 && old(Upcoming()) != [] ==> |bytes| > 0
      ensures old(size - pos) > 0 ==>
        |bytes| == Min(old(size - pos), n) && pos == old(pos) + |bytes| && size == old(size) &&
        realStream.cursor == old(realStream.cursor)
      ensures old(size - pos) == 0 ==>
        |bytes| == Min(n, |old(Upcoming())|) && pos == old(pos) && size == old(size)
    {
      if size - pos == 0 {
        bytes := ReadDirect(n);
      } else {
        bytes := ReadBuffered(n);
      }
    }

    /** LookToRead_Read with nothing buffered: the real stream is read
        directly. */
    method ReadDirect(n: nat) returns (bytes: seq<byte>)
      requires Valid() && pos == size
      modifies realStream
      ensures Valid()
      ensures bytes == old(Upcoming())[..Min(n, |old(Upcoming())|)]
      ensures Upcoming() == old(Upcoming())[|bytes|..]
    {
      ghost var p0 := Position();
      bytes := realStream.Read(n);
      assert realStream.cursor == p0 + |bytes|;
      FromAdvance(realStream.data, p0, |bytes|);
    }

    /** LookToRead_Read with bytes buffered: serves min(size - pos, n) of
        them. */
    method ReadBuffered(n: nat) returns (bytes: seq<byte>)
      requires Valid() && pos < size
      modifies this
      ensures Valid()
      ensures |bytes| == Min(old(size - pos), n) && pos == old(pos) + |bytes| && size == old(size)
      ensures bytes == old(Upcoming())[..|bytes|]
      ensures Upcoming() == old(Upcoming())[|bytes|..]
    {
      BufferedIsUpcoming();
      ghost var p0 := Position();
      ghost var before := Upcoming();
      var rem := size - pos;
      if rem > n {
        rem := n;
      }
      bytes := buf[pos..pos + rem];
      assert bytes == buf[pos..size][..rem] == before[..rem];
      pos := pos + rem;
      assert Position() == p0 + rem;
      FromAdvance(realStream.data, p0, rem);
    }

    /** LookToRead_Seek: always discards the buffer before moving the real
        stream. */
    method Seek(offset: nat)
      requires Valid()
      modifies this, realStream
      ensures Valid()
      ensures pos == 0 && size == 0
      ensures realStream.cursor == offset
      ensures Position() == offset && Upcoming() == From(realStream.data, offset)
    {
      pos, size := 0, 0;
      realStream.Seek(offset);
    }
  }

  /** LookInStream_SeekTo: an absolute seek through the look stream. */
  method SeekTo(stream: LookToRead, offset: nat)
    requires stream.Valid()
    modifies stream, stream.realStream
    ensures stream.Valid()
    ensures stream.Position() == offset
    ensures stream.Upcoming() == From(stream.realStream.data, offset)
  {
    stream.Seek(offset);
  }

  /** LookInStream_LookRead: look, copy what was shown, skip exactly that. */
  method LookRead(stream: LookToRead, n: nat) returns (bytes: seq<byte>)
    requires stream.Valid()
    modifies stream, stream.buf, stream.realStream
    ensures stream.Valid()
    ensures |bytes| <= n && |bytes| <= |old(stream.Upcoming())|
    ensures bytes == old(stream.Upcoming())[..|bytes|]
    ensures stream.Upcoming() == old(stream.Upcoming())[|bytes|..]
    ensures n > 0 && old(stream.Upcoming()) != [] ==> |bytes| > 0
  {
    if n == 0 {
      return [];
    }
    bytes := stream.Look(n);
    stream.Skip(|bytes|);
  }

  /** LookInStream_Read2: reads until `size` bytes are consumed; a read that
      returns nothing stops the loop with the caller's errorType. */
  method LookInStreamRead2(stream: LookToRead, size: nat, errorType: SRes) returns (res: SRes, bytes: seq<byte>)
    requires stream.Valid()
    modifies stream, stream.buf, stream.realStream
    ensures stream.Valid()
    ensures |bytes| <= |old(stream.Upcoming())|
    ensures stream.Upcoming() == old(stream.Upcoming())[|bytes|..]
    ensures size <= |old(stream.Upcoming())| ==> res == SZ_OK && bytes == old(stream.Upcoming())[..size]
    ensures size > |old(stream.Upcoming())| ==> res == errorType && bytes == old(stream.Upcoming())
  {
    ghost var all := stream.Upcoming();
    bytes := [];
    var remaining: nat := size;
    while remaining != 0
      invariant stream.Valid()
      invariant |bytes| + remaining == size
      invariant |bytes| <= |all|
      invariant bytes == all[..|bytes|]
      invariant stream.Upcoming() == all[|bytes|..]
      decreases remaining
    {
      var chunk := stream.Read(remaining);
      if |chunk| == 0 {
        res := errorType;
        return;
      }
      bytes := bytes + chunk;
      remaining := remaining - |chunk|;
    }
    res := SZ_OK;
  }

  /** LookInStream_Read: LookInStream_Read2 with SZ_ERROR_INPUT_EOF. */
  method LookInStreamRead(stream: LookToRead, size: nat) returns (res: SRes, bytes: seq<byte>)
    requires stream.Valid()
    modifies stream, stream.buf, stream.realStream
    ensures stream.Valid()
    ensures res == SZ_OK || res == SZ_ERROR_INPUT_EOF
    ensures res == SZ_OK <==> size <= |old(stream.Upcoming())|
    ensures res == SZ_OK ==> bytes == old(stream.Upcoming())[..size]
    ensures |bytes| <= |old(stream.Upcoming())|
    ensures stream.Upcoming() == old(stream.Upcoming())[|bytes|..]
  {
    res, bytes := LookInStreamRead2(stream, size, SZ_ERROR_INPUT_EOF);
  }

  /** SeqInStream_Read2: the same loop over a plain sequential stream. */
  method SeqInStreamRead2(stream: SeekInStream, size: nat, errorType: SRes) returns (res: SRes, bytes: seq<byte>)
    modifies stream
    ensures stream.cursor == old(stream.cursor) + |bytes|
    ensures size <= |From(stream.data, old(stream.cursor))| ==>
      res == SZ_OK && bytes == From(stream.data, old(stream.cursor))[..size]
    ensures size > |From(stream.data, old(stream.cursor))| ==>
      res == errorType && bytes == From(stream.data, old(stream.cursor))
  {
    ghost var all := From(stream.data, stream.cursor);
    ghost var start := stream.cursor;
    bytes := [];
    var remaining: nat := size;
    while remaining != 0
      invariant |bytes| + remaining == size
      invariant |bytes| <= |all|
      invariant stream.cursor == start + |bytes|
      invariant bytes == all[..|bytes|]
      invariant From(stream.data, stream.cursor) == all[|bytes|..]
      decreases remaining
    {
      var chunk := stream.Read(remaining);
      if |chunk| == 0 {
        res := errorType;
        return;
      }
      FromAdvance(stream.data, start + |bytes|, |chunk|);
      bytes := bytes + chunk;
      remaining := remaining - |chunk|;
    }
    res := SZ_OK;
  }

  /** SeqInStream_Read: SeqInStream_Read2 with SZ_ERROR_INPUT_EOF. */
  method SeqInStreamRead(stream: SeekInStream, size: nat) returns (res: SRes, bytes: seq<byte>)
    modifies stream
    ensures res == SZ_OK || res == SZ_ERROR_INPUT_EOF
    ensures res == SZ_OK <==> size <= |From(stream.data, old(stream.cursor))|
    ensures res == SZ_OK ==> bytes == From(stream.data, old(stream.cursor))[..size]
  {
    res, bytes := SeqInStreamRead2(stream, size, SZ_ERROR_INPUT_EOF);
  }

  /** SeqInStream_ReadByte: one byte, or SZ_ERROR_INPUT_EOF at end of file. */
  method SeqInStreamReadByte(stream: SeekInStream) returns (res: SRes, b: byte)
    modifies stream
    ensures res == SZ_OK <==> old(stream.cursor) < |stream.data|
    ensures res != SZ_OK ==> res == SZ_ERROR_INPUT_EOF && stream.cursor == old(stream.cursor)
    ensures res == SZ_OK ==> b == stream.data[old(stream.cursor)] && stream.cursor == old(stream.cursor) + 1
  {
    var got := stream.Read(1);
    if |got| == 1 {
      res, b := SZ_OK, got[0];
    } else {
      res, b := SZ_ERROR_INPUT_EOF, 0;
    }
  }
}
