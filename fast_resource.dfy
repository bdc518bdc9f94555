/**
 * FastResource: a resource found on the class path, with its lazily opened
 * and cached input stream and the interrupt-proof getBytes read loop.
 */
module FastResources {
  import opened Wrappers
  import opened JavaErrors
  import opened IntegerUtil
  import opened Platform

  /** The data a stream still holds: the bytes before its first failure, and whether that failure comes. */
  datatype Content = Content(data: seq<bv8>, failed: bool)

  /** The content of a sequence of read events; interrupts deliver nothing. */
  function ContentOf(events: seq<ReadEvent>): (c: Content)
    ensures events == [] ==> c == Content([], false)
  {
    if events == [] then Content([], false)
    else match events[0]
      case Chunk(d) => var rest := ContentOf(events[1..]); Content(d + rest.data, rest.failed)
      case Interrupt => ContentOf(events[1..])
      case ReadFailure => Content([], true)
  }

  /**
   * The content fails exactly when a read failure is among the events, and it
   * never holds more bytes than the stream's size counts.
   */
  lemma {:induction false} ContentOfFailsOnReadFailure(events: seq<ReadEvent>)
    ensures ContentOf(events).failed <==> exists i :: 0 <= i < |events| && events[i] == ReadFailure
    ensures |ContentOf(events).data| <= EventsSize(events)
  {
    if events != [] {
      ContentOfFailsOnReadFailure(events[1..]);
      assert forall i :: 1 <= i < |events| ==> events[i] == events[1..][i - 1];
    }
  }

  predicate HasInterrupt(events: seq<ReadEvent>) {
    exists i :: 0 <= i < |events| && events[i] == Interrupt
  }

  /** The number of InterruptedIOExceptions a sequence of read events still holds. */
  function InterruptCount(events: seq<ReadEvent>): nat {
    if events == [] then 0
    else (if events[0] == Interrupt then 1 else 0) + InterruptCount(events[1..])
  }

  /** The events hold an interrupt exactly when their count of interrupts is positive. */
  lemma {:induction false} InterruptCountPositive(events: seq<ReadEvent>)
    ensures InterruptCount(events) > 0 <==> HasInterrupt(events)
  {
    if events != [] {
      InterruptCountPositive(events[1..]);
      if events[0] != Interrupt && HasInterrupt(events) {
        var i :| 0 <= i < |events| && events[i] == Interrupt;
        assert events[1..][i - 1] == Interrupt;
      }
      if HasInterrupt(events[1..]) {
        var i :| 0 <= i < |events[1..]| && events[1..][i] == Interrupt;
        assert events[i + 1] == Interrupt;
      }
    }
  }

  /** The work left in a stream: every event counts one, every byte still to deliver one more. */
  function EventsSize(events: seq<ReadEvent>): nat {
    if events == [] then 0
    else (match events[0] case Chunk(d) => |d| case _ => 0) + 1 + EventsSize(events[1..])
  }

  /** What one InputStream.read(b, off, len) call does. */
  datatype ReadResult =
    | Bytes(data: seq<bv8>)   // read returns data.Length (zero or more bytes)
    | EndOfStream             // read returns -1
    | Interrupted             // read throws InterruptedIOException
    | Failed                  // read throws another IOException

  /** An InputStream over a finite sequence of read events. */
  class InputStream {
    var events: seq<ReadEvent>
    var isClosed: bool
    const onClose: CloseOutcome

    constructor (spec: StreamSpec)
      ensures events == spec.events && !isClosed && onClose == spec.onClose
    {
      events := spec.events;
      isClosed := false;
      onClose := spec.onClose;
    }

    /** What the stream still delivers; a closed stream only fails. */
    function Remaining(): Content
      reads this
    {
      if isClosed then Content([], true) else ContentOf(events)
    }

    function Size(): nat
      reads this
    {
      if isClosed then 0 else EventsSize(events)
    }

    /** read(b, off, n) for n > 0: at most n bytes, taken from the front of the stream. */
    method Read(n: int) returns (r: ReadResult)
      requires n > 0
      modifies this
      ensures isClosed == old(isClosed)
      ensures r.Bytes? ==>
        (|r.data| <= n && Size() < old(Size())
         && old(Remaining()) == Content(r.data + Remaining().data, Remaining().failed))
      ensures r.EndOfStream? ==> old(Remaining()) == Content([], false) && Remaining() == old(Remaining())
      ensures r.Interrupted? ==> Remaining() == old(Remaining()) && Size() < old(Size()) && HasInterrupt(old(events))
      ensures r.Failed? ==> old(Remaining()) == Content([], true)
      ensures HasInterrupt(events) ==> HasInterrupt(old(events))
      ensures InterruptCount(events) == if r.Interrupted? then InterruptCount(old(events)) - 1 else InterruptCount(old(events))
    {
      if isClosed || events == [] {
        return if isClosed then Failed else EndOfStream;
      }
      var e := events;
      match e[0]
      case Chunk(d) =>
        if |d| <= n {
          events := e[1..];
          assert forall i :: 0 <= i < |events| ==> events[i] == e[i + 1];
          return Bytes(d);
        } else {
          events := [Chunk(d[n..])] + e[1..];
          assert d == d[..n] + d[n..];
          assert events[1..] == e[1..];
          assert InterruptCount(events) == InterruptCount(e[1..]);
          assert forall i :: 1 <= i < |events| ==> events[i] == e[i];
          return Bytes(d[..n]);
        }
      case Interrupt =>
        events := e[1..];
        assert forall i :: 0 <= i < |events| ==> events[i] == e[i + 1];
        return Interrupted;
      case ReadFailure =>
        return Failed;
    }

    /** close(): the outcome the stream was given on its first call; later calls do nothing. */
    method Close() returns (r: CloseOutcome)
      modifies this
      ensures isClosed && events == old(events)
      ensures r == if old(isClosed) then Closed else onClose
    {
      r := if isClosed then Closed else onClose;
      isClosed := true;
    }
  }

  /** Where a resource comes from; jar resources carry their archive's manifest and their entry's signatures. */
  datatype Origin =
    | FromDirectory
    | FromJar(manifest: Option<Manifest>, certificates: Option<seq<Certificate>>, codeSigners: Option<seq<CodeSigner>>)

  /**
   * What a loader hands out for a found resource: getName, getURL,
   * getCodeSourceURL, what getInputStream opens (None: it throws an
   * IOException), getContentLength (-1 when unknown) together with the number
   * of InterruptedIOExceptions it throws first, and the origin.
   */
  datatype ResourceInfo = ResourceInfo(name: string, url: Url, codeSourceUrl: Url, content: Option<StreamSpec>,
                                       contentLength: int32, lengthInterrupts: nat, origin: Origin)

  const PREMATURE_EOF: Exception := Err(EOFException, "Detect premature EOF")
  const STREAM_FAILED: Exception := Err(IOException, "read failed")
  const OPEN_FAILED: Exception := Err(FileNotFoundException, "cannot open resource")

  /**
   * The result getBytes must produce for a content length and the content of
   * the stream: a length of -1 (unknown) reads up to Integer.MAX_VALUE bytes.
   */
  function BytesOutcome(contentLength: int32, c: Content): Result<seq<bv8>, Exception> {
    var limit := if contentLength == -1 then INT_MAX else contentLength;
    if limit <= 0 then Success([])
    else if |c.data| >= limit then Success(c.data[..limit])
    else if c.failed then Failure(STREAM_FAILED)
    else if limit == INT_MAX then Success(c.data)
    else Failure(PREMATURE_EOF)
  }

  /** A known length L yields exactly L bytes, the first L the stream delivers. */
  lemma KnownLengthIsExact(len: int32, c: Content)
    requires 0 <= len
    requires BytesOutcome(len, c).Success?
    ensures |BytesOutcome(len, c).value| == len || (len == INT_MAX && |BytesOutcome(len, c).value| < len)
    ensures BytesOutcome(len, c).value <= c.data
  {
  }

  /** A known length the stream cannot reach is a premature EOF (or the stream's own failure). */
  lemma ShortStreamFails(len: int32, c: Content)
    requires 0 <= |c.data| < len < INT_MAX
    ensures BytesOutcome(len, c).Failure?
    ensures BytesOutcome(len, c).error == if c.failed then STREAM_FAILED else PREMATURE_EOF
  {
  }

  /** An unknown length yields exactly the bytes delivered before end of stream. */
  lemma UnknownLengthIsTrimmed(c: Content)
    requires !c.failed && |c.data| < INT_MAX
    ensures BytesOutcome(-1, c) == Success(c.data)
  {
  }

  /** The events with every interrupt taken out. */
  function WithoutInterrupts(events: seq<ReadEvent>): (r: seq<ReadEvent>)
    ensures !HasInterrupt(r)
  {
    if events == [] then []
    else (if events[0] == Interrupt then [] else [events[0]]) + WithoutInterrupts(events[1..])
  }

  /** Interrupts never change what is read: getBytes gives the same result without them. */
  lemma {:induction false} InterruptsDoNotAbort(events: seq<ReadEvent>)
    ensures ContentOf(WithoutInterrupts(events)) == ContentOf(events)
  {
    if events != [] {
      InterruptsDoNotAbort(events[1..]);
      var rest := WithoutInterrupts(events[1..]);
      if events[0] != Interrupt {
        var w := [events[0]] + rest;
        assert WithoutInterrupts(events) == w;
        assert w[0] == events[0] && w[1..] == rest;
      } else {
        assert WithoutInterrupts(events) == rest;
      }
    }
  }

  /** Bytes read followed by bytes still to come: the same stream, however the read splits it. */
  lemma Regroup(a: seq<bv8>, b: seq<bv8>, c: seq<bv8>)
    ensures a + (b + c) == (a + b) + c
  {
  }

  /**
   * One step of getBytes's buffer handling: when the buffer is full, grow it by
   * min(len - pos, bytes.length + 1024) zero bytes; read into what is left of it.
   */
  method NextChunk(bytes: seq<bv8>, pos: int, len: int) returns (grown: seq<bv8>, bytesToRead: int)
    requires 0 <= pos <= |bytes| <= len && pos < len
    ensures 0 < bytesToRead && pos + bytesToRead <= |grown| <= len && grown[..pos] == bytes[..pos]
    ensures pos < |bytes| ==> grown == bytes && bytesToRead == |bytes| - pos
    ensures pos == |bytes| ==>
      bytesToRead == (if len - pos < |bytes| + 1024 then len - pos else |bytes| + 1024) && |grown| == pos + bytesToRead
  {
    grown := bytes;
    if pos >= |bytes| {
      bytesToRead := if len - pos < |bytes| + 1024 then len - pos else |bytes| + 1024;
      if |bytes| < pos + bytesToRead {
        grown := bytes + seq(pos + bytesToRead - |bytes|, _ => 0 as bv8);
        assert grown[..pos] == bytes[..pos];
      }
    } else {
      bytesToRead := |bytes| - pos;
    }
  }

  /**
   * The read loop of getBytes (with the length already fetched): grow the
   * buffer only when it is full, by min(len - pos, bytes.length + 1024); an
   * interrupted read counts as 0 bytes; end of stream is a premature EOF for a
   * known length and trims the buffer for an unknown one (-1, read as
   * Integer.MAX_VALUE). sawInterrupt reports an InterruptedIOException.
   */
  method ReadLoop(inputStream: InputStream, contentLength: int32) returns (r: Result<seq<bv8>, Exception>, sawInterrupt: bool)
    modifies inputStream
    ensures r == BytesOutcome(contentLength, old(inputStream.Remaining()))
    ensures inputStream.isClosed == old(inputStream.isClosed)
    ensures sawInterrupt ==> !inputStream.isClosed && HasInterrupt(old(inputStream.events))
    ensures sawInterrupt <==> InterruptCount(inputStream.events) < InterruptCount(old(inputStream.events))
  {
    ghost var c0 := inputStream.Remaining();
    ghost var e0 := inputStream.events;
    InterruptCountPositive(e0);
    var len: int := contentLength;
    var bytes: seq<bv8> := [];
    if len == -1 {
      len := INT_MAX;
    }
    var pos := 0;
    sawInterrupt := false;
    while pos < len
      invariant 0 <= pos <= |bytes| && (len <= 0 ==> bytes == []) && (len > 0 ==> |bytes| <= len)
      invariant c0.data == bytes[..pos] + inputStream.Remaining().data
      invariant c0.failed == inputStream.Remaining().failed
      invariant inputStream.isClosed == old(inputStream.isClosed)
      invariant sawInterrupt ==> !inputStream.isClosed
      invariant InterruptCount(inputStream.events) <= InterruptCount(e0)
      invariant sawInterrupt <==> InterruptCount(inputStream.events) < InterruptCount(e0)
      decreases inputStream.Size()
    {
      ghost var done := bytes[..pos];
      var bytesToRead;
      bytes, bytesToRead := NextChunk(bytes, pos, len);
      ghost var rem0 := inputStream.Remaining();
      var cc := 0;
      var read := inputStream.Read(bytesToRead);
      match read {
        case Bytes(d) =>
          ghost var rem1 := inputStream.Remaining();
          assert rem0.data == d + rem1.data;
          bytes := bytes[..pos] + d + bytes[pos + |d|..];
          assert bytes[..pos + |d|] == done + d;
          assert c0.data == done + rem0.data;
          Regroup(done, d, rem1.data);
          cc := |d|;
        case EndOfStream =>
          cc := -1;
        case Interrupted =>
          sawInterrupt := true;
        case Failed =>
          assert c0 == Content(bytes[..pos], true);
          return Failure(STREAM_FAILED), sawInterrupt;
      }
      if cc < 0 {
        assert c0 == Content(bytes[..pos], false);
        if len != INT_MAX {
          return Failure(PREMATURE_EOF), sawInterrupt;
        }
        return Success(bytes[..pos]), sawInterrupt;
      }
      pos := pos + cc;
    }
    assert bytes[..pos] == bytes;
    return Success(bytes), sawInterrupt;
  }

  /** A FastResource: the resource's description and the stream cached by cachedInputStream(). */
  class FastResource {
    const info: ResourceInfo
    var cachedInputStream: InputStream?

    constructor (info: ResourceInfo)
      ensures this.info == info && cachedInputStream == null
    {
      this.info := info;
      cachedInputStream := null;
    }

    /** The content the next getBytes will read: from the cached stream, or from a stream still to open. */
    function PendingContent(): Option<Content>
      reads this, cachedInputStream
    {
      if cachedInputStream != null then Some(cachedInputStream.Remaining())
      else if info.content.Some? then Some(ContentOf(info.content.value.events))
      else None
    }

    /** The read events the next getBytes will meet. */
    function PendingEvents(): seq<ReadEvent>
      reads this, cachedInputStream
    {
      if cachedInputStream != null then (if cachedInputStream.isClosed then [] else cachedInputStream.events)
      else if info.content.Some? then info.content.value.events
      else []
    }

    /** How closing the stream after the next read ends. */
    function PendingClose(): CloseOutcome
      reads this, cachedInputStream
    {
      if cachedInputStream != null then (if cachedInputStream.isClosed then Closed else cachedInputStream.onClose)
      else if info.content.Some? then info.content.value.onClose
      else Closed
    }

    /** cachedInputStream(): the stream is opened once, on first use, and reused afterwards. */
    method CachedInputStream() returns (r: Result<InputStream, Exception>)
      modifies this
      ensures old(cachedInputStream) != null ==> r == Success(old(cachedInputStream)) && cachedInputStream == old(cachedInputStream)
      ensures old(cachedInputStream) == null && info.content.Some? ==>
        r.Success? && fresh(r.value) && cachedInputStream == r.value
        && r.value.events == info.content.value.events && !r.value.isClosed && r.value.onClose == info.content.value.onClose
      ensures old(cachedInputStream) == null && info.content.None? ==>
        r == Failure(OPEN_FAILED) && cachedInputStream == null
    {
      if cachedInputStream == null {
        if info.content.None? {
          return Failure(OPEN_FAILED);
        }
        cachedInputStream := new InputStream(info.content.value);
      }
      return Success(cachedInputStream);
    }

    /**
     * getBytes(). interruptedAtEntry is the thread's interrupt status on entry;
     * interrupted is its status on exit.
     */
    method GetBytes(interruptedAtEntry: bool) returns (r: Result<seq<bv8>, Exception>, interrupted: bool)
      modifies this, cachedInputStream
      ensures old(PendingContent()).None? ==> r == Failure(OPEN_FAILED) && interrupted == interruptedAtEntry
      ensures old(PendingContent()).Some? ==>
        r == BytesOutcome(info.contentLength, old(PendingContent()).value)
        && cachedInputStream != null && cachedInputStream.isClosed
      ensures old(PendingContent()).Some? ==>
        (interruptedAtEntry || info.lengthInterrupts > 0 || old(PendingClose()) == CloseInterrupted) ==> interrupted
      ensures interrupted ==> interruptedAtEntry || info.lengthInterrupts > 0
                              || old(PendingClose()) == CloseInterrupted || HasInterrupt(old(PendingEvents()))
      ensures old(PendingContent()).Some? ==>
        (interrupted <==> interruptedAtEntry || info.lengthInterrupts > 0
                          || InterruptCount(cachedInputStream.events) < InterruptCount(old(PendingEvents()))
                          || old(PendingClose()) == CloseInterrupted)
    {
      ghost var c0 := PendingContent();
      ghost var e0 := PendingEvents();
      ghost var close0 := PendingClose();
      var openResult := CachedInputStream();
      if openResult.Failure? {
        return Failure(openResult.error), interruptedAtEntry;
      }
      var inputStream := openResult.value;
      assert inputStream.Remaining() == c0.value;
      assert !inputStream.isClosed ==> inputStream.events == e0;
      assert (if inputStream.isClosed then Closed else inputStream.onClose) == close0;

      var isInterrupted := interruptedAtEntry;
      var attempts := 0;
      while attempts < info.lengthInterrupts
        invariant attempts <= info.lengthInterrupts
        invariant isInterrupted <==> interruptedAtEntry || attempts > 0
      {
        isInterrupted := true;
        attempts := attempts + 1;
      }
      var len: int := info.contentLength;

      var readInterrupted;
      r, readInterrupted := ReadLoop(inputStream, len);
      if readInterrupted {
        isInterrupted := true;
      }

      var closing := inputStream.Close();
      if closing == CloseInterrupted {
        isInterrupted := true;
      }
      return r, isInterrupted;
    }

    /** getManifest(): null by default; a jar resource gives its archive's manifest. */
    function GetManifest(): (r: Option<Manifest>)
      ensures info.origin.FromDirectory? ==> r.None?
      ensures info.origin.FromJar? ==> r == info.origin.manifest
    {
      if info.origin.FromJar? then info.origin.manifest else None
    }

    /** getCertificates(): null by default; a jar resource gives its entry's certificates. */
    function GetCertificates(): (r: Option<seq<Certificate>>)
      ensures info.origin.FromDirectory? ==> r.None?
      ensures info.origin.FromJar? ==> r == info.origin.certificates
    {
      if info.origin.FromJar? then info.origin.certificates else None
    }

    /** getCodeSigners(): null by default; a jar resource gives its entry's code signers. */
    function GetCodeSigners(): (r: Option<seq<CodeSigner>>)
      ensures info.origin.FromDirectory? ==> r.None?
      ensures info.origin.FromJar? ==> r == info.origin.codeSigners
    {
      if info.origin.FromJar? then info.origin.codeSigners else None
    }
  }
}
