// The suffix-framed inflate stream of the zlib wrapper.  Compressed
// transport data arrives in chunks; a message is complete once the buffer
// ends in 00 00 FF FF, the empty stored block a DEFLATE sync flush emits
// (section 3.2.4 of RFC 1951).  The whole buffer is then handed to inflate
// and whatever it produces is appended to an output accumulator.
//
// `InflateStream` models the packaged DiscordInflateStream.  The older
// ZlibStream is the same state machine without the two byte counters; its
// Close and destructor both run `CleanupResources`.

module ZlibInflate {
  import opened Common
  import opened StreamDecoder

  // zlib return codes
  const ZOk: int := 0
  const ZStreamEnd: int := 1
  const ZNeedDict: int := 2
  const ZErrno: int := -1
  const ZStreamError: int := -2
  const ZDataError: int := -3
  const ZMemError: int := -4
  const ZBufError: int := -5

  // zlib flush modes
  const ZSyncFlush: int := 2
  const ZFinish: int := 4

  const ZlibSuffix: Bytes := [0x00, 0x00, 0xFF, 0xFF]
  const DefaultChunkSize: nat := 32768

  type ChunkSize = n: nat | n > 0 witness 1

  /** The foreign zlib calls: inflate(strm, flush) and inflateReset(strm). */
  datatype Zlib = Zlib(inflate: (Context, Bytes, nat, int) -> Call<int>, reset: Context -> int)

  datatype StreamError = NotInitialized | StreamFinished

  datatype SyncError = InitFailed | InflateFailed

  /**
   * What one inflate call promises: the bounds of every decoder call and,
   * as the zlib manual documents, Z_BUF_ERROR rather than Z_OK when no
   * progress was possible.
   */
  predicate InflateContract(ctx: Context, input: Bytes, room: nat, c: Call<int>)
  {
    Respects(ctx, input, room, c) && (c.status == ZOk ==> Progress(c))
  }

  /** The model's hypothesis about the zlib library: every call keeps that contract. */
  ghost predicate WellBehaved(z: Zlib)
  {
    forall ctx, input, room, flush :: InflateContract(ctx, input, room, z.inflate(ctx, input, room, flush))
  }

  /** Statuses on which ProcessBuffer stops and records an error (Z_STREAM_END included). */
  predicate IsDecoderError(status: int)
  {
    status != ZOk && status != ZBufError
  }

  /** The buffer ends in the sync-flush marker 00 00 FF FF. */
  predicate HasZlibSuffix(data: Bytes)
  {
    |data| >= |ZlibSuffix| && data[|data| - |ZlibSuffix|..] == ZlibSuffix
  }

  /** Every buffer that ends with the marker is recognised ... */
  lemma SuffixRecognised(prefix: Bytes)
    ensures HasZlibSuffix(prefix + ZlibSuffix)
  {
    var data := prefix + ZlibSuffix;
    assert data[|data| - |ZlibSuffix|..] == ZlibSuffix;
  }

  /** ... and only those. */
  lemma SuffixOnlyWhenMarked(data: Bytes)
    requires HasZlibSuffix(data)
    ensures data == data[..|data| - |ZlibSuffix|] + ZlibSuffix
  {
  }

  /** Only the last four bytes decide, whatever was buffered before them. */
  lemma SuffixDependsOnTail(earlier: Bytes, chunk: Bytes)
    requires |chunk| >= |ZlibSuffix|
    ensures HasZlibSuffix(earlier + chunk) <==> HasZlibSuffix(chunk)
  {
    var data := earlier + chunk;
    assert data[|data| - |ZlibSuffix|..] == chunk[|chunk| - |ZlibSuffix|..];
  }

  /** Where the decode loop of ProcessBuffer stopped and what it produced. */
  datatype SyncPass = SyncPass(ctx: Context, pos: nat, status: int, produced: Bytes)

  /**
   * The do-while loop of ProcessBuffer from input position `pos` with
   * scratch room `room`: inflate with Z_SYNC_FLUSH; stop without appending
   * on a decoder error; otherwise append, double the room when it was
   * filled and input remains, and go on while input remains and the
   * status is Z_OK.
   */
  function SyncLoop(z: Zlib, ctx: Context, buf: Bytes, pos: nat, room: ChunkSize,
                    produced: Bytes): (r: SyncPass)
    requires WellBehaved(z) && pos <= |buf|
    decreases |buf| - pos, ctx.backlog
  {
    var c := z.inflate(ctx, buf[pos..], room, ZSyncFlush);
    var next := pos + c.consumed;
    if IsDecoderError(c.status) then SyncPass(c.next, next, c.status, produced)
    else
      var room' := if |c.output| == room && next < |buf| then 2 * room else room;
      if next < |buf| && c.status == ZOk then SyncLoop(z, c.next, buf, next, room', produced + c.output)
      else SyncPass(c.next, next, c.status, produced + c.output)
  }

  /** The decoder is fed a prefix of the buffer, in order, and nothing else. */
  lemma {:induction false} SyncLoopFeedsBufferInOrder(z: Zlib, ctx: Context, buf: Bytes, pos: nat,
                                                      room: ChunkSize, produced: Bytes)
    requires WellBehaved(z) && pos <= |buf|
    ensures var r := SyncLoop(z, ctx, buf, pos, room, produced);
      pos <= r.pos <= |buf| && r.ctx.fed == ctx.fed + buf[pos..r.pos]
    decreases |buf| - pos, ctx.backlog
  {
    var c := z.inflate(ctx, buf[pos..], room, ZSyncFlush);
    var next := pos + c.consumed;
    FeedsNextBytes(ctx, buf, pos, room, c);
    if !IsDecoderError(c.status) && next < |buf| && c.status == ZOk {
      var room' := if |c.output| == room && next < |buf| then 2 * room else room;
      SyncLoopFeedsBufferInOrder(z, c.next, buf, next, room', produced + c.output);
      var r := SyncLoop(z, c.next, buf, next, room', produced + c.output);
      FeedsConcat(ctx.fed, buf, pos, next, r.pos);
    }
  }

  /**
   * Output is only ever added at the end, and the loop ends with the whole
   * buffer consumed, with Z_BUF_ERROR, or with a decoder error.
   */
  lemma {:induction false} SyncLoopOutcome(z: Zlib, ctx: Context, buf: Bytes, pos: nat,
                                           room: ChunkSize, produced: Bytes)
    requires WellBehaved(z) && pos <= |buf|
    ensures var r := SyncLoop(z, ctx, buf, pos, room, produced);
      produced <= r.produced &&
      (r.pos == |buf| || r.status != ZOk)
    decreases |buf| - pos, ctx.backlog
  {
    var c := z.inflate(ctx, buf[pos..], room, ZSyncFlush);
    var next := pos + c.consumed;
    if !IsDecoderError(c.status) && next < |buf| && c.status == ZOk {
      var room' := if |c.output| == room && next < |buf| then 2 * room else room;
      SyncLoopOutcome(z, c.next, buf, next, room', produced + c.output);
    }
  }

  /** When no call reported anything but Z_OK, the decoder has consumed the whole buffer. */
  lemma SyncLoopConsumesAllOnOk(z: Zlib, ctx: Context, buf: Bytes, room: ChunkSize)
    requires WellBehaved(z) && SyncLoop(z, ctx, buf, 0, room, []).status == ZOk
    ensures SyncLoop(z, ctx, buf, 0, room, []).ctx.fed == ctx.fed + buf
  {
    SyncLoopOutcome(z, ctx, buf, 0, room, []);
    SyncLoopFeedsBufferInOrder(z, ctx, buf, 0, room, []);
    assert buf[0..|buf|] == buf;
  }

  /**
   * The call that reports Z_STREAM_END is handled as an error: its output
   * is not appended and Z_STREAM_END becomes the recorded error.
   */
  lemma StreamEndDropsItsOutput(z: Zlib, ctx: Context, buf: Bytes, room: ChunkSize)
    requires WellBehaved(z) && z.inflate(ctx, buf, room, ZSyncFlush).status == ZStreamEnd
    ensures SyncLoop(z, ctx, buf, 0, room, []).produced == []
    ensures IsDecoderError(SyncLoop(z, ctx, buf, 0, room, []).status)
  {
    assert buf[0..] == buf;
  }

  /** The last status of the one-shot loop and the bytes it collected. */
  datatype FinishPass = FinishPass(ctx: Context, pos: nat, status: int, produced: Bytes)

  /**
   * What the one-shot loop relies on: with input left and output room, a
   * Z_FINISH call that answers Z_BUF_ERROR still made progress.
   */
  ghost predicate FinishProgress(z: Zlib)
  {
    forall ctx, input, room ::
      |input| > 0 && room > 0 && z.inflate(ctx, input, room, ZFinish).status == ZBufError ==>
        Progress(z.inflate(ctx, input, room, ZFinish))
  }

  /**
   * The do-while loop of the one-shot inflate: a fresh 32768-byte chunk per
   * call with Z_FINISH; stop on any status other than Z_OK, Z_STREAM_END or
   * Z_BUF_ERROR; otherwise append and go on until Z_STREAM_END or until the
   * input is used up.
   */
  function FinishLoop(z: Zlib, ctx: Context, input: Bytes, pos: nat, produced: Bytes): (r: FinishPass)
    requires WellBehaved(z) && FinishProgress(z) && pos <= |input|
    decreases |input| - pos, ctx.backlog
  {
    var c := z.inflate(ctx, input[pos..], DefaultChunkSize, ZFinish);
    var next := pos + c.consumed;
    if c.status != ZOk && c.status != ZStreamEnd && c.status != ZBufError then
      FinishPass(c.next, next, c.status, produced)
    else if c.status != ZStreamEnd && next < |input| then
      FinishLoop(z, c.next, input, next, produced + c.output)
    else
      FinishPass(c.next, next, c.status, produced + c.output)
  }

  /** The one-shot loop feeds the decoder a prefix of the input, in order. */
  lemma {:induction false} FinishLoopFeedsInputInOrder(z: Zlib, ctx: Context, input: Bytes,
                                                       pos: nat, produced: Bytes)
    requires WellBehaved(z) && FinishProgress(z) && pos <= |input|
    ensures var r := FinishLoop(z, ctx, input, pos, produced);
      pos <= r.pos <= |input| && r.ctx.fed == ctx.fed + input[pos..r.pos]
    decreases |input| - pos, ctx.backlog
  {
    var c := z.inflate(ctx, input[pos..], DefaultChunkSize, ZFinish);
    var next := pos + c.consumed;
    FeedsNextBytes(ctx, input, pos, DefaultChunkSize, c);
    if c.status != ZStreamEnd && next < |input| &&
       (c.status == ZOk || c.status == ZBufError) {
      FinishLoopFeedsInputInOrder(z, c.next, input, next, produced + c.output);
      var r := FinishLoop(z, c.next, input, next, produced + c.output);
      FeedsConcat(ctx.fed, input, pos, next, r.pos);
    }
  }

  /**
   * Output is only added at the end, and a one-shot inflate that succeeds
   * stopped at stream end or with all input consumed.
   */
  lemma {:induction false} FinishLoopEndsAtStreamEndOrInputEnd(z: Zlib, ctx: Context, input: Bytes,
                                                               pos: nat, produced: Bytes)
    requires WellBehaved(z) && FinishProgress(z) && pos <= |input|
    ensures var r := FinishLoop(z, ctx, input, pos, produced);
      produced <= r.produced &&
      (r.status == ZOk || r.status == ZStreamEnd || r.status == ZBufError ==>
         r.status == ZStreamEnd || r.pos == |input|)
    decreases |input| - pos, ctx.backlog
  {
    var c := z.inflate(ctx, input[pos..], DefaultChunkSize, ZFinish);
    var next := pos + c.consumed;
    if !(c.status != ZOk && c.status != ZStreamEnd && c.status != ZBufError) &&
       c.status != ZStreamEnd && next < |input| {
      FinishLoopEndsAtStreamEndOrInputEnd(z, c.next, input, next, produced + c.output);
    }
  }

  /**
   * inflateSync / InflateSync.inflate: one fresh decoder over the whole
   * input, collecting the output of every call.
   */
  method InflateSync(z: Zlib, input: Bytes, initStatus: int) returns (r: Result<Bytes, SyncError>)
    requires WellBehaved(z) && FinishProgress(z)
    ensures initStatus != ZOk ==> r == Err(InitFailed)
    ensures initStatus == ZOk ==>
      var pass := FinishLoop(z, Fresh, input, 0, []);
      r == if pass.status == ZOk || pass.status == ZStreamEnd || pass.status == ZBufError
           then Ok(pass.produced) else Err(InflateFailed)
  {
    if initStatus != ZOk {
      return Err(InitFailed);
    }
    var ctx := Fresh;
    var pos: nat := 0;
    var out: Bytes := [];
    ghost var whole := FinishLoop(z, Fresh, input, 0, []);
    while true
      invariant pos <= |input|
      invariant FinishLoop(z, ctx, input, pos, out) == whole
      decreases |input| - pos, ctx.backlog
    {
      var c := z.inflate(ctx, input[pos..], DefaultChunkSize, ZFinish);
      ctx := c.next;
      pos := pos + c.consumed;
      if c.status != ZOk && c.status != ZStreamEnd && c.status != ZBufError {
        return Err(InflateFailed);
      }
      out := out + c.output;
      if !(c.status != ZStreamEnd && pos < |input|) {
        break;
      }
    }
    return Ok(out);
  }

  class InflateStream {
    const codec: Zlib
    /** the z_stream */
    var stream: Context
    var buffer: Bytes
    var output: Bytes
    var initialized: bool
    var finished: bool
    var lastError: int
    const chunkSize: ChunkSize
    var bytesRead: nat
    var bytesWritten: nat
    /** how often inflateEnd was called on the stream */
    ghost var ends: nat

    /** The stream is ended at most once, and never while it is still in use. */
    ghost predicate Valid()
      reads this
    {
      ends <= 1 && (initialized ==> ends == 0)
    }

    /**
     * A positive chunkSize option replaces the default, but only once
     * inflateInit2 (whose status is `initStatus`) has succeeded; a failing
     * status is recorded as the last error.
     */
    constructor (codec: Zlib, chunkSizeOption: Option<int>, initStatus: int)
      requires WellBehaved(codec)
      ensures this.codec == codec && stream == Fresh && buffer == [] && output == []
      ensures initialized == (initStatus == ZOk) && !finished && lastError == initStatus
      ensures chunkSize == if initStatus == ZOk && chunkSizeOption.Some? && chunkSizeOption.value > 0
                           then chunkSizeOption.value else DefaultChunkSize
      ensures bytesRead == 0 && bytesWritten == 0 && ends == 0 && Valid()
    {
      this.codec := codec;
      ends := 0;
      stream := Fresh;
      buffer := [];
      output := [];
      finished := false;
      bytesRead := 0;
      bytesWritten := 0;
      lastError := initStatus;
      initialized := initStatus == ZOk;
      chunkSize := if initStatus == ZOk && chunkSizeOption.Some? && chunkSizeOption.value > 0
                   then chunkSizeOption.value else DefaultChunkSize;
    }

    /**
     * The state after the decode loop ran over `buf` from context `ctx`,
     * starting from output `out`, counter `written` and last error `err`.
     */
    ghost predicate Drained(ctx: Context, buf: Bytes, out: Bytes, written: nat, err: int)
      requires WellBehaved(codec)
      reads this
    {
      var pass := SyncLoop(codec, ctx, buf, 0, chunkSize, []);
      stream == pass.ctx &&
      output == out + pass.produced &&
      bytesWritten == written + |pass.produced| &&
      lastError == (if IsDecoderError(pass.status) then pass.status else err)
    }

    /**
     * Appends the chunk and runs ProcessBuffer.  Refused (with no change)
     * when not initialised or finished; an empty chunk changes nothing.
     */
    method Push(chunk: Bytes) returns (r: Result<bool, StreamError>)
      requires WellBehaved(codec)
      modifies this`buffer, this`bytesRead, this`stream, this`output, this`bytesWritten, this`lastError
      ensures !old(initialized) ==> r == Err(NotInitialized) && unchanged(this)
      ensures old(initialized) && old(finished) ==> r == Err(StreamFinished) && unchanged(this)
      ensures old(initialized) && !old(finished) && |chunk| == 0 ==> r == Ok(false) && unchanged(this)
      ensures old(initialized) && !old(finished) && |chunk| > 0 ==>
        initialized && !finished && bytesRead == old(bytesRead) + |chunk| &&
        if HasZlibSuffix(old(buffer) + chunk) then
          r == Ok(true) && buffer == [] &&
          Drained(old(stream), old(buffer) + chunk, old(output), old(bytesWritten), old(lastError))
        else
          r == Ok(false) && buffer == old(buffer) + chunk && output == old(output) &&
          stream == old(stream) && bytesWritten == old(bytesWritten) && lastError == old(lastError)
    {
      if !initialized {
        return Err(NotInitialized);
      }
      if finished {
        return Err(StreamFinished);
      }
      if |chunk| == 0 {
        return Ok(false);
      }
      buffer := buffer + chunk;
      bytesRead := bytesRead + |chunk|;
      var processed := ProcessBuffer();
      return Ok(processed);
    }

    /**
     * Without the suffix: nothing happens.  With it: the whole buffer, the
     * suffix included, goes through the decode loop, the buffer is cleared
     * and the answer is true even when the decoder reported an error.
     */
    method ProcessBuffer() returns (processed: bool)
      requires WellBehaved(codec)
      modifies this`stream, this`buffer, this`output, this`bytesWritten, this`lastError
      ensures !HasZlibSuffix(old(buffer)) ==> !processed && unchanged(this)
      ensures HasZlibSuffix(old(buffer)) ==>
        processed && buffer == [] &&
        Drained(old(stream), old(buffer), old(output), old(bytesWritten), old(lastError))
    {
      if !HasZlibSuffix(buffer) {
        return false;
      }
      var ctx := stream;
      var pos: nat := 0;
      var room: ChunkSize := chunkSize;
      var produced: Bytes := [];
      var err := lastError;
      ghost var whole := SyncLoop(codec, ctx, buffer, 0, chunkSize, []);
      while true
        invariant pos <= |buffer|
        invariant SyncLoop(codec, ctx, buffer, pos, room, produced) == whole
        invariant err == old(lastError)
        decreases |buffer| - pos, ctx.backlog
      {
        var c := codec.inflate(ctx, buffer[pos..], room, ZSyncFlush);
        ctx := c.next;
        pos := pos + c.consumed;
        if IsDecoderError(c.status) {
          err := c.status;
          break;
        }
        produced := produced + c.output;
        if |c.output| == room && pos < |buffer| {
          room := 2 * room;
        }
        if !(pos < |buffer| && c.status == ZOk) {
          break;
        }
      }
      stream := ctx;
      output := output + produced;
      bytesWritten := bytesWritten + |produced|;
      lastError := err;
      buffer := [];
      return true;
    }

    /**
     * One Z_FINISH call over the buffered input, if there is any; its
     * status always becomes the last error and decides `finished`.
     */
    method Flush()
      requires WellBehaved(codec)
      modifies this`stream, this`lastError, this`output, this`bytesWritten, this`buffer, this`finished
      ensures !old(initialized) || old(buffer) == [] ==> unchanged(this)
      ensures old(initialized) && old(buffer) != [] ==>
        var c := codec.inflate(old(stream), old(buffer), chunkSize, ZFinish);
        stream == c.next && lastError == c.status &&
        output == old(output) + c.output && |output| <= |old(output)| + chunkSize &&
        bytesWritten == old(bytesWritten) + |c.output| &&
        buffer == [] && (finished <==> c.status == ZStreamEnd) &&
        initialized && bytesRead == old(bytesRead)
    {
      if !initialized {
        return;
      }
      if buffer != [] {
        var c := codec.inflate(stream, buffer, chunkSize, ZFinish);
        stream := c.next;
        lastError := c.status;
        output := output + c.output;
        bytesWritten := bytesWritten + |c.output|;
        buffer := [];
        finished := c.status == ZStreamEnd;
      }
    }

    /** inflateReset, with its status recorded, and all buffers and counters cleared. */
    method Reset()
      modifies this`lastError, this`stream, this`buffer, this`output, this`finished,
               this`bytesRead, this`bytesWritten
      ensures !old(initialized) ==> unchanged(this)
      ensures old(initialized) ==>
        lastError == codec.reset(old(stream)) && stream == Fresh &&
        buffer == [] && output == [] && !finished && initialized &&
        bytesRead == 0 && bytesWritten == 0
    {
      if initialized {
        lastError := codec.reset(stream);
        stream := Fresh;
        buffer := [];
        output := [];
        finished := false;
        bytesRead := 0;
        bytesWritten := 0;
      }
    }

    /** inflateEnd once: a second Close finds the stream uninitialised and does nothing. */
    method Close()
      requires Valid()
      modifies this
      ensures Valid()
      ensures !old(initialized) ==> unchanged(this)
      ensures old(initialized) ==>
        !initialized && finished && buffer == [] && output == [] && ends == 1 &&
        stream == old(stream) && lastError == old(lastError) &&
        bytesRead == old(bytesRead) && bytesWritten == old(bytesWritten)
    {
      if initialized {
        ends := ends + 1;
        initialized := false;
        buffer := [];
        output := [];
        finished := true;
      }
    }

    /**
     * Close and destructor of ZlibStream: inflateEnd only while initialised,
     * but the buffers are emptied and `finished` set every time.
     */
    method CleanupResources()
      requires Valid()
      modifies this
      ensures Valid() && ends == if old(initialized) then 1 else old(ends)
      ensures !initialized && finished && buffer == [] && output == []
      ensures stream == old(stream) && lastError == old(lastError)
      ensures bytesRead == old(bytesRead) && bytesWritten == old(bytesWritten)
    {
      if initialized {
        ends := ends + 1;
        initialized := false;
      }
      buffer := [];
      output := [];
      finished := true;
    }

    /** The destructor of DiscordInflateStream: inflateEnd only if Close has not run. */
    method Dispose()
      requires Valid()
      modifies this`initialized, this`ends
      ensures Valid() && !initialized
      ensures ends == if old(initialized) then 1 else old(ends)
    {
      if initialized {
        ends := ends + 1;
        initialized := false;
      }
    }

    /** A copy of the accumulated output (getBuffer and getResult). */
    method GetBuffer() returns (r: Bytes)
      ensures r == output
    {
      return output;
    }

    /** Empties the output and nothing else. */
    method ClearBuffer()
      modifies this`output
      ensures output == []
    {
      output := [];
    }
  }
}
