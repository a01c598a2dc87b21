// The zstd wrappers.  `ZstdStream` models the streaming decompressor
// (ZstdInflateStream in the zstd package and its copy ZstdStream in the
// addon): pushed bytes are appended to an input buffer, decoded as far as
// the library can, and the consumed prefix is trimmed.  Zstandard frames
// (section 3.1.1 of RFC 8878) delimit themselves, so no suffix is needed.
// `InflateOnce` models the one-shot ZstdInflateSync.inflate / inflateSync.

module ZstdInflate {
  import opened Common
  import opened StreamDecoder

  /** Values of size_t. */
  type SizeT = x: int | 0 <= x < 0x1_0000_0000_0000_0000

  /** The largest zstd error code: ZSTD_error_maxCode. */
  const ErrorMaxCode: nat := 120

  /** ZSTD_DStreamInSize(): a block (128 KiB) plus a block header. */
  const DefaultInBufferSize: nat := 131075
  /** ZSTD_DStreamOutSize(): one block. */
  const DefaultOutBufferSize: nat := 131072

  type BufferSize = n: nat | n > 0 witness 1

  /** ZSTD_isError: the top ErrorMaxCode values of size_t are error codes. */
  predicate IsErrorCode(code: SizeT)
  {
    code > 0x1_0000_0000_0000_0000 - ErrorMaxCode
  }

  /** What ZSTD_getFrameContentSize reports about a frame header. */
  datatype ContentSize = Known(size: nat) | Unknown | Invalid

  /**
   * The foreign zstd calls: ZSTD_decompressStream (its status is the size_t
   * it returns, 0 once a frame is complete), ZSTD_DCtx_reset,
   * ZSTD_getErrorName, ZSTD_getFrameContentSize, and ZSTD_decompress, which
   * answers its size_t result and the contents of the destination buffer of
   * the given capacity.
   */
  datatype Zstd = Zstd(
    decompressStream: (Context, Bytes, nat) -> Call<SizeT>,
    reset: Context -> SizeT,
    errorName: SizeT -> string,
    frameContentSize: Bytes -> ContentSize,
    decompress: (Bytes, nat) -> (SizeT, Bytes))

  /**
   * What one streaming call promises: the bounds of every decoder call,
   * and progress whenever it does not fail although it had input and room.
   */
  predicate StreamContract(ctx: Context, input: Bytes, room: nat, c: Call<SizeT>)
  {
    Respects(ctx, input, room, c) &&
    (!IsErrorCode(c.status) && |input| > 0 && room > 0 ==> Progress(c))
  }

  /** The model's hypothesis about the zstd library: every streaming call keeps that contract. */
  ghost predicate WellBehaved(z: Zstd)
  {
    forall ctx, input, room :: StreamContract(ctx, input, room, z.decompressStream(ctx, input, room))
  }

  /** Where the decode loop of ProcessBuffer stopped and what it collected. */
  datatype DrainPass = DrainPass(ctx: Context, pos: nat, produced: Bytes, frames: nat,
                                 hasOutput: bool, error: Option<SizeT>)

  /**
   * The while loop of ProcessBuffer from input position `pos`: while input
   * remains, decompress into a scratch buffer of `room` bytes; stop with
   * the code on an error; otherwise append the output, count a frame when
   * the call returned 0, and stop early when the call wrote nothing and the
   * input is used up.
   */
  function DrainLoop(z: Zstd, ctx: Context, buf: Bytes, pos: nat, room: BufferSize,
                     produced: Bytes, frames: nat, hasOutput: bool): (r: DrainPass)
    requires WellBehaved(z) && pos <= |buf|
    ensures pos <= r.pos <= |buf|
    ensures r.error.Some? ==> IsErrorCode(r.error.value)
    decreases |buf| - pos, ctx.backlog
  {
    if pos == |buf| then DrainPass(ctx, pos, produced, frames, hasOutput, None)
    else
      var c := z.decompressStream(ctx, buf[pos..], room);
      var next := pos + c.consumed;
      if IsErrorCode(c.status) then DrainPass(c.next, next, produced, frames, hasOutput, Some(c.status))
      else
        var frames' := if c.status == 0 then frames + 1 else frames;
        var hasOutput' := hasOutput || |c.output| > 0;
        if |c.output| == 0 && next == |buf| then
          DrainPass(c.next, next, produced + c.output, frames', hasOutput', None)
        else
          DrainLoop(z, c.next, buf, next, room, produced + c.output, frames', hasOutput')
  }

  /** The decoder is fed a prefix of the buffer, in order, and nothing else. */
  lemma {:induction false} DrainLoopFeedsBufferInOrder(z: Zstd, ctx: Context, buf: Bytes, pos: nat,
                                                       room: BufferSize, produced: Bytes,
                                                       frames: nat, hasOutput: bool)
    requires WellBehaved(z) && pos <= |buf|
    ensures var r := DrainLoop(z, ctx, buf, pos, room, produced, frames, hasOutput);
      r.ctx.fed == ctx.fed + buf[pos..r.pos]
    decreases |buf| - pos, ctx.backlog
  {
    if pos < |buf| {
      var c := z.decompressStream(ctx, buf[pos..], room);
      var next := pos + c.consumed;
      FeedsNextBytes(ctx, buf, pos, room, c);
      if !IsErrorCode(c.status) && !(|c.output| == 0 && next == |buf|) {
        var frames' := if c.status == 0 then frames + 1 else frames;
        var hasOutput' := hasOutput || |c.output| > 0;
        DrainLoopFeedsBufferInOrder(z, c.next, buf, next, room, produced + c.output, frames', hasOutput');
        var r := DrainLoop(z, c.next, buf, next, room, produced + c.output, frames', hasOutput');
        FeedsConcat(ctx.fed, buf, pos, next, r.pos);
      }
    }
  }

  /**
   * Without an error the loop consumes the whole buffer; output is only
   * added at the end; frames are only counted up; and the loop reports
   * output exactly when some call produced any.
   */
  lemma {:induction false} DrainLoopOutcome(z: Zstd, ctx: Context, buf: Bytes, pos: nat,
                                            room: BufferSize, produced: Bytes,
                                            frames: nat, hasOutput: bool)
    requires WellBehaved(z) && pos <= |buf|
    ensures var r := DrainLoop(z, ctx, buf, pos, room, produced, frames, hasOutput);
      (r.error.None? ==> r.pos == |buf|) &&
      produced <= r.produced && frames <= r.frames &&
      (r.hasOutput <==> hasOutput || |r.produced| > |produced|)
    decreases |buf| - pos, ctx.backlog
  {
    if pos < |buf| {
      var c := z.decompressStream(ctx, buf[pos..], room);
      var next := pos + c.consumed;
      if !IsErrorCode(c.status) && !(|c.output| == 0 && next == |buf|) {
        var frames' := if c.status == 0 then frames + 1 else frames;
        var hasOutput' := hasOutput || |c.output| > 0;
        DrainLoopOutcome(z, c.next, buf, next, room, produced + c.output, frames', hasOutput');
      }
    }
  }

  /** A buffer whose first call fails yields nothing, whatever the decoder would have written. */
  lemma FirstErrorYieldsNothing(z: Zstd, ctx: Context, buf: Bytes, room: BufferSize)
    requires WellBehaved(z) && |buf| > 0
    requires IsErrorCode(z.decompressStream(ctx, buf, room).status)
    ensures var r := DrainLoop(z, ctx, buf, 0, room, [], 0, false);
      r.error == Some(z.decompressStream(ctx, buf, room).status) && r.produced == [] &&
      r.frames == 0 && !r.hasOutput
  {
    assert buf[0..] == buf;
  }

  /** std::vector::resize: truncate, or pad with zero bytes. */
  function Resized(data: Bytes, n: nat): (r: Bytes)
    ensures |r| == n
    ensures forall i :: 0 <= i < n && i < |data| ==> r[i] == data[i]
    ensures forall i :: |data| <= i < n ==> r[i] == 0
  {
    if n <= |data| then data[..n] else data + Zeros(n - |data|)
  }

  /** The destination capacity of the one-shot decoder for a valid frame header. */
  function Capacity(size: ContentSize, inputLength: nat): (n: nat)
    requires !size.Invalid?
  {
    if size.Unknown? then 4 * inputLength else size.size
  }

  datatype SyncError = EmptyInput | InvalidFrame | DecompressFailed(message: string)

  /**
   * ZstdInflateSync.inflate and inflateSync: reject empty input and an
   * invalid frame header, size the destination by the declared content
   * size (four times the input when it is unknown), decompress, and cut
   * the destination to the length the decoder reports.
   */
  function InflateOnce(z: Zstd, input: Bytes): (r: Result<Bytes, SyncError>)
    ensures r == Err(EmptyInput) <==> |input| == 0
    ensures r == Err(InvalidFrame) <==> |input| > 0 && z.frameContentSize(input).Invalid?
    ensures r.Err? && r.error.DecompressFailed? <==>
      |input| > 0 && !z.frameContentSize(input).Invalid? &&
      IsErrorCode(z.decompress(input, Capacity(z.frameContentSize(input), |input|)).0)
    ensures r.Ok? ==>
      var (result, dst) := z.decompress(input, Capacity(z.frameContentSize(input), |input|));
      |r.value| == result && (result <= |dst| ==> r.value == dst[..result])
  {
    if |input| == 0 then Err(EmptyInput)
    else
      var size := z.frameContentSize(input);
      if size.Invalid? then Err(InvalidFrame)
      else
        var (result, dst) := z.decompress(input, Capacity(size, |input|));
        if IsErrorCode(result) then Err(DecompressFailed("Zstd decompression failed: " + z.errorName(result)))
        else Ok(Resized(dst, result))
  }

  /**
   * The model's hypothesis about ZSTD_decompress: it fills a destination of
   * exactly the capacity it is given, and a result that is not an error
   * code is a decompressed size within that capacity.
   */
  ghost predicate DecompressFits(z: Zstd)
  {
    forall input, cap ::
      |z.decompress(input, cap).1| == cap &&
      (!IsErrorCode(z.decompress(input, cap).0) ==> z.decompress(input, cap).0 <= cap)
  }

  /**
   * A successful one-shot inflate returns exactly the first `result` bytes
   * the decoder wrote, never more than the capacity the wrapper allocated:
   * the declared content size, or four times the input when it is unknown.
   */
  lemma InflateOnceFitsCapacity(z: Zstd, input: Bytes)
    requires DecompressFits(z)
    ensures var r := InflateOnce(z, input);
      r.Ok? ==>
        var cap := Capacity(z.frameContentSize(input), |input|);
        var (result, dst) := z.decompress(input, cap);
        r.value == dst[..result] && |r.value| <= cap &&
        (z.frameContentSize(input).Known? ==> |r.value| <= z.frameContentSize(input).size) &&
        (z.frameContentSize(input).Unknown? ==> |r.value| <= 4 * |input|)
  {
    if InflateOnce(z, input).Ok? {
      var cap := Capacity(z.frameContentSize(input), |input|);
      var (result, dst) := z.decompress(input, cap);
      assert !IsErrorCode(result);
      assert result <= |dst|;
    }
  }

  /**
   * The decode loop of ProcessBuffer over the whole buffer, on local
   * copies of the decoder context, the output and the frame count.
   */
  method Drain(z: Zstd, ctx0: Context, buf: Bytes, room: BufferSize) returns (pass: DrainPass)
    requires WellBehaved(z)
    ensures pass == DrainLoop(z, ctx0, buf, 0, room, [], 0, false)
  {
    var ctx := ctx0;
    var pos: nat := 0;
    var produced: Bytes := [];
    var frames: nat := 0;
    var has := false;
    while pos < |buf|
      invariant pos <= |buf|
      invariant DrainLoop(z, ctx, buf, pos, room, produced, frames, has) ==
                DrainLoop(z, ctx0, buf, 0, room, [], 0, false)
      decreases |buf| - pos, ctx.backlog
    {
      var c := z.decompressStream(ctx, buf[pos..], room);
      ctx := c.next;
      pos := pos + c.consumed;
      if IsErrorCode(c.status) {
        return DrainPass(ctx, pos, produced, frames, has, Some(c.status));
      }
      if |c.output| > 0 {
        produced := produced + c.output;
        has := true;
      } else {
        assert produced + c.output == produced;
      }
      if c.status == 0 {
        frames := frames + 1;
      }
      if |c.output| == 0 && pos == |buf| {
        break;
      }
    }
    return DrainPass(ctx, pos, produced, frames, has, None);
  }

  datatype StreamError = NotInitialized | StreamFinished

  class ZstdStream {
    const codec: Zstd
    /** the ZSTD_DStream's observable context */
    var stream: Context
    /** dstream_ is non-null */
    var handleLive: bool
    /** how often ZSTD_freeDStream was called on the handle */
    ghost var frees: nat
    var initialized: bool
    var finished: bool
    var lastError: SizeT
    var inBufferSize: BufferSize
    var outBufferSize: BufferSize
    var inputBuffer: Bytes
    var output: Bytes
    var bytesRead: nat
    var bytesWritten: nat
    var framesProcessed: nat

    /** The handle is freed at most once, and never while it is still held. */
    ghost predicate Valid()
      reads this
    {
      frees <= 1 && (handleLive ==> frees == 0)
    }

    /**
     * ZSTD_createDStream may fail (`created` false); ZSTD_initDStream's
     * result is `initResult`.  Only a full success initialises the stream
     * and adopts the positive buffer sizes given as options; a failing
     * init result is recorded as the last error.
     */
    constructor (codec: Zstd, inSizeOption: Option<int>, outSizeOption: Option<int>,
                 created: bool, initResult: SizeT)
      ensures Valid() && this.codec == codec && stream == Fresh
      ensures handleLive == created && initialized == (created && !IsErrorCode(initResult))
      ensures lastError == if created && IsErrorCode(initResult) then initResult else 0
      ensures inBufferSize == if initialized && inSizeOption.Some? && inSizeOption.value > 0
                              then inSizeOption.value else DefaultInBufferSize
      ensures outBufferSize == if initialized && outSizeOption.Some? && outSizeOption.value > 0
                               then outSizeOption.value else DefaultOutBufferSize
      ensures !finished && inputBuffer == [] && output == []
      ensures bytesRead == 0 && bytesWritten == 0 && framesProcessed == 0
    {
      this.codec := codec;
      stream := Fresh;
      frees := 0;
      finished := false;
      inputBuffer := [];
      output := [];
      bytesRead := 0;
      bytesWritten := 0;
      framesProcessed := 0;
      inBufferSize := DefaultInBufferSize;
      outBufferSize := DefaultOutBufferSize;
      handleLive := created;
      initialized := false;
      lastError := 0;
      if created {
        if IsErrorCode(initResult) {
          lastError := initResult;
        } else {
          initialized := true;
          if inSizeOption.Some? && inSizeOption.value > 0 {
            inBufferSize := inSizeOption.value;
          }
          if outSizeOption.Some? && outSizeOption.value > 0 {
            outBufferSize := outSizeOption.value;
          }
        }
      }
    }

    /**
     * The state after the decode loop ran over `buf` from context `ctx`,
     * starting from output `out`, counters `written` and `frames`, and last
     * error `err`: output and counters include every call before an error;
     * after an error the buffer is left untrimmed and the code is recorded,
     * otherwise the consumed prefix is removed.
     */
    ghost predicate Drained(ctx: Context, buf: Bytes, out: Bytes, written: nat, frames: nat,
                            err: SizeT, hasOutput: bool)
      requires WellBehaved(codec)
      reads this
    {
      var pass := DrainLoop(codec, ctx, buf, 0, outBufferSize, [], 0, false);
      stream == pass.ctx &&
      output == out + pass.produced &&
      bytesWritten == written + |pass.produced| &&
      framesProcessed == frames + pass.frames &&
      if pass.error.Some? then
        lastError == pass.error.value && inputBuffer == buf && !hasOutput
      else
        lastError == err && inputBuffer == buf[pass.pos..] && hasOutput == pass.hasOutput
    }

    /**
     * Appends the chunk, counts it and runs ProcessBuffer.  Refused (with
     * no change) when not initialised or finished; an empty chunk changes
     * nothing.
     */
    method Push(chunk: Bytes) returns (r: Result<bool, StreamError>)
      requires WellBehaved(codec)
      modifies this
      ensures !old(initialized) ==> r == Err(NotInitialized) && unchanged(this)
      ensures old(initialized) && old(finished) ==> r == Err(StreamFinished) && unchanged(this)
      ensures old(initialized) && !old(finished) && |chunk| == 0 ==> r == Ok(false) && unchanged(this)
      ensures old(initialized) && !old(finished) && |chunk| > 0 ==>
        r.Ok? && initialized && !finished && handleLive == old(handleLive) && frees == old(frees) &&
        bytesRead == old(bytesRead) + |chunk| &&
        Drained(old(stream), old(inputBuffer) + chunk, old(output), old(bytesWritten),
                old(framesProcessed), old(lastError), r.value)
    {
      if !initialized {
        return Err(NotInitialized);
      }
      if finished {
        return Err(StreamFinished);
      }
      if |chunk| == 0 {
        return Ok(false);
      }
      inputBuffer := inputBuffer + chunk;
      bytesRead := bytesRead + |chunk|;
      var processed := ProcessBuffer();
      return Ok(processed);
    }

    /**
     * An empty buffer answers false without calling the decoder; otherwise
     * the decode loop runs over the whole buffer.
     */
    method ProcessBuffer() returns (hasOutput: bool)
      requires WellBehaved(codec)
      modifies this`stream, this`inputBuffer, this`output, this`bytesWritten,
               this`framesProcessed, this`lastError
      ensures old(inputBuffer) == [] ==> !hasOutput && unchanged(this)
      ensures old(inputBuffer) != [] ==>
        Drained(old(stream), old(inputBuffer), old(output), old(bytesWritten),
                old(framesProcessed), old(lastError), hasOutput)
    {
      if inputBuffer == [] {
        return false;
      }
      var pass := Drain(codec, stream, inputBuffer, outBufferSize);
      stream := pass.ctx;
      output := output + pass.produced;
      bytesWritten := bytesWritten + |pass.produced|;
      framesProcessed := framesProcessed + pass.frames;
      if pass.error.Some? {
        lastError := pass.error.value;
        return false;
      }
      if pass.pos > 0 {
        inputBuffer := inputBuffer[pass.pos..];
      }
      return pass.hasOutput;
    }

    /** Runs ProcessBuffer when initialised; its answer is dropped. */
    method Flush()
      requires WellBehaved(codec)
      modifies this`stream, this`inputBuffer, this`output, this`bytesWritten,
               this`framesProcessed, this`lastError
      ensures !old(initialized) || old(inputBuffer) == [] ==> unchanged(this)
      ensures old(initialized) && old(inputBuffer) != [] ==>
        exists hasOutput :: Drained(old(stream), old(inputBuffer), old(output), old(bytesWritten),
                                    old(framesProcessed), old(lastError), hasOutput)
    {
      if initialized {
        var _ := ProcessBuffer();
      }
    }

    /**
     * ZSTD_DCtx_reset while initialised and holding the handle: its result
     * becomes the last error, and buffers, counters and `finished` are
     * cleared.
     */
    method Reset()
      modifies this
      ensures !(old(initialized) && old(handleLive)) ==> unchanged(this)
      ensures old(initialized) && old(handleLive) ==>
        lastError == codec.reset(old(stream)) && stream == Fresh &&
        inputBuffer == [] && output == [] && !finished &&
        bytesRead == 0 && bytesWritten == 0 && framesProcessed == 0 &&
        initialized && handleLive && frees == old(frees) &&
        inBufferSize == old(inBufferSize) && outBufferSize == old(outBufferSize)
    {
      if initialized && handleLive {
        lastError := codec.reset(stream);
        stream := Fresh;
        inputBuffer := [];
        output := [];
        finished := false;
        bytesRead := 0;
        bytesWritten := 0;
        framesProcessed := 0;
      }
    }

    /**
     * Frees the handle once: a second Close finds it null and does nothing.
     * Afterwards the stream is uninitialised, so Push is refused.
     */
    method Close()
      requires Valid()
      modifies this
      ensures Valid()
      ensures !old(handleLive) ==> unchanged(this)
      ensures old(handleLive) ==>
        !handleLive && frees == 1 && !initialized && finished &&
        inputBuffer == [] && output == [] &&
        stream == old(stream) && lastError == old(lastError) &&
        bytesRead == old(bytesRead) && bytesWritten == old(bytesWritten) &&
        framesProcessed == old(framesProcessed)
    {
      if handleLive {
        frees := frees + 1;
        handleLive := false;
        initialized := false;
        inputBuffer := [];
        output := [];
        finished := true;
      }
    }

    /** The destructor: frees the handle only if Close has not already done so. */
    method Dispose()
      requires Valid()
      modifies this`handleLive, this`frees
      ensures Valid() && !handleLive
      ensures frees == if old(handleLive) then 1 else old(frees)
    {
      if handleLive {
        frees := frees + 1;
        handleLive := false;
      }
    }

    /** The `message` accessor: the library's name of the last error, if it is an error code. */
    function ErrorMessage(): (m: Option<string>)
      reads this
      ensures m.Some? <==> lastError != 0 && IsErrorCode(lastError)
      ensures m.Some? ==> m.value == codec.errorName(lastError)
    {
      if lastError != 0 && IsErrorCode(lastError) then Some(codec.errorName(lastError)) else None
    }

    /** A copy of the accumulated output. */
    method GetBuffer() returns (r: Bytes)
      ensures r == output
    {
      return output;
    }

    /** Empties the output and nothing else. */
    method ClearBuffer()
      modifies this`output
      ensures output == []
    {
      output := [];
    }
  }

  /** After a push whose decode loop failed, the stream has an error message. */
  lemma FailedPassHasMessage(s: ZstdStream, ctx: Context, buf: Bytes, out: Bytes, written: nat,
                             frames: nat, err: SizeT, hasOutput: bool)
    requires WellBehaved(s.codec)
    requires s.Drained(ctx, buf, out, written, frames, err, hasOutput)
    requires DrainLoop(s.codec, ctx, buf, 0, s.outBufferSize, [], 0, false).error.Some?
    ensures s.ErrorMessage().Some? && !hasOutput && s.inputBuffer == buf
  {
  }

  /** After a push whose decode loop did not fail, the input buffer is empty. */
  lemma CleanPassEmptiesBuffer(s: ZstdStream, ctx: Context, buf: Bytes, out: Bytes, written: nat,
                               frames: nat, err: SizeT, hasOutput: bool)
    requires WellBehaved(s.codec)
    requires s.Drained(ctx, buf, out, written, frames, err, hasOutput)
    requires DrainLoop(s.codec, ctx, buf, 0, s.outBufferSize, [], 0, false).error.None?
    ensures s.inputBuffer == [] && s.lastError == err
    ensures hasOutput <==> |s.output| > |out|
    ensures s.stream.fed == ctx.fed + buf
  {
    DrainLoopOutcome(s.codec, ctx, buf, 0, s.outBufferSize, [], 0, false);
    DrainLoopFeedsBufferInOrder(s.codec, ctx, buf, 0, s.outBufferSize, [], 0, false);
    assert buf[0..|buf|] == buf;
  }
}
