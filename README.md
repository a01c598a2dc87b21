# nyxo.js native voice and gateway addons, modelled in Dafny

This project models the C++ state machines that the nyxo.js native addons
wrap around foreign codec and cipher libraries, and proves what they
promise. There are four families.

- **Voice transport cipher** (`TransportCrypto`, file `transport_crypto.dfy`).
  - Models `VoiceTransportCrypto`: key validation, mode selection and the
    32-bit nonce counter.
  - The AEAD nonce is 8 (AES-256-GCM) or 20 (XChaCha20-Poly1305) zero
    bytes followed by the counter in big-endian order.
  - A sealed packet carries those 4 counter bytes at its end.
  - The 12-byte RTP fixed header (section 5.1 of RFC 3550) is the
    associated data.
  - libsodium's AEADs are an abstract `Aead` pair of functions. The
    hypothesis `Sound` says that opening inverts sealing and that the
    sealed length is the plaintext plus a 16-byte tag.
- **Suffix-framed inflate stream** (`ZlibInflate`, file `zlib_inflate.dfy`).
  - Models `DiscordInflateStream`, and the older `ZlibStream`, which has
    the same state machine without the byte counters.
  - Chunks accumulate until the buffer ends in `00 00 FF FF`, the empty
    stored block of a DEFLATE sync flush (section 3.2.4 of RFC 1951).
  - The whole buffer is then decoded in a loop, and the output is appended
    to an accumulator.
  - Also models the one-shot `inflateSync` loop.
- **Self-framed zstd stream** (`ZstdInflate`, file `zstd_inflate.dfy`).
  - Models `ZstdInflateStream` and its copy `ZstdStream`.
  - Input is appended and decoded as far as the library can. The consumed
    prefix is trimmed. Frames (section 3.1.1 of RFC 8878) are counted when
    the decoder returns 0.
  - Also models the one-shot output-size rule of `ZstdInflateSync.inflate`
    and `inflateSync`.
- **Opus wrapper** (`OpusWrapper`, file `opus_wrapper.dfy`).
  - The PCM sanity check and the packet check (sections 3.1 and 3.2.1 of
    RFC 6716).
  - The range and enumeration checks of every encoder and decoder control.
  - The constructor checks for 48 kHz stereo.
  - The handle, initialisation and last-packet-duration state kept by
    `Destroy`, `Reset` and `Decode`.

**How the libraries are modelled.**
- A decoder's internal state is abstracted as a `StreamDecoder.Context`
  (file `stream_decoder.dfy`). It holds every byte the decoder has consumed
  and the number of decoded bytes it still holds back for lack of output
  room.
- zlib's `inflate` and zstd's `ZSTD_decompressStream` are function values
  over that context.
- The model relies on these hypotheses about the libraries, used as `requires`:
  - `ZlibInflate.WellBehaved`, `ZstdInflate.WellBehaved` and
    `StreamDecoder.Respects`: a call consumes at most its input, in order;
    it writes at most its room; and it reports progress unless its status
    says otherwise.
  - `ZlibInflate.FinishProgress`: under `Z_FINISH`, a `Z_BUF_ERROR` with
    input and room left still made progress.
  - `ZstdInflate.DecompressFits`: `ZSTD_decompress` fills a destination of
    the capacity it is given, and a result that is not an error code is a
    size within that capacity.
- The three decode loops (the zlib stream's `Z_SYNC_FLUSH` loop, the zlib
  one-shot `Z_FINISH` loop and the zstd stream's loop) terminate only
  because of these hypotheses. Their measure is the unconsumed input, then
  the held-back output. A library that broke them could keep the source's
  loops spinning.
- opus's `*_create`, `opus_encode`, `opus_decode` and `*_ctl` are called
  once per operation. Their answers are parameters of the methods.
- Shared values are in `common.dfy`: bytes, `uint32_t`, big-endian
  encoding, `Option`/`Result`.

**Counters.** Ghost counters `ends`, `frees` and `destroys` count the calls
to `inflateEnd`, `ZSTD_freeDStream` and `opus_*_destroy`. Each class's
`Valid()` says that the handle is released at most once and never while it
is in use.

**Behaviour modelled as the code has it.**
- The decode loop of the zlib stream treats `Z_STREAM_END` like an error.
  The output of that call is not appended, and the status is recorded as
  the last error (`StreamEndDropsItsOutput`).
- The zlib one-shot loop stops as soon as the input is used up, even if
  the decoder still holds output.
- The zstd stream keeps its whole buffer untrimmed after a decoder error,
  including the part the decoder already consumed.
- The zstd loop's "no output and no input left" early exit can only fire
  when the loop condition is about to fail anyway.

## Model

| member | source | states |
|---|---|---|
| Common.Be32RoundTrip | packages/opus/native/crypto.cpp:104-118 | decoding the 4 network-order bytes of a `uint32_t` gives the value back |
| Common.FromBe32RoundTrip | packages/opus/native/crypto.cpp:104-118 | any 4 bytes are the network-order encoding of the value they denote |
| Common.Be32Injective | packages/opus/native/crypto.cpp:104-110 | distinct counters have distinct wire encodings |
| TransportCrypto.TagSize | packages/opus/native/crypto.cpp:634-643 | the tag is 16 bytes for either AEAD mode and 0 exactly when no mode is set |
| TransportCrypto.ModeName | packages/opus/native/crypto.cpp:645-654 | the name of a mode selects that mode again; without a mode the name is "none", which selects nothing |
| TransportCrypto.SupportedModes | packages/opus/native/crypto.cpp:703-718 | XChaCha is always listed, AES-GCM exactly when the platform supports it, and every listed name selects a mode |
| TransportCrypto.ValidateMode | packages/opus/native/crypto.cpp:736-752 | a name is accepted iff it is among the supported modes |
| TransportCrypto.AeadNonceLayout | packages/opus/native/crypto.cpp:393-397 | the nonce is 12 (AES) or 24 (XChaCha) bytes: 8 or 20 zero bytes, then the counter in big-endian order |
| TransportCrypto.NonceInjective | packages/opus/native/crypto.cpp:393-397 | distinct counter values give distinct AEAD nonces |
| TransportCrypto.AdvanceAdds | packages/opus/native/crypto.cpp:384 | k successful packets advance the counter by k modulo 2^32 |
| TransportCrypto.NonceRepeatsOnlyAfterWrap | packages/opus/native/crypto.cpp:384 | a nonce value comes back only after 2^32 increments |
| TransportCrypto.SealPacketLayout | packages/opus/native/crypto.cpp:389-457 | a sealed packet is payload + 16 + 4 bytes and ends in the big-endian counter, which decodes back to the counter |
| TransportCrypto.RoundTrip | packages/opus/native/crypto.cpp:389-632 | if opening inverts sealing, opening a sealed packet with the same key, mode and header gives the payload back, for either mode |
| TransportCrypto.InitialKeyIsNotValid | packages/opus/native/crypto.cpp:190-199 | the all-zero key the object starts with would itself be rejected by key validation |
| TransportCrypto.VoiceTransportCrypto.constructor | packages/opus/native/crypto.cpp:146-181 | a known mode name or none initialises, with a 32-byte zero key and counter 0; an unknown name leaves the object uninitialised |
| TransportCrypto.VoiceTransportCrypto.Dispose | packages/opus/native/crypto.cpp:183-188 | the destructor leaves every key byte zero |
| TransportCrypto.VoiceTransportCrypto.ValidateSecretKey | packages/opus/native/crypto.cpp:244-259 | a key is accepted iff it is exactly 32 bytes with at least one non-zero byte |
| TransportCrypto.VoiceTransportCrypto.SetSecretKey | packages/opus/native/crypto.cpp:201-242 | validation comes first; a rejected key, or an uninitialised object, leaves the stored key unchanged; an accepted key becomes the stored key |
| TransportCrypto.VoiceTransportCrypto.SetMode | packages/opus/native/crypto.cpp:261-286 | succeeds iff the name is a supported mode; on success the mode's name is the given name; AES is refused exactly when unavailable; any other name is an unsupported mode; failures leave the mode unchanged |
| TransportCrypto.VoiceTransportCrypto.SetNonce | packages/opus/native/crypto.cpp:288-298 | the counter becomes the number modulo 2^32 |
| TransportCrypto.VoiceTransportCrypto.GetNonce | packages/opus/native/crypto.cpp:672-674 | reads the counter without changing it |
| TransportCrypto.VoiceTransportCrypto.IncrementNonce | packages/opus/native/crypto.cpp:676-679 | the counter advances by one modulo 2^32, and the new value is returned |
| TransportCrypto.VoiceTransportCrypto.Reset | packages/opus/native/crypto.cpp:681-684 | the counter becomes 0 |
| TransportCrypto.VoiceTransportCrypto.Encrypt | packages/opus/native/crypto.cpp:300-387 | each failure (uninitialised, no mode, header under 12 bytes, sealing failed) is reported and leaves the counter alone; success returns the sealed packet for the old counter and advances the counter by one |
| TransportCrypto.VoiceTransportCrypto.Decrypt | packages/opus/native/crypto.cpp:459-548 | fails when uninitialised, without a mode, with a header under 12 bytes or a blob shorter than tag + 4; otherwise opens with the nonce carried in the blob; the counter is never touched |
| ZlibInflate.SuffixRecognised | packages/zlib/native/zlib.cpp:269-279 | every buffer ending in 00 00 FF FF is recognised as a complete message |
| ZlibInflate.SuffixOnlyWhenMarked | packages/zlib/native/zlib.cpp:602-612 | a recognised buffer is some prefix followed by 00 00 FF FF |
| ZlibInflate.SuffixDependsOnTail | src/native/zlib.cpp:235-245 | once the new chunk has 4 bytes, only the chunk decides, whatever was buffered before |
| ZlibInflate.SyncLoopFeedsBufferInOrder | packages/zlib/native/zlib.cpp:230-260 | the decode loop feeds the decoder a prefix of the buffer, in order, and nothing else |
| ZlibInflate.SyncLoopOutcome | packages/zlib/native/zlib.cpp:237-260 | output is only extended at its end, and the loop ends with the buffer consumed or a status other than Z_OK |
| ZlibInflate.SyncLoopConsumesAllOnOk | src/native/zlib.cpp:193-233 | when the loop ends on Z_OK, the decoder has been fed the whole buffer |
| ZlibInflate.StreamEndDropsItsOutput | packages/zlib/native/zlib.cpp:245-248 | a call that reports Z_STREAM_END appends nothing and is recorded as an error |
| ZlibInflate.FinishLoopFeedsInputInOrder | packages/zlib/native/zlib.cpp:471-489 | the one-shot loop feeds the decoder a prefix of the input, in order |
| ZlibInflate.FinishLoopEndsAtStreamEndOrInputEnd | packages/zlib/native/zlib.cpp:552-569 | output only grows at its end; a successful one-shot inflate stopped at stream end or with all input consumed |
| ZlibInflate.InflateSync | packages/zlib/native/zlib.cpp:499-575 | an init failure is an error; otherwise the result is the output of the Z_FINISH loop, or an error if a call returned any other status than Z_OK, Z_STREAM_END or Z_BUF_ERROR |
| ZlibInflate.InflateStream.constructor | packages/zlib/native/zlib.cpp:106-170 | initialised iff inflateInit2 succeeded, whose status is recorded; a positive chunk size replaces 32768 only then; empty buffers and zero counters |
| ZlibInflate.InflateStream.Push | packages/zlib/native/zlib.cpp:172-221 | refused without change when uninitialised or finished; an empty chunk changes nothing; otherwise the chunk is counted and appended, and the buffer is decoded and cleared exactly when it ends in the suffix |
| ZlibInflate.InflateStream.ProcessBuffer | packages/zlib/native/zlib.cpp:223-267 | without the suffix nothing changes; with it the whole buffer is decoded, the output and bytes_written grow by the same bytes, a decoder error is recorded, and the buffer is cleared with true returned |
| ZlibInflate.InflateStream.Flush | packages/zlib/native/zlib.cpp:281-311 | no-op when uninitialised or the buffer is empty; otherwise one Z_FINISH call whose status is recorded, at most chunk_size bytes appended, the buffer cleared, and finished iff stream end |
| ZlibInflate.InflateStream.Reset | packages/zlib/native/zlib.cpp:313-328 | records inflateReset's status and clears both buffers, finished and both counters |
| ZlibInflate.InflateStream.Close | packages/zlib/native/zlib.cpp:330-339 | ends the decoder only when initialised (a second Close does nothing); afterwards uninitialised and finished, with empty buffers |
| ZlibInflate.InflateStream.CleanupResources | src/native/zlib.cpp:338-349 | ends the decoder at most once, and always empties both buffers and sets finished |
| ZlibInflate.InflateStream.Dispose | packages/zlib/native/zlib.cpp:141-145 | the destructor ends the decoder only if Close has not |
| ZlibInflate.InflateStream.GetBuffer | packages/zlib/native/zlib.cpp:341-363 | returns the accumulated output |
| ZlibInflate.InflateStream.ClearBuffer | packages/zlib/native/zlib.cpp:365-368 | empties the output and nothing else |
| ZstdInflate.DrainLoop | packages/zstd/native/zstd.cpp:248-281 | the loop stops within the buffer, and a reported error is an error code |
| ZstdInflate.DrainLoopFeedsBufferInOrder | packages/zstd/native/zstd.cpp:248-281 | the decoder is fed a prefix of the buffer, in order |
| ZstdInflate.DrainLoopOutcome | src/native/zstd.cpp:224-253 | without an error the whole buffer is consumed; output only grows at its end; frames only count up; the result is true iff some call produced output |
| ZstdInflate.FirstErrorYieldsNothing | packages/zstd/native/zstd.cpp:259-262 | a buffer whose first call fails produces nothing, counts no frame and records that call's code |
| ZstdInflate.Resized | packages/zstd/native/zstd.cpp:482-483 | vector resize: the new length, the old bytes kept, zero padding |
| ZstdInflate.InflateOnce | packages/zstd/native/zstd.cpp:424-486 | empty input and an invalid frame header are rejected; a decoder error code fails; otherwise the result has exactly the reported length and is the start of the decoded buffer |
| ZstdInflate.InflateOnceFitsCapacity | packages/zstd/native/zstd.cpp:459-483 | if the decoder keeps within its destination, a successful one-shot inflate is exactly the first `result` bytes it wrote, at most the capacity: the declared content size, or 4 times the input when unknown |
| ZstdInflate.Drain | packages/zstd/native/zstd.cpp:248-281 | the loop on local variables computes exactly the pass the loop specification describes |
| ZstdInflate.ZstdStream.constructor | packages/zstd/native/zstd.cpp:109-179 | initialised only when the stream was created and its init did not fail, whose code is recorded otherwise; positive buffer sizes replace the defaults only then |
| ZstdInflate.ZstdStream.Push | packages/zstd/native/zstd.cpp:181-230 | refused without change when uninitialised or finished; an empty chunk changes nothing; otherwise the chunk is counted and appended and the buffer decoded |
| ZstdInflate.ZstdStream.ProcessBuffer | packages/zstd/native/zstd.cpp:232-289 | an empty buffer returns false without a decoder call; otherwise output, bytes_written and frames_processed grow together; an error is recorded and the buffer kept; otherwise exactly the consumed prefix is trimmed |
| ZstdInflate.ZstdStream.Flush | src/native/zstd.cpp:266-272 | runs the decode pass only when initialised |
| ZstdInflate.ZstdStream.Reset | packages/zstd/native/zstd.cpp:308-324 | records the reset result and clears both buffers, all three counters and finished |
| ZstdInflate.ZstdStream.Close | src/native/zstd.cpp:292-302 | frees the handle only while it is held (a second Close does nothing); afterwards uninitialised and finished, so Push is refused |
| ZstdInflate.ZstdStream.Dispose | src/native/zstd.cpp:131-136 | the destructor frees the handle only if Close has not |
| ZstdInflate.ZstdStream.ErrorMessage | packages/zstd/native/zstd.cpp:360-366 | a message exists iff the last error is a non-zero error code, and it is the library's name for it |
| ZstdInflate.ZstdStream.GetBuffer | packages/zstd/native/zstd.cpp:338-349 | returns the accumulated output |
| ZstdInflate.ZstdStream.ClearBuffer | packages/zstd/native/zstd.cpp:351-354 | empties the output and nothing else |
| ZstdInflate.FailedPassHasMessage | packages/zstd/native/zstd.cpp:259-262 | after a failed pass there is an error message, the result is false and the buffer is untrimmed |
| ZstdInflate.CleanPassEmptiesBuffer | packages/zstd/native/zstd.cpp:283-288 | after a pass without error the buffer is empty, the decoder was fed all of it, and the result is true iff output grew |
| OpusWrapper.ValidatePcmInput | packages/opus/native/opus.cpp:327-348 | true iff the buffer is non-null, the frame size is positive, fewer than 90% of the samples are zero and fewer than 10% are at full scale |
| OpusWrapper.CountZeros | packages/opus/native/opus.cpp:337-343 | the number of silent samples never exceeds the number of samples |
| OpusWrapper.CountClipped | packages/opus/native/opus.cpp:337-343 | the number of full-scale samples never exceeds the number of samples |
| OpusWrapper.CountsAreExclusive | packages/opus/native/opus.cpp:337-343 | a sample counts as silent or as clipped, never both |
| OpusWrapper.SilenceCountsEverySample | packages/opus/native/opus.cpp:337-343 | in an all-zero frame every sample counts as silent and none as clipped |
| OpusWrapper.CleanSamplesCountNothing | packages/opus/native/opus.cpp:337-343 | a frame with no zero and no full-scale sample counts nothing |
| OpusWrapper.SilentFrameRejected | packages/opus/native/opus.cpp:345-347 | a silent frame is always rejected |
| OpusWrapper.CleanFrameAccepted | packages/opus/native/opus.cpp:345-347 | a full voice frame with no zero and no full-scale sample is accepted |
| OpusWrapper.TocConfig | packages/opus/native/opus.cpp:829-832 | the TOC configuration number lies in 0..31 and is the byte's top five bits |
| OpusWrapper.PacketCheckIsLengthCheck | packages/opus/native/opus.cpp:823-841 | a packet is valid iff it is non-null and 1 to 1275 bytes long; the TOC check cannot fail |
| OpusWrapper.DefaultsInRange | packages/opus/native/opus.cpp:226-231 | the bitrate, complexity, bandwidth and signal applied at creation pass the setters' own checks |
| OpusWrapper.Configure | packages/opus/native/opus.cpp:350-377 | a request reaches the codec iff initialised and in range; otherwise the refusal names the reason; a forwarded request succeeds iff the codec answers OPUS_OK |
| OpusWrapper.ForwardedRequestsAreInRange | packages/opus/native/opus.cpp:366 | the codec is only ever asked for values in range |
| OpusWrapper.ApplicationFromName | packages/opus/native/opus.cpp:178-187 | a recognised name maps to one of the three applications |
| OpusWrapper.ApplicationName | packages/opus/native/opus.cpp:178-187 | the name given to an application maps back to that application |
| OpusWrapper.ApplicationNamesRoundTrip | packages/opus/native/opus.cpp:508-517 | "voip", "audio" and "lowdelay" map to the three applications, each has exactly one name, and no other name maps |
| OpusWrapper.Encoder.constructor | packages/opus/native/opus.cpp:152-205 | initialised iff 48 kHz, stereo and created; an unknown application name keeps VOIP |
| OpusWrapper.Encoder.Encode | packages/opus/native/opus.cpp:239-325 | refused when uninitialised, when the sample count over the channel count is not 960, or when the PCM check fails; a negative codec answer is an error; otherwise the packet is the first bytes the codec wrote |
| OpusWrapper.Encoder.SetBitrate | packages/opus/native/opus.cpp:350-377 | forwards only bitrates 500..512000, and only when initialised |
| OpusWrapper.Encoder.SetComplexity | packages/opus/native/opus.cpp:379-406 | forwards only complexities 0..10, and only when initialised |
| OpusWrapper.Encoder.SetInbandFec | packages/opus/native/opus.cpp:408-429 | forwards either flag, only when initialised |
| OpusWrapper.Encoder.SetMaxBandwidth | packages/opus/native/opus.cpp:431-462 | forwards only the five bandwidth constants, only when initialised |
| OpusWrapper.Encoder.SetSignal | packages/opus/native/opus.cpp:464-490 | forwards only voice or music, only when initialised |
| OpusWrapper.Encoder.SetApplication | packages/opus/native/opus.cpp:492-527 | an unknown name is refused; the stored application changes only when the codec accepts the new one |
| OpusWrapper.Encoder.Reset | packages/opus/native/opus.cpp:529-534 | the reset request is sent iff initialised and holding the encoder |
| OpusWrapper.Encoder.Destroy | packages/opus/native/opus.cpp:536-543 | destroys the encoder only while it is held (a second call does nothing); afterwards the encoder is uninitialised |
| OpusWrapper.Decoder.constructor | packages/opus/native/opus.cpp:615-656 | initialised iff 48 kHz, stereo and created; the duration starts at 0 |
| OpusWrapper.Decoder.Decode | packages/opus/native/opus.cpp:682-757 | a null packet is packet loss and skips validation; an invalid packet is refused; only a successful decode records its duration and returns the samples decoded |
| OpusWrapper.Decoder.DecodeFec | packages/opus/native/opus.cpp:759-821 | like Decode, but the packet is always validated |
| OpusWrapper.Decoder.SetGain | packages/opus/native/opus.cpp:843-870 | forwards only gains in -32768..32767, only when initialised |
| OpusWrapper.Decoder.Reset | packages/opus/native/opus.cpp:872-878 | the reset request is sent iff initialised and holding the decoder, and then the duration is zeroed |
| OpusWrapper.Decoder.Destroy | packages/opus/native/opus.cpp:880-888 | destroys the decoder only while it is held and zeroes the duration; afterwards decoding is refused |

## Left out

- N-API glue is left out: class registration, argument unpacking, the TypeErrors for missing or mistyped arguments, and the conversion of JavaScript values (only `Uint32Value` in `setNonce` is modelled, as modulo 2^32). Which JavaScript values yield a null pointer is not modelled; `None` stands for a null buffer.
- The libraries themselves (libsodium, zlib, zstd, libopus) are not modelled. Their answers are function values or method parameters. `Sound`, `WellBehaved`, `FinishProgress` and `DecompressFits` are hypotheses about them, not proved facts.
- `sodium_init`, the AES-GCM availability probe and `randombytes_buf` are left out. The probe is the parameter `aesAvailable`. `generateSecretKey` draws random bytes and is not modelled.
- The zlib `msg` string and the zlib `message` accessors are left out: the text comes from the library.
- Error message strings are left out, except zstd's "Zstd decompression failed: " prefix. Errors are datatype values.
- Integer widths are left out where the code narrows silently: `avail_in`/`avail_out` as 32-bit `uInt`, `static_cast<int>` of packet lengths, the `size_t` counters, and the `input_length * 4` capacity. Sizes are unbounded in the model.
- ZstdInflate.ZstdStream GetStats is left out: its ratio and averages are floating point.
- `reserve` and `shrink_to_fit` are left out: they only change capacity. The zlib loop's doubling of its scratch room is modelled as exactly twice the room; `reserve` may allocate more, which changes only how output is split between calls.
- `windowBits` is left out: it only configures zlib.
- The opus getters, `getOpusVersion`, `getSupportedSampleRates` and the sodium version are left out: they read codec state or constants.
- The default controls applied when the encoder is created are not modelled as codec state. `DefaultsInRange` only shows they pass the setters' checks.
- OpusWrapper.Encoder.Reset and OpusWrapper.Decoder.Reset only report whether `OPUS_RESET_STATE` is sent. The codec state it resets is not modelled.
- The opus destructors are not separate members: they destroy under the same guard as `Destroy`.
- The JavaScript exception thrown after a failed constructor is left out. The model keeps the object, uninitialised.
- `ZlibStream` in src/native/zlib.cpp has no byte counters. It is modelled by the same class, whose counters it does not observe.
- The packaged zstd destructor does not null the handle. The model's `Dispose` clears the held flag either way, which matters only to the ghost count.
