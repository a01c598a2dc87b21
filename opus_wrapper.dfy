// The Opus encoder and decoder wrappers for voice: the checks they make
// before handing anything to libopus, and the flags they keep.  Voice
// audio is fixed at 48 kHz stereo in 20 ms frames of 960 samples per
// channel.  Packets are bounded and start with a TOC byte (sections 3.1
// and 3.2.1 of RFC 6716).  What libopus answers (create, encode, decode,
// ctl) is passed in as a parameter.

module OpusWrapper {
  import opened Common

  const SampleRate: int := 48000
  const Channels: int := 2
  const FrameSize: int := 960
  /** Size of the encoder's output buffer. */
  const MaxPacketSize: int := 4000
  /** Longest packet the decoder accepts. */
  const MaxPacketLength: int := 1275

  const OpusOk: int := 0

  const ApplicationVoip: int := 2048
  const ApplicationAudio: int := 2049
  const ApplicationLowDelay: int := 2051

  const BandwidthNarrow: int := 1101
  const BandwidthMedium: int := 1102
  const BandwidthWide: int := 1103
  const BandwidthSuperWide: int := 1104
  const BandwidthFull: int := 1105

  const SignalVoice: int := 3001
  const SignalMusic: int := 3002

  /** What the encoder is configured with right after it is created. */
  const DefaultBitrate: int := 64000
  const DefaultComplexity: int := 5

  newtype Sample = x: int | -32768 <= x < 32768

  const Int16Max: Sample := 32767
  const Int16Min: Sample := -32768

  // ---------------------------------------------------------------------
  // PCM sanity check

  /** Number of zero samples. */
  function CountZeros(s: seq<Sample>): (n: nat)
    ensures n <= |s|
  {
    if s == [] then 0 else CountZeros(s[..|s| - 1]) + (if s[|s| - 1] == 0 then 1 else 0)
  }

  /** Number of samples at full scale, INT16_MAX or INT16_MIN. */
  function CountClipped(s: seq<Sample>): (n: nat)
    ensures n <= |s|
  {
    if s == [] then 0
    else CountClipped(s[..|s| - 1]) + (if s[|s| - 1] == Int16Max || s[|s| - 1] == Int16Min then 1 else 0)
  }

  /** Fewer than 90% of the samples are silent and fewer than 10% are clipped (integer division). */
  predicate PcmAcceptable(s: seq<Sample>)
  {
    CountZeros(s) < |s| * 9 / 10 && CountClipped(s) < |s| / 10
  }

  /**
   * ValidatePCMInput: a null buffer or a non-positive frame size is
   * rejected; otherwise the first frameSize * channels samples are counted.
   */
  method ValidatePcmInput(pcm: Option<seq<Sample>>, frameSize: int, channels: nat) returns (ok: bool)
    requires pcm.Some? && frameSize > 0 ==> frameSize * channels <= |pcm.value|
    ensures ok <==> pcm.Some? && frameSize > 0 && PcmAcceptable(pcm.value[..frameSize * channels])
  {
    if pcm.None? || frameSize <= 0 {
      return false;
    }
    var samples := pcm.value;
    var total := frameSize * channels;
    var zeros := 0;
    var clipped := 0;
    var i := 0;
    while i < total
      invariant 0 <= i <= total
      invariant zeros == CountZeros(samples[..i])
      invariant clipped == CountClipped(samples[..i])
    {
      assert samples[..i + 1][..i] == samples[..i];
      if samples[i] == 0 {
        zeros := zeros + 1;
      } else if samples[i] == Int16Max || samples[i] == Int16Min {
        clipped := clipped + 1;
      }
      i := i + 1;
    }
    return zeros < total * 9 / 10 && clipped < total / 10;
  }

  /** A sample is counted at most once: as silent or as clipped. */
  lemma {:induction false} CountsAreExclusive(s: seq<Sample>)
    ensures CountZeros(s) + CountClipped(s) <= |s|
  {
    if s != [] {
      CountsAreExclusive(s[..|s| - 1]);
    }
  }

  /** In an all-zero frame every sample counts as silent. */
  lemma {:induction false} SilenceCountsEverySample(s: seq<Sample>)
    requires forall i :: 0 <= i < |s| ==> s[i] == 0
    ensures CountZeros(s) == |s| && CountClipped(s) == 0
  {
    if s != [] {
      SilenceCountsEverySample(s[..|s| - 1]);
    }
  }

  /** A frame that contains no silent and no clipped sample counts neither. */
  lemma {:induction false} CleanSamplesCountNothing(s: seq<Sample>)
    requires forall i :: 0 <= i < |s| ==> s[i] != 0 && s[i] != Int16Max && s[i] != Int16Min
    ensures CountZeros(s) == 0 && CountClipped(s) == 0
  {
    if s != [] {
      CleanSamplesCountNothing(s[..|s| - 1]);
    }
  }

  /** A silent frame is always rejected. */
  lemma SilentFrameRejected(s: seq<Sample>)
    requires forall i :: 0 <= i < |s| ==> s[i] == 0
    ensures !PcmAcceptable(s)
  {
    SilenceCountsEverySample(s);
  }

  /** A full voice frame with no silent and no clipped sample is accepted. */
  lemma CleanFrameAccepted(s: seq<Sample>)
    requires |s| == FrameSize * Channels
    requires forall i :: 0 <= i < |s| ==> s[i] != 0 && s[i] != Int16Max && s[i] != Int16Min
    ensures PcmAcceptable(s)
  {
    CleanSamplesCountNothing(s);
  }

  // ---------------------------------------------------------------------
  // Packet check

  /** The configuration number in the TOC byte: its top five bits. */
  function TocConfig(toc: byte): (config: int)
    ensures 0 <= config <= 31
    ensures config * 8 <= toc as int < config * 8 + 8
  {
    (toc as int / 8) % 32
  }

  /**
   * ValidateOpusPacket (the decoder's member and the free function
   * validateOpusPacket): a non-null packet of 1 to 1275 bytes whose TOC
   * configuration number is at most 31.  `None` is a null pointer.
   */
  predicate ValidateOpusPacket(packet: Option<Bytes>)
  {
    packet.Some? && 1 <= |packet.value| <= MaxPacketLength && TocConfig(packet.value[0]) <= 31
  }

  /** The TOC check can never fail: the packet check is a length check. */
  lemma PacketCheckIsLengthCheck(packet: Option<Bytes>)
    ensures ValidateOpusPacket(packet) <==> packet.Some? && 1 <= |packet.value| <= MaxPacketLength
  {
  }

  // ---------------------------------------------------------------------
  // Encoder and decoder controls

  /** The ctl requests the wrappers forward to libopus. */
  datatype Ctl =
    | SetBitrate(bitrate: int)
    | SetComplexity(complexity: int)
    | SetInbandFec(enable: bool)
    | SetMaxBandwidth(bandwidth: int)
    | SetSignal(signal: int)
    | SetApplication(application: int)
    | SetGain(gain: int)

  predicate IsBandwidth(b: int)
  {
    b == BandwidthNarrow || b == BandwidthMedium || b == BandwidthWide ||
    b == BandwidthSuperWide || b == BandwidthFull
  }

  predicate IsApplication(a: int)
  {
    a == ApplicationVoip || a == ApplicationAudio || a == ApplicationLowDelay
  }

  /** The values the wrappers let through to the codec. */
  predicate InRange(c: Ctl)
  {
    match c
    case SetBitrate(b) => 500 <= b <= 512000
    case SetComplexity(x) => 0 <= x <= 10
    case SetInbandFec(_) => true
    case SetMaxBandwidth(b) => IsBandwidth(b)
    case SetSignal(s) => s == SignalVoice || s == SignalMusic
    case SetApplication(a) => IsApplication(a)
    case SetGain(g) => -32768 <= g <= 32767
  }

  /** The configuration applied at creation passes the same checks. */
  lemma DefaultsInRange()
    ensures InRange(SetBitrate(DefaultBitrate)) && InRange(SetComplexity(DefaultComplexity))
    ensures InRange(SetMaxBandwidth(BandwidthFull)) && InRange(SetSignal(SignalVoice))
  {
  }

  datatype OpusError =
    | NotInitialized
    | OutOfRange
    | BadFrameSize
    | InvalidPcm
    | InvalidPacket
    | CodecFailed(code: int)

  /**
   * A setter's outcome: refused before the codec was called, or forwarded
   * to opus_*_ctl, which accepted it (OPUS_OK) or not.
   */
  datatype CtlOutcome = Rejected(error: OpusError) | Forwarded(request: Ctl, accepted: bool)

  /**
   * The common shape of every setter: refuse when not initialised, refuse
   * an out-of-range value, and otherwise forward it with the codec's answer.
   */
  function Configure(initialized: bool, request: Ctl, ctlResult: int): (r: CtlOutcome)
    ensures r.Forwarded? <==> initialized && InRange(request)
    ensures r.Forwarded? ==> r.request == request && (r.accepted <==> ctlResult == OpusOk)
    ensures r.Rejected? ==> r.error == if initialized then OutOfRange else NotInitialized
  {
    if !initialized then Rejected(NotInitialized)
    else if !InRange(request) then Rejected(OutOfRange)
    else Forwarded(request, ctlResult == OpusOk)
  }

  /** The codec is only ever asked for values in range. */
  lemma ForwardedRequestsAreInRange(initialized: bool, request: Ctl, ctlResult: int)
    requires Configure(initialized, request, ctlResult).Forwarded?
    ensures InRange(Configure(initialized, request, ctlResult).request)
  {
  }

  /** The application names the wrappers understand. */
  function ApplicationFromName(name: string): (a: Option<int>)
    ensures a.Some? ==> IsApplication(a.value)
  {
    if name == "voip" then Some(ApplicationVoip)
    else if name == "audio" then Some(ApplicationAudio)
    else if name == "lowdelay" then Some(ApplicationLowDelay)
    else None
  }

  function ApplicationName(a: int): (name: string)
    requires IsApplication(a)
    ensures ApplicationFromName(name) == Some(a)
  {
    if a == ApplicationVoip then "voip" else if a == ApplicationAudio then "audio" else "lowdelay"
  }

  /** Every application has exactly one name, and only those names map to an application. */
  lemma ApplicationNamesRoundTrip(name: string, a: int)
    ensures ApplicationFromName(name) == Some(a) <==> IsApplication(a) && name == ApplicationName(a)
  {
  }

  // ---------------------------------------------------------------------
  // Encoder

  class Encoder {
    /** encoder_ is non-null */
    var handleLive: bool
    /** how often opus_encoder_destroy was called on the handle */
    ghost var destroys: nat
    var initialized: bool
    var sampleRate: int
    var channels: int
    var application: int

    /** Destroyed at most once, never while held; initialised only while held, at 48 kHz stereo. */
    ghost predicate Valid()
      reads this
    {
      destroys <= 1 && (handleLive ==> destroys == 0) &&
      (initialized ==> handleLive && sampleRate == SampleRate && channels == Channels &&
                       IsApplication(application))
    }

    /**
     * Only 48 kHz stereo is accepted; an unknown application name keeps
     * VOIP; the encoder is initialised only when opus_encoder_create
     * succeeds (`created`).
     */
    constructor (rate: int, channelCount: int, applicationName: Option<string>, created: bool)
      ensures Valid()
      ensures initialized == (rate == SampleRate && channelCount == Channels && created)
      ensures handleLive == initialized && destroys == 0
      ensures sampleRate == SampleRate && channels == Channels
      ensures application ==
        if initialized && applicationName.Some? && ApplicationFromName(applicationName.value).Some?
        then ApplicationFromName(applicationName.value).value else ApplicationVoip
    {
      handleLive := false;
      destroys := 0;
      initialized := false;
      sampleRate := SampleRate;
      channels := Channels;
      application := ApplicationVoip;
      var requested := ApplicationVoip;
      if applicationName.Some? && ApplicationFromName(applicationName.value).Some? {
        requested := ApplicationFromName(applicationName.value).value;
      }
      if rate == SampleRate && channelCount == Channels && created {
        handleLive := true;
        sampleRate := rate;
        channels := channelCount;
        application := requested;
        initialized := true;
      }
    }

    /**
     * Encode: one 20 ms stereo frame.  `encoded` is opus_encode's answer and
     * `out` the contents of the 4000-byte output buffer it wrote into.
     */
    method Encode(pcm: seq<Sample>, encoded: int, out: Bytes) returns (r: Result<Bytes, OpusError>)
      requires Valid()
      requires |out| == MaxPacketSize && encoded <= MaxPacketSize
      ensures !initialized ==> r == Err(NotInitialized)
      ensures initialized && |pcm| / Channels != FrameSize ==> r == Err(BadFrameSize)
      ensures initialized && |pcm| / Channels == FrameSize ==>
        if !PcmAcceptable(pcm[..FrameSize * Channels]) then r == Err(InvalidPcm)
        else if encoded < 0 then r == Err(CodecFailed(encoded))
        else r == Ok(out[..encoded])
    {
      if !initialized {
        return Err(NotInitialized);
      }
      var frameSize := |pcm| / channels;
      if frameSize != FrameSize {
        return Err(BadFrameSize);
      }
      var ok := ValidatePcmInput(Some(pcm), frameSize, channels);
      if !ok {
        return Err(InvalidPcm);
      }
      if encoded < 0 {
        return Err(CodecFailed(encoded));
      }
      return Ok(out[..encoded]);
    }

    method SetBitrate(value: int, ctlResult: int) returns (r: CtlOutcome)
      ensures r == Configure(initialized, Ctl.SetBitrate(value), ctlResult)
    {
      return Configure(initialized, Ctl.SetBitrate(value), ctlResult);
    }

    method SetComplexity(value: int, ctlResult: int) returns (r: CtlOutcome)
      ensures r == Configure(initialized, Ctl.SetComplexity(value), ctlResult)
    {
      return Configure(initialized, Ctl.SetComplexity(value), ctlResult);
    }

    method SetInbandFec(enable: bool, ctlResult: int) returns (r: CtlOutcome)
      ensures r == Configure(initialized, Ctl.SetInbandFec(enable), ctlResult)
    {
      return Configure(initialized, Ctl.SetInbandFec(enable), ctlResult);
    }

    method SetMaxBandwidth(value: int, ctlResult: int) returns (r: CtlOutcome)
      ensures r == Configure(initialized, Ctl.SetMaxBandwidth(value), ctlResult)
    {
      return Configure(initialized, Ctl.SetMaxBandwidth(value), ctlResult);
    }

    method SetSignal(value: int, ctlResult: int) returns (r: CtlOutcome)
      ensures r == Configure(initialized, Ctl.SetSignal(value), ctlResult)
    {
      return Configure(initialized, Ctl.SetSignal(value), ctlResult);
    }

    /**
     * An unknown name is refused like an out-of-range value; the stored
     * application changes only when the codec accepts the new one.
     */
    method SetApplication(name: string, ctlResult: int) returns (r: CtlOutcome)
      requires Valid()
      modifies this`application
      ensures Valid()
      ensures !initialized ==> r == Rejected(NotInitialized)
      ensures initialized && ApplicationFromName(name).None? ==> r == Rejected(OutOfRange)
      ensures initialized && ApplicationFromName(name).Some? ==>
        r == Configure(initialized, Ctl.SetApplication(ApplicationFromName(name).value), ctlResult)
      ensures application == if r.Forwarded? && r.accepted then r.request.application else old(application)
    {
      if !initialized {
        return Rejected(NotInitialized);
      }
      var requested := ApplicationFromName(name);
      if requested.None? {
        return Rejected(OutOfRange);
      }
      r := Configure(initialized, Ctl.SetApplication(requested.value), ctlResult);
      if r.accepted {
        application := requested.value;
      }
    }

    /** OPUS_RESET_STATE is sent only while initialised and holding the encoder. */
    method Reset() returns (sent: bool)
      ensures sent <==> initialized && handleLive
    {
      return initialized && handleLive;
    }

    /** Destroys the encoder once; afterwards Encode and every setter are refused. */
    method Destroy()
      requires Valid()
      modifies this`handleLive, this`destroys, this`initialized
      ensures Valid() && !handleLive && !initialized
      ensures destroys == if old(handleLive) then 1 else old(destroys)
      ensures !old(handleLive) ==> initialized == old(initialized)
    {
      if handleLive {
        destroys := destroys + 1;
        handleLive := false;
        initialized := false;
      }
    }
  }

  // ---------------------------------------------------------------------
  // Decoder

  class Decoder {
    /** decoder_ is non-null */
    var handleLive: bool
    /** how often opus_decoder_destroy was called on the handle */
    ghost var destroys: nat
    var initialized: bool
    var sampleRate: int
    var channels: int
    var lastPacketDuration: int

    ghost predicate Valid()
      reads this
    {
      destroys <= 1 && (handleLive ==> destroys == 0) &&
      (initialized ==> handleLive && sampleRate == SampleRate && channels == Channels) &&
      lastPacketDuration >= 0
    }

    /** Only 48 kHz stereo is accepted, and only a successful opus_decoder_create initialises. */
    constructor (rate: int, channelCount: int, created: bool)
      ensures Valid()
      ensures initialized == (rate == SampleRate && channelCount == Channels && created)
      ensures handleLive == initialized && destroys == 0
      ensures sampleRate == SampleRate && channels == Channels && lastPacketDuration == 0
    {
      handleLive := false;
      destroys := 0;
      initialized := false;
      sampleRate := SampleRate;
      channels := Channels;
      lastPacketDuration := 0;
      if rate == SampleRate && channelCount == Channels && created {
        handleLive := true;
        initialized := true;
      }
    }

    /**
     * Decode: `None` is a lost packet and skips validation; a given packet
     * must pass ValidateOpusPacket.  `decoded` is opus_decode's answer (at
     * most 960 samples per channel) and `pcm` the 960-sample stereo output
     * buffer it wrote into.  Only a successful decode records its duration.
     */
    method Decode(packet: Option<Bytes>, decoded: int, pcm: seq<Sample>)
      returns (r: Result<seq<Sample>, OpusError>)
      requires Valid()
      requires |pcm| == FrameSize * Channels && decoded <= FrameSize
      modifies this`lastPacketDuration
      ensures Valid()
      ensures !old(initialized) ==> r == Err(NotInitialized)
      ensures old(initialized) && packet.Some? && !ValidateOpusPacket(packet) ==> r == Err(InvalidPacket)
      ensures old(initialized) && (packet.None? || ValidateOpusPacket(packet)) ==>
        r == if decoded < 0 then Err(CodecFailed(decoded)) else Ok(pcm[..decoded * Channels])
      ensures lastPacketDuration == if r.Ok? then decoded else old(lastPacketDuration)
    {
      if !initialized {
        return Err(NotInitialized);
      }
      if packet.Some? && !ValidateOpusPacket(packet) {
        return Err(InvalidPacket);
      }
      if decoded < 0 {
        return Err(CodecFailed(decoded));
      }
      lastPacketDuration := decoded;
      return Ok(pcm[..decoded * channels]);
    }

    /** DecodeFEC: like Decode, but a packet is required and always validated. */
    method DecodeFec(packet: Option<Bytes>, decoded: int, pcm: seq<Sample>)
      returns (r: Result<seq<Sample>, OpusError>)
      requires Valid()
      requires |pcm| == FrameSize * Channels && decoded <= FrameSize
      modifies this`lastPacketDuration
      ensures Valid()
      ensures !old(initialized) ==> r == Err(NotInitialized)
      ensures old(initialized) && !ValidateOpusPacket(packet) ==> r == Err(InvalidPacket)
      ensures old(initialized) && ValidateOpusPacket(packet) ==>
        r == if decoded < 0 then Err(CodecFailed(decoded)) else Ok(pcm[..decoded * Channels])
      ensures lastPacketDuration == if r.Ok? then decoded else old(lastPacketDuration)
    {
      if !initialized {
        return Err(NotInitialized);
      }
      if !ValidateOpusPacket(packet) {
        return Err(InvalidPacket);
      }
      if decoded < 0 {
        return Err(CodecFailed(decoded));
      }
      lastPacketDuration := decoded;
      return Ok(pcm[..decoded * channels]);
    }

    method SetGain(value: int, ctlResult: int) returns (r: CtlOutcome)
      ensures r == Configure(initialized, Ctl.SetGain(value), ctlResult)
    {
      return Configure(initialized, Ctl.SetGain(value), ctlResult);
    }

    /** OPUS_RESET_STATE while initialised and holding the decoder; the duration is zeroed. */
    method Reset() returns (sent: bool)
      requires Valid()
      modifies this`lastPacketDuration
      ensures Valid()
      ensures sent <==> initialized && handleLive
      ensures lastPacketDuration == if sent then 0 else old(lastPacketDuration)
    {
      sent := initialized && handleLive;
      if sent {
        lastPacketDuration := 0;
      }
    }

    /** Destroys the decoder once and zeroes the duration; afterwards decoding is refused. */
    method Destroy()
      requires Valid()
      modifies this`handleLive, this`destroys, this`initialized, this`lastPacketDuration
      ensures Valid() && !handleLive && !initialized
      ensures destroys == if old(handleLive) then 1 else old(destroys)
      ensures lastPacketDuration == if old(handleLive) then 0 else old(lastPacketDuration)
    {
      if handleLive {
        destroys := destroys + 1;
        handleLive := false;
        initialized := false;
        lastPacketDuration := 0;
      }
    }
  }
}
