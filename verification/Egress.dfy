/** Ingress streams, egresses and the encoder configuration an egress asks for
    (crates/core/src/egress/mod.rs, crates/core/src/endpoint.rs, crates/core/src/ingress/mod.rs).

    Frame rates are reals; `fpsQ` is the fraction FFmpeg's `av_d2q` yields for them, and codec
    and format names are what FFmpeg knows the stream's codec and format by. */
module Egress {
  import opened Wrappers
  import opened Params

  const U16 := 0x1_0000
  const U32 := 0x1_0000_0000

  datatype StreamType = UnknownStream | VideoStream | AudioStream | SubtitleStream

  datatype IngressStream = IngressStream(
    index: nat, streamType: StreamType, codecName: Option<string>, formatName: Option<string>,
    width: nat, height: nat, fps: real, fpsQ: (nat, nat), sampleRate: nat, bitrate: nat, channels: nat)

  datatype EgressType =
    | HLS(id: nat)
    | Recorder(id: nat, height: nat)
    | RTMPForwarder(id: nat, destination: string)
    | Moq(id: nat)

  datatype EgressEncoderConfig = EgressEncoderConfig(
    codec: string, codecParams: seq<EncoderParam>, streamType: StreamType)

  function FloorU32(x: real): nat {
    if x < 0.0 then 0 else if x.Floor >= U32 then U32 - 1 else x.Floor
  }

  function DefaultVideoH264(s: IngressStream): EgressEncoderConfig {
    EgressEncoderConfig(
      "h264",
      [Preset("veryfast"), Tune("zerolatency"), GOPSize(FloorU32(s.fps * 2.0)), MaxBFrames(3), Profile(77),
       PixelFormat("yuv420p"), ColorRange("full"), ColorSpace("bt709"), Framerate(s.fpsQ.0, s.fpsQ.1)],
      VideoStream)
  }

  function DefaultAudioH264(s: IngressStream): EgressEncoderConfig {
    var rate := s.sampleRate % U32;
    EgressEncoderConfig(
      "aac",
      [SampleFormat("fltp"),
       SampleRate(if rate == 44100 || rate == 48000 then rate else 48_000),
       AudioChannels(if s.channels < 3 then s.channels else 2)],
      AudioStream)
  }

  function DefaultH264(s: IngressStream): (r: Option<EgressEncoderConfig>)
    ensures r.Some? ==> r.value.streamType == s.streamType
  {
    match s.streamType
    case VideoStream => Some(DefaultVideoH264(s))
    case AudioStream => Some(DefaultAudioH264(s))
    case _ => None
  }

  function If(c: bool, p: EncoderParam): seq<EncoderParam> {
    if c then [p] else []
  }

  /** What is known about a source stream, as encoder parameters. */
  function IngressStreamToParams(s: IngressStream): seq<EncoderParam>
    requires s.streamType != SubtitleStream
  {
    match s.streamType
    case VideoStream =>
      If(s.fps > 0.0, Framerate(s.fpsQ.0, s.fpsQ.1))
      + If(s.width != 0, Width(s.width % U16))
      + If(s.height != 0, Height(s.height % U16))
      + If(s.bitrate != 0, Bitrate(s.bitrate))
      + (match s.formatName case Some(n) => [PixelFormat(n)] case None => [])
    case AudioStream =>
      If(s.channels != 0, AudioChannels(s.channels))
      + If(s.sampleRate != 0, SampleRate(s.sampleRate % U32))
      + If(s.bitrate != 0, Bitrate(s.bitrate))
      + (match s.formatName case Some(n) => [SampleFormat(n)] case None => [])
    case _ => []
  }

  /** The configuration an egress wants for a stream; a recorder wants none. */
  function GetEncoderParams(e: EgressType, s: IngressStream, input: seq<EncoderParam>): Option<EgressEncoderConfig> {
    if e.Recorder? then None
    else match DefaultH264(s)
      case None => None
      case Some(p) =>
        var merged := PutAll(p.codecParams, input);
        Some(p.(codecParams := if e.HLS? && s.streamType == AudioStream then Put(merged, Bitrate(192_000)) else merged))
  }

  lemma DefaultVideoIsDistinct(s: IngressStream)
    ensures NoDuplicates(DefaultVideoH264(s).codecParams)
  {
    hide FloorU32;
    var ps := DefaultVideoH264(s).codecParams;
    assert NoDuplicates(ps[..3]);
    assert NoDuplicates(ps[..6]);
  }

  lemma DefaultAudioIsDistinct(s: IngressStream)
    ensures NoDuplicates(DefaultAudioH264(s).codecParams)
  {}

  lemma DefaultsAreDistinct(s: IngressStream)
    requires DefaultH264(s).Some?
    ensures NoDuplicates(DefaultH264(s).value.codecParams)
  {
    DefaultVideoIsDistinct(s);
    DefaultAudioIsDistinct(s);
  }

  /** The configuration is the default with the source's own values on top; HLS audio is
      always 192 kb/s.  No parameter occurs twice. */
  lemma EgressAsksFor(e: EgressType, s: IngressStream, input: seq<EncoderParam>, k: ParamKind)
    requires !e.Recorder? && DefaultH264(s).Some?
    ensures var c := GetEncoderParams(e, s, input);
            && c.Some? && c.value.streamType == s.streamType && c.value.codec == DefaultH264(s).value.codec
            && NoDuplicates(c.value.codecParams)
            && Lookup(c.value.codecParams, k) ==
               if e.HLS? && s.streamType == AudioStream && k == KBitrate then Some(Bitrate(192_000))
               else Override(Lookup(input, k), Lookup(DefaultH264(s).value.codecParams, k))
  {
    DefaultsAreDistinct(s);
    hide Lookup, Put, DefaultVideoH264, DefaultAudioH264, NoDuplicates;
    var p := DefaultH264(s).value;
    ExtendLookup(p.codecParams, input, k);
    PutLookup(PutAll(p.codecParams, input), Bitrate(192_000), k);
    PutKinds(PutAll(p.codecParams, input), Bitrate(192_000));
  }

  /** Every egress but a recorder asks for the same video. */
  lemma VideoConfigIsShared(e: EgressType, f: EgressType, s: IngressStream, input: seq<EncoderParam>)
    requires !e.Recorder? && !f.Recorder? && s.streamType == VideoStream
    ensures GetEncoderParams(e, s, input) == GetEncoderParams(f, s, input)
  {}
}
