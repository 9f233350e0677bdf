/** What the variants of a configuration are, field by field
    (crates/core/src/endpoint.rs, crates/core/src/egress/mod.rs). */
module Renditions {
  import opened Wrappers
  import opened Arith
  import opened Params
  import opened Capabilities
  import opened Egress
  import opened Dedup
  import opened Endpoint
  import opened Ladder
  import opened LadderSteps
  import opened Configurator

  // ----- Parameters by kind -------------------------------------------------------

  lemma {:induction false} LookupAt(s: seq<EncoderParam>, i: nat)
    requires NoDuplicates(s) && i < |s|
    ensures Lookup(s, s[i].Kind()) == Some(s[i])
    decreases |s|
  {
    if i < |s| - 1 {
      LookupAt(s[..|s| - 1], i);
    }
  }

  lemma LookupIf(c: bool, p: EncoderParam, k: ParamKind)
    ensures Lookup(If(c, p), k) == if c && p.Kind() == k then Some(p) else None
  {
    LookupSingle(p, k);
  }

  /** What a source says about a kind of parameter. */
  function SourceParam(s: IngressStream, k: ParamKind): Option<EncoderParam> {
    match s.streamType
    case VideoStream =>
      (match k
       case KFramerate => if s.fps > 0.0 then Some(Framerate(s.fpsQ.0, s.fpsQ.1)) else None
       case KWidth => if s.width != 0 then Some(Width(s.width % U16)) else None
       case KHeight => if s.height != 0 then Some(Height(s.height % U16)) else None
       case KBitrate => if s.bitrate != 0 then Some(Bitrate(s.bitrate)) else None
       case KPixelFormat => if s.formatName.Some? then Some(PixelFormat(s.formatName.value)) else None
       case _ => None)
    case AudioStream =>
      (match k
       case KAudioChannels => if s.channels != 0 then Some(AudioChannels(s.channels)) else None
       case KSampleRate => if s.sampleRate != 0 then Some(SampleRate(s.sampleRate % U32)) else None
       case KBitrate => if s.bitrate != 0 then Some(Bitrate(s.bitrate)) else None
       case KSampleFormat => if s.formatName.Some? then Some(SampleFormat(s.formatName.value)) else None
       case _ => None)
    case _ => None
  }

  function FormatParam(s: IngressStream): seq<EncoderParam> {
    match s.formatName
    case Some(n) => if s.streamType == VideoStream then [PixelFormat(n)] else [SampleFormat(n)]
    case None => []
  }

  lemma LookupFormat(s: IngressStream, k: ParamKind)
    ensures Lookup(FormatParam(s), k) ==
            if s.formatName.None? then None
            else if s.streamType == VideoStream then
              (if k == KPixelFormat then Some(PixelFormat(s.formatName.value)) else None)
            else if k == KSampleFormat then Some(SampleFormat(s.formatName.value)) else None
  {
    if s.formatName.Some? {
      LookupSingle(FormatParam(s)[0], k);
    } else {
      LookupNothing(k);
    }
  }

  lemma LookupFour(a: seq<EncoderParam>, b: seq<EncoderParam>, c: seq<EncoderParam>, d: seq<EncoderParam>, k: ParamKind)
    ensures Lookup(((a + b) + c) + d, k)
         == Override(Lookup(d, k), Override(Lookup(c, k), Override(Lookup(b, k), Lookup(a, k))))
  {
    LookupConcat((a + b) + c, d, k);
    LookupConcat(a + b, c, k);
    LookupConcat(a, b, k);
  }

  lemma VideoParamsAre(s: IngressStream, k: ParamKind)
    requires s.streamType == VideoStream
    ensures Lookup(IngressStreamToParams(s), k) == SourceParam(s, k)
  {
    hide Lookup, If, FormatParam;
    var a := If(s.fps > 0.0, Framerate(s.fpsQ.0, s.fpsQ.1));
    var b := If(s.width != 0, Width(s.width % U16));
    var c := If(s.height != 0, Height(s.height % U16));
    var d := If(s.bitrate != 0, Bitrate(s.bitrate));
    ParamsSplit(s);
    LookupConcat(((a + b) + c) + d, FormatParam(s), k);
    LookupFour(a, b, c, d, k);
    LookupIf(s.fps > 0.0, Framerate(s.fpsQ.0, s.fpsQ.1), k);
    LookupIf(s.width != 0, Width(s.width % U16), k);
    LookupIf(s.height != 0, Height(s.height % U16), k);
    LookupIf(s.bitrate != 0, Bitrate(s.bitrate), k);
    LookupFormat(s, k);
  }

  lemma ParamsSplit(s: IngressStream)
    ensures s.streamType == VideoStream ==>
              IngressStreamToParams(s)
              == (((If(s.fps > 0.0, Framerate(s.fpsQ.0, s.fpsQ.1)) + If(s.width != 0, Width(s.width % U16)))
                   + If(s.height != 0, Height(s.height % U16)))
                  + If(s.bitrate != 0, Bitrate(s.bitrate)))
                 + FormatParam(s)
    ensures s.streamType == AudioStream ==>
              IngressStreamToParams(s)
              == ((If(s.channels != 0, AudioChannels(s.channels))
                   + If(s.sampleRate != 0, SampleRate(s.sampleRate % U32)))
                  + If(s.bitrate != 0, Bitrate(s.bitrate)))
                 + FormatParam(s)
  {
    hide If;
  }

  lemma AudioParamsAre(s: IngressStream, k: ParamKind)
    requires s.streamType == AudioStream
    ensures Lookup(IngressStreamToParams(s), k) == SourceParam(s, k)
  {
    hide Lookup, If, FormatParam;
    ParamsSplit(s);
    LookupFour(If(s.channels != 0, AudioChannels(s.channels)), If(s.sampleRate != 0, SampleRate(s.sampleRate % U32)),
               If(s.bitrate != 0, Bitrate(s.bitrate)), FormatParam(s), k);
    LookupIf(s.channels != 0, AudioChannels(s.channels), k);
    LookupIf(s.sampleRate != 0, SampleRate(s.sampleRate % U32), k);
    LookupIf(s.bitrate != 0, Bitrate(s.bitrate), k);
    LookupFormat(s, k);
  }

  /** The parameters of a source are what is known about it, and nothing else. */
  lemma SourceParamsAre(s: IngressStream, k: ParamKind)
    requires s.streamType == VideoStream || s.streamType == AudioStream
    ensures Lookup(IngressStreamToParams(s), k) == SourceParam(s, k)
  {
    hide Lookup, IngressStreamToParams, SourceParam;
    if s.streamType == VideoStream { VideoParamsAre(s, k); } else { AudioParamsAre(s, k); }
  }

  /** `gop` frames are two seconds of a source, cut to whole frames and to 32 bits. */
  predicate TwoSeconds(gop: nat, fps: real) {
    if fps < 0.0 then gop == 0
    else if 2.0 * fps >= U32 as real then gop == U32 - 1
    else gop as real <= 2.0 * fps < (gop + 1) as real
  }

  /** The values an encoder gets unless the source or the request says otherwise. */
  ghost predicate VideoDefault(s: IngressStream, k: ParamKind, p: Option<EncoderParam>) {
    match k
    case KPreset => p == Some(Preset("veryfast"))
    case KTune => p == Some(Tune("zerolatency"))
    case KGOPSize => p.Some? && p.value.GOPSize? && TwoSeconds(p.value.gop, s.fps)
    case KMaxBFrames => p == Some(MaxBFrames(3))
    case KProfile => p == Some(Profile(77))
    case KPixelFormat => p == Some(PixelFormat("yuv420p"))
    case KColorRange => p == Some(ColorRange("full"))
    case KColorSpace => p == Some(ColorSpace("bt709"))
    case KFramerate => p == Some(Framerate(s.fpsQ.0, s.fpsQ.1))
    case _ => p == None
  }

  lemma VideoDefaultsAre(s: IngressStream, k: ParamKind)
    ensures VideoDefault(s, k, Lookup(DefaultVideoH264(s).codecParams, k))
  {
    DefaultVideoIsDistinct(s);
    var ps := DefaultVideoH264(s).codecParams;
    hide Lookup, NoDuplicates;
    match k
    case KPreset => LookupAt(ps, 0);
    case KTune => LookupAt(ps, 1);
    case KGOPSize => LookupAt(ps, 2);
    case KMaxBFrames => LookupAt(ps, 3);
    case KProfile => LookupAt(ps, 4);
    case KPixelFormat => LookupAt(ps, 5);
    case KColorRange => LookupAt(ps, 6);
    case KColorSpace => LookupAt(ps, 7);
    case KFramerate => LookupAt(ps, 8);
    case _ => LookupAbsent(ps, k);
  }

  /** Audio defaults to planar floats, at most two channels, and 48 kHz unless it is 44.1. */
  function AudioDefault(s: IngressStream, k: ParamKind): Option<EncoderParam> {
    match k
    case KSampleFormat => Some(SampleFormat("fltp"))
    case KSampleRate => Some(SampleRate(if s.sampleRate % U32 == 44_100 then 44_100 else 48_000))
    case KAudioChannels => Some(AudioChannels(if s.channels <= 2 then s.channels else 2))
    case _ => None
  }

  lemma AudioDefaultsAre(s: IngressStream, k: ParamKind)
    ensures Lookup(DefaultAudioH264(s).codecParams, k) == AudioDefault(s, k)
  {
    DefaultAudioIsDistinct(s);
    var ps := DefaultAudioH264(s).codecParams;
    hide Lookup, NoDuplicates;
    match k
    case KSampleFormat => LookupAt(ps, 0);
    case KSampleRate => LookupAt(ps, 1);
    case KAudioChannels => LookupAt(ps, 2);
    case _ => LookupAbsent(ps, k);
  }

  // ----- Variants field by field ------------------------------------------------------

  /** What all video variants of a source have in common. */
  ghost predicate VideoOf(v: VideoVariant, s: IngressStream) {
    && v.srcIndex == s.index && v.codec == "h264" && v.fps == s.fpsQ && TwoSeconds(v.gop, s.fps)
    && v.preset == Some("veryfast") && v.tune == Some("zerolatency")
    && v.maxBFrames == 3 && v.profile == 77 && v.level == 0
    && v.colorRange == "full" && v.colorSpace == "bt709"
    && v.pixelFormat == (if s.formatName.Some? then s.formatName.value else "yuv420p")
  }

  /** A transcode of a source to a requested height and bitrate. */
  ghost predicate TranscodeOf(v: VideoVariant, s: IngressStream, h: nat, bitrate: nat) {
    && VideoOf(v, s)
    && v.height == RoundEven(h) && v.width == OutputWidth(s, h) && v.bitrate == bitrate
  }

  ghost predicate CopyOf(v: VideoVariant, s: IngressStream) {
    && VideoOf(v, s)
    && v.height == s.height % U16 && v.width == s.width % U16 && v.bitrate == s.bitrate
  }

  /** Audio as an egress gets it: HLS always at 192 kb/s, otherwise as the source is. */
  ghost predicate AudioOf(a: AudioVariant, e: EgressType, s: IngressStream) {
    && a.srcIndex == s.index && a.codec == "aac"
    && a.bitrate == (if e.HLS? then 192_000 else s.bitrate)
    && a.sampleFormat == (if s.formatName.Some? then s.formatName.value else "fltp")
    && a.sampleRate == (if s.sampleRate == 0 then 48_000 else s.sampleRate % U32)
    && a.channels == s.channels % 256
  }

  ghost predicate WantsVideo(c: EgressEncoderConfig, s: IngressStream, input: seq<EncoderParam>, k: ParamKind) {
    && (Lookup(input, k).Some? ==> Lookup(c.codecParams, k) == Lookup(input, k))
    && (Lookup(input, k).None? ==> VideoDefault(s, k, Lookup(c.codecParams, k)))
  }

  lemma VideoConfigIs(s: IngressStream, input: seq<EncoderParam>, k: ParamKind)
    requires s.streamType == VideoStream
    ensures VideoConfig(s, input).codec == "h264" && VideoConfig(s, input).streamType == VideoStream
    ensures WantsVideo(VideoConfig(s, input), s, input, k)
  {
    EgressAsksFor(Moq(0), s, input, k);
    VideoDefaultsAre(s, k);
    hide Lookup, VideoDefault, NoDuplicates;
  }

  /** The parameters of a video are those of its source, with some size and bitrate on top. */
  ghost predicate Sized(input: seq<EncoderParam>, s: IngressStream, width: Option<EncoderParam>,
                        height: Option<EncoderParam>, bitrate: Option<EncoderParam>) {
    forall k :: Lookup(input, k) == if k == KWidth then width else if k == KHeight then height
                                    else if k == KBitrate then bitrate else SourceParam(s, k)
  }

  /** What the configuration of a video says about a kind. */
  lemma SizedWant(s: IngressStream, input: seq<EncoderParam>, width: Option<EncoderParam>, height: Option<EncoderParam>,
                  bitrate: Option<EncoderParam>, k: ParamKind)
    requires s.streamType == VideoStream && Sized(input, s, width, height, bitrate)
    ensures var got, asked := Lookup(VideoConfig(s, input).codecParams, k),
                              if k == KWidth then width else if k == KHeight then height
                              else if k == KBitrate then bitrate else SourceParam(s, k);
            if asked.Some? then got == asked else VideoDefault(s, k, got)
  {
    hide Lookup, VideoConfig, VideoDefault, SourceParam;
    VideoConfigIs(s, input, k);
  }

  lemma SizedPicture(v: VariantStream, s: IngressStream, input: seq<EncoderParam>, width: Option<EncoderParam>,
                     height: Option<EncoderParam>, bitrate: Option<EncoderParam>)
    requires s.streamType == VideoStream && Sized(input, s, width, height, bitrate) && (v.Video? || v.CopyVideo?)
    requires ReadsPicture(v.video.(scaled := false), DefaultVideo(v.Id(), v.SrcIndex(), VideoConfig(s, input).codec),
                          VideoConfig(s, input).codecParams)
    ensures v.video.codec == "h264" && v.video.fps == s.fpsQ
    ensures v.video.width == (match width case Some(Width(x)) => x case _ => 0)
    ensures v.video.height == (match height case Some(Height(x)) => x case _ => 0)
    ensures v.video.bitrate == (match bitrate case Some(Bitrate(x)) => x case _ => 0)
  {
    hide Lookup, VideoConfig, Sized;
    VideoConfigIs(s, input, KWidth);
    SizedWant(s, input, width, height, bitrate, KWidth);
    SizedWant(s, input, width, height, bitrate, KHeight);
    SizedWant(s, input, width, height, bitrate, KBitrate);
    SizedWant(s, input, width, height, bitrate, KFramerate);
  }

  lemma SizedEffort(v: VideoVariant, base: VideoVariant, s: IngressStream, input: seq<EncoderParam>,
                    width: Option<EncoderParam>, height: Option<EncoderParam>, bitrate: Option<EncoderParam>)
    requires s.streamType == VideoStream && Sized(input, s, width, height, bitrate) && base.level == 0
    requires ReadsEffort(v, base, VideoConfig(s, input).codecParams)
    requires ReadsConformance(v, base, VideoConfig(s, input).codecParams)
    ensures v.preset == Some("veryfast") && v.tune == Some("zerolatency") && TwoSeconds(v.gop, s.fps)
    ensures v.maxBFrames == 3 && v.profile == 77 && v.level == 0
  {
    hide Lookup, VideoConfig, Sized, TwoSeconds;
    SizedWant(s, input, width, height, bitrate, KPreset);
    SizedWant(s, input, width, height, bitrate, KTune);
    SizedWant(s, input, width, height, bitrate, KGOPSize);
    SizedWant(s, input, width, height, bitrate, KMaxBFrames);
    SizedWant(s, input, width, height, bitrate, KProfile);
    SizedWant(s, input, width, height, bitrate, KLevel);
  }

  lemma SizedColors(v: VideoVariant, base: VideoVariant, s: IngressStream, input: seq<EncoderParam>,
                    width: Option<EncoderParam>, height: Option<EncoderParam>, bitrate: Option<EncoderParam>)
    requires s.streamType == VideoStream && Sized(input, s, width, height, bitrate)
    requires ReadsColors(v, base, VideoConfig(s, input).codecParams)
    ensures v.colorRange == "full" && v.colorSpace == "bt709"
    ensures v.pixelFormat == if s.formatName.Some? then s.formatName.value else "yuv420p"
  {
    hide Lookup, VideoConfig, Sized;
    SizedWant(s, input, width, height, bitrate, KPixelFormat);
    SizedWant(s, input, width, height, bitrate, KColorRange);
    SizedWant(s, input, width, height, bitrate, KColorSpace);
  }

  lemma SizedVideo(v: VariantStream, s: IngressStream, input: seq<EncoderParam>, width: Option<EncoderParam>,
                   height: Option<EncoderParam>, bitrate: Option<EncoderParam>)
    requires s.streamType == VideoStream && BuiltFor(v, VideoConfig(s, input))
    requires Sized(input, s, width, height, bitrate) && v.SrcIndex() == s.index
    ensures IsVideo(v) && VideoOf(v.video, s)
    ensures v.video.width == (match width case Some(Width(x)) => x case _ => 0)
    ensures v.video.height == (match height case Some(Height(x)) => x case _ => 0)
    ensures v.video.bitrate == (match bitrate case Some(Bitrate(x)) => x case _ => 0)
  {
    hide Lookup, VideoConfig, TwoSeconds, Sized, ReadsPicture, ReadsEffort, ReadsConformance, ReadsColors;
    VideoConfigIs(s, input, KWidth);
    var base := DefaultVideo(v.Id(), v.SrcIndex(), VideoConfig(s, input).codec);
    SizedPicture(v, s, input, width, height, bitrate);
    SizedEffort(v.video.(scaled := false), base, s, input, width, height, bitrate);
    SizedColors(v.video.(scaled := false), base, s, input, width, height, bitrate);
  }

  /** Copies and transcodes are what they should be. */
  lemma CopyIs(v: VariantStream, s: IngressStream)
    requires s.streamType == VideoStream && BuiltFor(v, VideoConfig(s, IngressStreamToParams(s)))
             && v.SrcIndex() == s.index
    ensures IsVideo(v) && CopyOf(v.video, s)
  {
    hide Lookup, VideoConfig, VideoOf, BuiltFor, IngressStreamToParams;
    var input, w, h, b := IngressStreamToParams(s), SourceParam(s, KWidth), SourceParam(s, KHeight),
        SourceParam(s, KBitrate);
    forall k ensures Lookup(input, k) == if k == KWidth then w else if k == KHeight then h
                                         else if k == KBitrate then b else SourceParam(s, k) {
      SourceParamsAre(s, k);
    }
    SizedVideo(v, s, input, w, h, b);
  }

  lemma TranscodeIs(v: VariantStream, s: IngressStream, audio: Option<IngressStream>, h: nat, bitrate: nat)
    requires s.streamType == VideoStream && (audio.Some? ==> audio.value.streamType == AudioStream)
    requires BuiltFor(v, VideoConfig(s, TranscodeGroup(s, audio, h, bitrate).videoParams)) && v.SrcIndex() == s.index
    ensures IsVideo(v) && TranscodeOf(v.video, s, h, bitrate)
  {
    hide Lookup, VideoConfig, VideoOf, BuiltFor, IngressStreamToParams, OutputWidth, RoundEven, TranscodeGroup,
      SourceParam;
    var input := TranscodeGroup(s, audio, h, bitrate).videoParams;
    RungGeometry(s, audio, h, bitrate);
    forall k ensures Lookup(input, k) ==
                     if k == KWidth then Some(Width(OutputWidth(s, h)))
                     else if k == KHeight then Some(Height(RoundEven(h)))
                     else if k == KBitrate then Some(Bitrate(bitrate)) else SourceParam(s, k) {
      if k != KWidth && k != KHeight && k != KBitrate {
        OtherParam(s, audio, h, bitrate, k);
      }
    }
    SizedVideo(v, s, input, Some(Width(OutputWidth(s, h))), Some(Height(RoundEven(h))), Some(Bitrate(bitrate)));
  }

  /** Transcoding leaves the other parameters of the source alone. */
  lemma OtherParam(s: IngressStream, audio: Option<IngressStream>, h: nat, bitrate: nat, k: ParamKind)
    requires s.streamType == VideoStream && (audio.Some? ==> audio.value.streamType == AudioStream)
    requires k != KWidth && k != KHeight && k != KBitrate
    ensures Lookup(TranscodeGroup(s, audio, h, bitrate).videoParams, k) == SourceParam(s, k)
  {
    hide Lookup, IngressStreamToParams, OutputWidth, RoundEven, SourceParam, PutAll;
    var ps := [Bitrate(bitrate), Height(RoundEven(h)), Width(OutputWidth(s, h))];
    IngressIsDistinct(s);
    ExtendLookup(IngressStreamToParams(s), ps, k);
    LookupAbsent(ps, k);
    SourceParamsAre(s, k);
  }

  /** What the configuration of audio says about a kind. */
  lemma AudioWant(e: EgressType, s: IngressStream, k: ParamKind)
    requires s.streamType == AudioStream && !e.Recorder?
    ensures var c := GetEncoderParams(e, s, IngressStreamToParams(s));
            && c.Some? && c.value.codec == "aac" && c.value.streamType == AudioStream
            && Lookup(c.value.codecParams, k) == if e.HLS? && k == KBitrate then Some(Bitrate(192_000))
                                                 else Override(SourceParam(s, k), AudioDefault(s, k))
  {
    EgressAsksFor(e, s, IngressStreamToParams(s), k);
    SourceParamsAre(s, k);
    AudioDefaultsAre(s, k);
    hide Lookup, IngressStreamToParams, SourceParam, AudioDefault, NoDuplicates;
  }

  lemma AudioIs(v: VariantStream, e: EgressType, s: IngressStream)
    requires s.streamType == AudioStream && !e.Recorder? && v.SrcIndex() == s.index
    requires GetEncoderParams(e, s, IngressStreamToParams(s)).Some?
    requires BuiltFor(v, GetEncoderParams(e, s, IngressStreamToParams(s)).value)
    ensures v.Audio? && AudioOf(v.audio, e, s)
  {
    hide Lookup, GetEncoderParams, IngressStreamToParams;
    AudioWant(e, s, KBitrate);
    AudioWant(e, s, KSampleFormat);
    AudioWant(e, s, KSampleRate);
    AudioWant(e, s, KAudioChannels);
  }

  /** Audio is offered to every egress but a recorder, and in a copied group only if it is AAC. */
  lemma AudioOffered(e: EgressType, s: IngressStream, params: seq<EncoderParam>, copy: bool)
    requires s.streamType == AudioStream
    ensures Want(e, s, params, copy).Some? <==> !e.Recorder? && (!copy || s.codecName == Some("aac"))
  {
    hide PutAll, Put;
    assert "" != "aac";
  }

  // ----- Every variant of a configuration ----------------------------------------------

  /** A call is a copy of a source video, if copying was asked for, or a transcode to a request. */
  ghost predicate PlannedCall(info: seq<IngressStream>, caps: seq<VariantType>, call: Call) {
    var audio := TranscodeAudioSrc(info);
    SourcesAreTyped(info);
    || (SourceVariant in caps && call.copy
        && exists s | s in info && s.streamType == VideoStream :: call.group == CopyGroup(s, audio))
    || (!call.copy && TranscodeVideoSrc(info).Some?
        && exists h, bitrate | Variant(h, bitrate) in caps ::
             call.group == TranscodeGroup(TranscodeVideoSrc(info).value, audio, h, bitrate))
  }

  lemma {:induction false} CallsArePlanned(info: seq<IngressStream>, all: seq<VariantType>, caps: seq<VariantType>,
                                           calls: seq<Call>, j: nat)
    requires Planned(info, all, calls) && j < |calls| && forall c | c in all :: c in caps
    ensures PlannedCall(info, caps, calls[j])
    decreases |all|
  {
    hide PlannedCall, CopyGroup, TranscodeGroup, TranscodeVideoSrc, TranscodeAudioSrc;
    SourcesAreTyped(info);
    StreamsAreTyped(info, VideoStream);
    var init, last := all[..|all| - 1], all[|all| - 1];
    assert forall c | c in init :: c in all;
    match last
    case SourceVariant =>
      var copies := CopyCalls(StreamsOf(info, VideoStream), TranscodeAudioSrc(info));
      var m := |calls| - |copies|;
      if j < m {
        CallsArePlanned(info, init, caps, calls[..m], j);
      } else {
        assert calls[j] == calls[m..][j - m];
        CopyIsPlanned(info, caps, StreamsOf(info, VideoStream)[j - m], calls[j]);
      }
    case Variant(h, bitrate) =>
      if Planned(info, init, calls) {
        CallsArePlanned(info, init, caps, calls, j);
      } else if j < |calls| - 1 {
        CallsArePlanned(info, init, caps, calls[..|calls| - 1], j);
      } else {
        TranscodeIsPlanned(info, caps, h, bitrate, calls[j]);
      }
    case DVR(_) => CallsArePlanned(info, init, caps, calls, j);
  }

  lemma CopyIsPlanned(info: seq<IngressStream>, caps: seq<VariantType>, s: IngressStream, call: Call)
    requires SourceVariant in caps && s in info && s.streamType == VideoStream
    requires TranscodeAudioSrc(info).Some? ==> TranscodeAudioSrc(info).value.streamType == AudioStream
    requires call == Call(CopyGroup(s, TranscodeAudioSrc(info)), true)
    ensures PlannedCall(info, caps, call)
  {
    hide CopyGroup, TranscodeGroup, TranscodeVideoSrc, TranscodeAudioSrc;
  }

  lemma TranscodeIsPlanned(info: seq<IngressStream>, caps: seq<VariantType>, h: nat, bitrate: nat, call: Call)
    requires Variant(h, bitrate) in caps && TranscodeVideoSrc(info).Some?
    requires TranscodeVideoSrc(info).value.streamType == VideoStream
    requires TranscodeAudioSrc(info).Some? ==> TranscodeAudioSrc(info).value.streamType == AudioStream
    requires call == Call(TranscodeGroup(TranscodeVideoSrc(info).value, TranscodeAudioSrc(info), h, bitrate), false)
    ensures PlannedCall(info, caps, call)
  {
    hide CopyGroup, TranscodeGroup, TranscodeVideoSrc, TranscodeAudioSrc;
  }

  /** A request is for the video or the audio of its call, in what some egress wants of it. */
  lemma {:induction false} RequestIs(egress: seq<EgressType>, g: GroupedIngressStream, copy: bool, r: Request)
      returns (e: EgressType)
    requires g.Valid() && r in Requests(egress, g, copy)
    ensures e in egress && !e.Recorder?
    ensures || (g.video == Some(r.stream) && Want(e, r.stream, g.videoParams, copy) == Some(r.config))
            || (g.audio == Some(r.stream) && Want(e, r.stream, g.audioParams, copy) == Some(r.config))
    decreases |egress|
  {
    hide Want;
    var init, last := egress[..|egress| - 1], egress[|egress| - 1];
    if r in Requests(init, g, copy) {
      e := RequestIs(init, g, copy, r);
    } else {
      e := last;
      RecordersWantNothing(e, r.stream, g.videoParams, copy);
      RecordersWantNothing(e, r.stream, g.audioParams, copy);
    }
  }

  lemma RecordersWantNothing(e: EgressType, s: IngressStream, params: seq<EncoderParam>, copy: bool)
    ensures e.Recorder? ==> Want(e, s, params, copy) == None
    ensures Want(e, s, params, copy).Some? ==> GetEncoderParams(e, s, params) == Want(e, s, params, copy)
    ensures Want(e, s, params, copy).Some? && copy ==>
              Want(e, s, params, copy).value.codec == if s.codecName.Some? then s.codecName.value else ""
  {
    hide DefaultH264, PutAll, Put;
  }

  /** What variant `v` is: a copy of an H.264 source video, a transcode of the chosen source to a
      request, or the chosen audio as some egress wants it; video is scaled only if it has to be. */
  ghost predicate Configured(info: seq<IngressStream>, caps: seq<VariantType>, egress: seq<EgressType>,
                             v: VariantStream) {
    match v
    case Video(x) =>
      var src := TranscodeVideoSrc(info);
      && src.Some? && ScaledFor(v, src.value)
      && exists h, bitrate :: Variant(h, bitrate) in caps && TranscodeOf(x, src.value, h, bitrate)
    case CopyVideo(x) =>
      && SourceVariant in caps
      && exists s :: s in info && s.streamType == VideoStream && CopyOk(s) && CopyOf(x, s) && ScaledFor(v, s)
    case Audio(a) =>
      && TranscodeAudioSrc(info).Some?
      && exists e :: e in egress && !e.Recorder? && AudioOf(a, e, TranscodeAudioSrc(info).value)
    case _ => false
  }

  lemma VideoOfCall(info: seq<IngressStream>, caps: seq<VariantType>, egress: seq<EgressType>, call: Call,
                    v: VariantStream, r: Request, e: EgressType)
    requires PlannedCall(info, caps, call) && call.group.Valid() && call.group.video == Some(r.stream)
    requires !e.Recorder? && Want(e, r.stream, call.group.videoParams, call.copy) == Some(r.config)
    requires BuiltFor(v, r.config) && v.SrcIndex() == r.stream.index && ScaledFor(v, r.stream)
    requires if call.copy then v.CopyVideo? else v.Video?
    ensures Configured(info, caps, egress, v)
  {
    hide Want, BuiltFor, ScaledFor, VideoConfig, TranscodeVideoSrc, TranscodeAudioSrc, CopyOf, TranscodeOf,
      IngressStreamToParams;
    SourcesAreTyped(info);
    var audio := TranscodeAudioSrc(info);
    VideoWant(e, r.stream, call.group.videoParams, call.copy);
    if call.copy {
      var s :| s in info && s.streamType == VideoStream && call.group == CopyGroup(s, audio);
      CopyIs(v, s);
    } else {
      var src := TranscodeVideoSrc(info).value;
      var h, bitrate :| Variant(h, bitrate) in caps && call.group == TranscodeGroup(src, audio, h, bitrate);
      assert r.stream == src;
      TranscodeIs(v, src, audio, h, bitrate);
    }
  }

  lemma AudioOfCall(info: seq<IngressStream>, caps: seq<VariantType>, egress: seq<EgressType>, call: Call,
                    v: VariantStream, r: Request, e: EgressType)
    requires PlannedCall(info, caps, call) && call.group.Valid() && call.group.audio == Some(r.stream)
    requires e in egress && !e.Recorder? && Want(e, r.stream, call.group.audioParams, call.copy) == Some(r.config)
    requires BuiltFor(v, r.config) && v.SrcIndex() == r.stream.index
    ensures Configured(info, caps, egress, v)
  {
    hide Want, BuiltFor, GetEncoderParams, TranscodeVideoSrc, TranscodeAudioSrc, AudioOf, IngressStreamToParams;
    SourcesAreTyped(info);
    RecordersWantNothing(e, r.stream, call.group.audioParams, call.copy);
    GroupAudio(info, caps, call);
    AudioIs(v, e, r.stream);
  }

  /** Every call comes with the chosen audio, as it is. */
  lemma GroupAudio(info: seq<IngressStream>, caps: seq<VariantType>, call: Call)
    requires PlannedCall(info, caps, call)
    ensures call.group.audio == TranscodeAudioSrc(info)
    ensures call.group.audio.Some? ==>
              call.group.audio.value.streamType == AudioStream
              && call.group.audioParams == IngressStreamToParams(call.group.audio.value)
  {
    hide TranscodeVideoSrc, TranscodeAudioSrc, IngressStreamToParams, PutAll;
    SourcesAreTyped(info);
  }

  /** Every variant of a finished configuration, field by field. */
  lemma EveryVariantIsConfigured(info: seq<IngressStream>, caps: seq<VariantType>, egress: seq<EgressType>, b: Build,
                                 made: seq<EgressEncoderConfig>, calls: seq<Call>, i: nat)
    requires EngineState(info, caps, egress, caps, b, made, calls) && Planned(info, Sort(caps), calls)
    requires i < |b.variants|
    ensures Configured(info, caps, egress, b.variants[i])
  {
    hide CopiesInv, RungsInv, Serves, Planned, PlannedCall, GroupOk, Minimal, BuiltFor, ScaledFor, Configured, Want,
      Requests;
    var v := b.variants[i];
    assert MadeAt(b.variants, made, b.dup, b.nextId, i);
    var j: nat :| 0 <= j < |calls| && MadeInCall(egress, calls[j], v, made[i]);
    SortSorts(caps);
    forall c | c in Sort(caps) ensures c in caps { SameMembers(caps, Sort(caps), c); }
    CallsArePlanned(info, Sort(caps), caps, calls, j);
    var call, reqs := calls[j], Requests(egress, calls[j].group, calls[j].copy);
    var n :| 0 <= n < |reqs| && reqs[n].config == made[i] && v.SrcIndex() == reqs[n].stream.index
        && ScaledFor(v, reqs[n].stream);
    var r := reqs[n];
    var e := RequestIs(egress, call.group, call.copy, r);
    RequestsAreTyped(egress, call.group, call.copy);
    if r.config.streamType == VideoStream {
      VideoOfCall(info, caps, egress, call, v, r, e);
    } else {
      AudioOfCall(info, caps, egress, call, v, r, e);
    }
  }
}
