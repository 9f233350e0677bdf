/** Encoder parameters and the variants configured by them
    (crates/core/src/egress/mod.rs, crates/core/src/variant/video.rs, crates/core/src/variant/audio.rs). */
module Params {
  import opened Wrappers

  datatype ParamKind =
    | KWidth | KHeight | KBitrate | KFramerate | KPreset | KTune | KColorSpace | KColorRange
    | KGOPSize | KMaxBFrames | KProfile | KLevel | KPixelFormat | KSampleFormat | KSampleRate | KAudioChannels

  datatype EncoderParam =
    | Width(width: nat)
    | Height(height: nat)
    | Bitrate(bitrate: nat)
    | Framerate(num: nat, den: nat)
    | Preset(preset: string)
    | Tune(tune: string)
    | ColorSpace(space: string)
    | ColorRange(range: string)
    | GOPSize(gop: nat)
    | MaxBFrames(frames: nat)
    | Profile(profile: nat)
    | Level(level: nat)
    | PixelFormat(pixels: string)
    | SampleFormat(samples: string)
    | SampleRate(rate: nat)
    | AudioChannels(count: nat)
  {
    /** The discriminant compared by `eq_type`. */
    function Kind(): ParamKind {
      match this
      case Width(_) => KWidth
      case Height(_) => KHeight
      case Bitrate(_) => KBitrate
      case Framerate(_, _) => KFramerate
      case Preset(_) => KPreset
      case Tune(_) => KTune
      case ColorSpace(_) => KColorSpace
      case ColorRange(_) => KColorRange
      case GOPSize(_) => KGOPSize
      case MaxBFrames(_) => KMaxBFrames
      case Profile(_) => KProfile
      case Level(_) => KLevel
      case PixelFormat(_) => KPixelFormat
      case SampleFormat(_) => KSampleFormat
      case SampleRate(_) => KSampleRate
      case AudioChannels(_) => KAudioChannels
    }
  }

  // ----- The parameter list as a last-writer-wins map ------------------------

  /** Replace the first parameter of the same kind, or append. */
  function Put(s: seq<EncoderParam>, p: EncoderParam): seq<EncoderParam> {
    if s == [] then [p]
    else if s[0].Kind() == p.Kind() then [p] + s[1..]
    else [s[0]] + Put(s[1..], p)
  }

  function PutAll(s: seq<EncoderParam>, ps: seq<EncoderParam>): seq<EncoderParam> {
    if ps == [] then s else Put(PutAll(s, ps[..|ps| - 1]), ps[|ps| - 1])
  }

  /** The value in force for a kind: the last one given. */
  function Lookup(s: seq<EncoderParam>, k: ParamKind): (r: Option<EncoderParam>)
    ensures r.Some? ==> r.value.Kind() == k
  {
    if s == [] then None
    else if s[|s| - 1].Kind() == k then Some(s[|s| - 1])
    else Lookup(s[..|s| - 1], k)
  }

  ghost predicate NoDuplicates(s: seq<EncoderParam>) {
    forall i, j | 0 <= i < j < |s| :: s[i].Kind() != s[j].Kind()
  }

  function Override(over: Option<EncoderParam>, base: Option<EncoderParam>): Option<EncoderParam> {
    if over.Some? then over else base
  }

  class EncoderParams {
    var params: seq<EncoderParam>

    constructor (params: seq<EncoderParam>)
      ensures this.params == params
    {
      this.params := params;
    }

    method AddParam(param: EncoderParam)
      modifies this
      ensures params == Put(old(params), param)
    {
      hide EncoderParam.Kind;
      var i := 0;
      while i < |params| && params[i].Kind() != param.Kind()
        invariant i <= |params| && params == old(params)
        invariant Put(params, param) == params[..i] + Put(params[i..], param)
      {
        assert params[i..][1..] == params[i + 1..];
        assert params[..i + 1] == params[..i] + [params[i]];
        i := i + 1;
      }
      if i < |params| {
        assert params[i..][1..] == params[i + 1..];
        params := params[i := param];
      } else {
        params := params + [param];
      }
    }

    method AddParams(param: seq<EncoderParam>)
      modifies this
      ensures params == PutAll(old(params), param)
    {
      for i := 0 to |param|
        invariant params == PutAll(old(params), param[..i])
      {
        assert param[..i + 1][..i] == param[..i];
        AddParam(param[i]);
      }
      assert param[..|param|] == param;
    }

    method Extend(other: EncoderParams)
      requires other != this
      modifies this
      ensures params == PutAll(old(params), other.params)
    {
      AddParams(other.params);
    }
  }

  // ----- Laws of the map --------------------------------------------------

  lemma {:induction false} LookupConcat(s: seq<EncoderParam>, t: seq<EncoderParam>, k: ParamKind)
    ensures Lookup(s + t, k) == Override(Lookup(t, k), Lookup(s, k))
    decreases |t|
  {
    if t == [] {
      assert s + t == s;
    } else {
      assert (s + t)[..|s + t| - 1] == s + t[..|t| - 1];
      LookupConcat(s, t[..|t| - 1], k);
    }
  }

  lemma {:induction false} LookupFirst(p: EncoderParam, s: seq<EncoderParam>, k: ParamKind)
    ensures Lookup([p] + s, k) == Override(Lookup(s, k), if p.Kind() == k then Some(p) else None)
  {
    LookupConcat([p], s, k);
    assert [p][..0] == [];
  }

  lemma {:induction false} LookupAbsent(s: seq<EncoderParam>, k: ParamKind)
    requires forall i | 0 <= i < |s| :: s[i].Kind() != k
    ensures Lookup(s, k) == None
    decreases |s|
  {
    if s != [] {
      LookupAbsent(s[..|s| - 1], k);
    }
  }

  lemma {:induction false} PutLookup(s: seq<EncoderParam>, p: EncoderParam, k: ParamKind)
    requires NoDuplicates(s)
    ensures Lookup(Put(s, p), k) == if p.Kind() == k then Some(p) else Lookup(s, k)
    decreases |s|
  {
    if s == [] {
      assert [p][..0] == [];
    } else {
      assert s == [s[0]] + s[1..];
      LookupFirst(s[0], s[1..], k);
      if s[0].Kind() == p.Kind() {
        LookupFirst(p, s[1..], k);
        if k == p.Kind() {
          LookupAbsent(s[1..], k);
        }
      } else {
        PutLookup(s[1..], p, k);
        LookupFirst(s[0], Put(s[1..], p), k);
      }
    }
  }

  lemma {:induction false} PutKinds(s: seq<EncoderParam>, p: EncoderParam)
    ensures forall i | 0 <= i < |Put(s, p)| ::
              Put(s, p)[i].Kind() == p.Kind() || exists j | 0 <= j < |s| :: s[j].Kind() == Put(s, p)[i].Kind()
    ensures NoDuplicates(s) ==> NoDuplicates(Put(s, p))
    decreases |s|
  {
    if s != [] && s[0].Kind() != p.Kind() {
      PutKinds(s[1..], p);
      var rest := Put(s[1..], p);
      assert forall j | 0 <= j < |s| - 1 :: s[1..][j] == s[j + 1];
      forall i | 0 <= i < |rest|
        ensures rest[i].Kind() == p.Kind() || exists j | 0 <= j < |s| :: s[j].Kind() == rest[i].Kind()
      {
      }
    }
  }

  /** `extend` is a last-writer-wins merge: every kind has the value of the second list if it
      has one, that of the first otherwise, and no kind ever occurs twice. */
  lemma {:induction false} ExtendLookup(s: seq<EncoderParam>, ps: seq<EncoderParam>, k: ParamKind)
    requires NoDuplicates(s)
    ensures NoDuplicates(PutAll(s, ps))
    ensures Lookup(PutAll(s, ps), k) == Override(Lookup(ps, k), Lookup(s, k))
    decreases |ps|
  {
    if ps != [] {
      var init := ps[..|ps| - 1];
      ExtendLookup(s, init, k);
      PutLookup(PutAll(s, init), ps[|ps| - 1], k);
      PutKinds(PutAll(s, init), ps[|ps| - 1]);
    }
  }

  // ----- Variants ---------------------------------------------------------

  datatype VideoVariant = VideoVariant(
    id: nat, srcIndex: nat, codec: string, width: nat, height: nat, fps: (nat, nat), bitrate: nat,
    preset: Option<string>, tune: Option<string>, gop: nat, maxBFrames: nat, profile: nat, level: nat,
    pixelFormat: string, colorSpace: string, colorRange: string, scaled: bool)

  datatype AudioVariant = AudioVariant(
    id: nat, srcIndex: nat, codec: string, bitrate: nat, sampleFormat: string, sampleRate: nat, channels: nat)

  function DefaultVideo(id: nat, srcIndex: nat, codec: string): VideoVariant {
    VideoVariant(id, srcIndex, codec, 0, 0, (0, 1), 0, None, None, 0, 0, 0, 0, "", "", "", false)
  }

  function DefaultAudio(id: nat, srcIndex: nat, codec: string): AudioVariant {
    AudioVariant(id, srcIndex, codec, 0, "", 0, 0)
  }

  function SetVideo(v: VideoVariant, p: EncoderParam): VideoVariant {
    match p
    case Width(x) => v.(width := x)
    case Height(x) => v.(height := x)
    case Bitrate(x) => v.(bitrate := x)
    case Framerate(n, d) => v.(fps := (n, d))
    case Preset(x) => v.(preset := Some(x))
    case Tune(x) => v.(tune := Some(x))
    case GOPSize(x) => v.(gop := x)
    case MaxBFrames(x) => v.(maxBFrames := x)
    case Profile(x) => v.(profile := x)
    case Level(x) => v.(level := x)
    case PixelFormat(x) => v.(pixelFormat := x)
    case ColorRange(x) => v.(colorRange := x)
    case ColorSpace(x) => v.(colorSpace := x)
    case _ => v
  }

  /** `AudioChannels` is truncated to u8. */
  function SetAudio(a: AudioVariant, p: EncoderParam): AudioVariant {
    match p
    case Bitrate(x) => a.(bitrate := x)
    case SampleFormat(x) => a.(sampleFormat := x)
    case SampleRate(x) => a.(sampleRate := x)
    case AudioChannels(x) => a.(channels := x % 256)
    case _ => a
  }

  function SetAllVideo(v: VideoVariant, ps: seq<EncoderParam>): VideoVariant {
    if ps == [] then v else SetVideo(SetAllVideo(v, ps[..|ps| - 1]), ps[|ps| - 1])
  }

  function SetAllAudio(a: AudioVariant, ps: seq<EncoderParam>): AudioVariant {
    if ps == [] then a else SetAudio(SetAllAudio(a, ps[..|ps| - 1]), ps[|ps| - 1])
  }

  method ApplyVideoParams(v: VideoVariant, params: seq<EncoderParam>) returns (r: VideoVariant)
    ensures r == SetAllVideo(v, params)
  {
    r := v;
    for i := 0 to |params|
      invariant r == SetAllVideo(v, params[..i])
    {
      assert params[..i + 1][..i] == params[..i];
      r := SetVideo(r, params[i]);
    }
    assert params[..|params|] == params;
  }

  method ApplyAudioParams(a: AudioVariant, params: seq<EncoderParam>) returns (r: AudioVariant)
    ensures r == SetAllAudio(a, params)
  {
    r := a;
    for i := 0 to |params|
      invariant r == SetAllAudio(a, params[..i])
    {
      assert params[..i + 1][..i] == params[..i];
      r := SetAudio(r, params[i]);
    }
    assert params[..|params|] == params;
  }

  /** Every field of `v` is what `ps` asks for, or the default of `base`. */
  ghost predicate VideoReads(v: VideoVariant, base: VideoVariant, ps: seq<EncoderParam>) {
    ReadsPicture(v, base, ps) && ReadsEffort(v, base, ps) && ReadsConformance(v, base, ps) && ReadsColors(v, base, ps)
  }

  ghost predicate ReadsPicture(v: VideoVariant, base: VideoVariant, ps: seq<EncoderParam>) {
    && v.id == base.id && v.srcIndex == base.srcIndex && v.codec == base.codec && v.scaled == base.scaled
    && v.width == (match Lookup(ps, KWidth) case Some(Width(x)) => x case _ => base.width)
    && v.height == (match Lookup(ps, KHeight) case Some(Height(x)) => x case _ => base.height)
    && v.bitrate == (match Lookup(ps, KBitrate) case Some(Bitrate(x)) => x case _ => base.bitrate)
    && v.fps == (match Lookup(ps, KFramerate) case Some(Framerate(n, d)) => (n, d) case _ => base.fps)
  }

  ghost predicate ReadsEffort(v: VideoVariant, base: VideoVariant, ps: seq<EncoderParam>) {
    && v.preset == (match Lookup(ps, KPreset) case Some(Preset(x)) => Some(x) case _ => base.preset)
    && v.tune == (match Lookup(ps, KTune) case Some(Tune(x)) => Some(x) case _ => base.tune)
    && v.gop == (match Lookup(ps, KGOPSize) case Some(GOPSize(x)) => x case _ => base.gop)
  }

  ghost predicate ReadsConformance(v: VideoVariant, base: VideoVariant, ps: seq<EncoderParam>) {
    && v.maxBFrames == (match Lookup(ps, KMaxBFrames) case Some(MaxBFrames(x)) => x case _ => base.maxBFrames)
    && v.profile == (match Lookup(ps, KProfile) case Some(Profile(x)) => x case _ => base.profile)
    && v.level == (match Lookup(ps, KLevel) case Some(Level(x)) => x case _ => base.level)
  }

  ghost predicate ReadsColors(v: VideoVariant, base: VideoVariant, ps: seq<EncoderParam>) {
    && v.pixelFormat == (match Lookup(ps, KPixelFormat) case Some(PixelFormat(x)) => x case _ => base.pixelFormat)
    && v.colorRange == (match Lookup(ps, KColorRange) case Some(ColorRange(x)) => x case _ => base.colorRange)
    && v.colorSpace == (match Lookup(ps, KColorSpace) case Some(ColorSpace(x)) => x case _ => base.colorSpace)
  }

  lemma LookupLast(init: seq<EncoderParam>, p: EncoderParam, k: ParamKind)
    ensures Lookup(init + [p], k) == if p.Kind() == k then Some(p) else Lookup(init, k)
  {
    assert (init + [p])[..|init|] == init;
  }

  lemma ReadsPictureStep(v: VideoVariant, base: VideoVariant, init: seq<EncoderParam>, p: EncoderParam)
    requires ReadsPicture(v, base, init)
    ensures ReadsPicture(SetVideo(v, p), base, init + [p])
  {
    hide Lookup;
    forall k ensures Lookup(init + [p], k) == if p.Kind() == k then Some(p) else Lookup(init, k) {
      LookupLast(init, p, k);
    }
  }

  lemma ReadsEffortStep(v: VideoVariant, base: VideoVariant, init: seq<EncoderParam>, p: EncoderParam)
    requires ReadsEffort(v, base, init)
    ensures ReadsEffort(SetVideo(v, p), base, init + [p])
  {
    hide Lookup;
    forall k ensures Lookup(init + [p], k) == if p.Kind() == k then Some(p) else Lookup(init, k) {
      LookupLast(init, p, k);
    }
  }

  lemma ReadsConformanceStep(v: VideoVariant, base: VideoVariant, init: seq<EncoderParam>, p: EncoderParam)
    requires ReadsConformance(v, base, init)
    ensures ReadsConformance(SetVideo(v, p), base, init + [p])
  {
    hide Lookup;
    forall k ensures Lookup(init + [p], k) == if p.Kind() == k then Some(p) else Lookup(init, k) {
      LookupLast(init, p, k);
    }
  }

  lemma ReadsColorsStep(v: VideoVariant, base: VideoVariant, init: seq<EncoderParam>, p: EncoderParam)
    requires ReadsColors(v, base, init)
    ensures ReadsColors(SetVideo(v, p), base, init + [p])
  {
    hide Lookup;
    forall k ensures Lookup(init + [p], k) == if p.Kind() == k then Some(p) else Lookup(init, k) {
      LookupLast(init, p, k);
    }
  }

  /** The fields of a configured variant are exactly the parameters in force. */
  lemma {:induction false} VariantReadsParams(base: VideoVariant, ps: seq<EncoderParam>)
    ensures VideoReads(SetAllVideo(base, ps), base, ps)
    decreases |ps|
  {
    hide ReadsPicture, ReadsEffort, ReadsConformance, ReadsColors, SetVideo;
    if ps == [] {
      VideoReadsNothing(base);
    } else {
      var init := ps[..|ps| - 1];
      VariantReadsParams(base, init);
      ReadsPictureStep(SetAllVideo(base, init), base, init, ps[|ps| - 1]);
      ReadsEffortStep(SetAllVideo(base, init), base, init, ps[|ps| - 1]);
      ReadsConformanceStep(SetAllVideo(base, init), base, init, ps[|ps| - 1]);
      ReadsColorsStep(SetAllVideo(base, init), base, init, ps[|ps| - 1]);
      assert ps == init + [ps[|ps| - 1]];
    }
  }

  ghost predicate AudioReads(a: AudioVariant, base: AudioVariant, ps: seq<EncoderParam>) {
    && a.id == base.id && a.srcIndex == base.srcIndex && a.codec == base.codec
    && a.bitrate == (match Lookup(ps, KBitrate) case Some(Bitrate(x)) => x case _ => base.bitrate)
    && a.sampleFormat == (match Lookup(ps, KSampleFormat) case Some(SampleFormat(x)) => x case _ => base.sampleFormat)
    && a.sampleRate == (match Lookup(ps, KSampleRate) case Some(SampleRate(x)) => x case _ => base.sampleRate)
    && a.channels == (match Lookup(ps, KAudioChannels) case Some(AudioChannels(x)) => x % 256 case _ => base.channels)
  }

  lemma AudioReadsStep(a: AudioVariant, base: AudioVariant, init: seq<EncoderParam>, p: EncoderParam)
    requires AudioReads(a, base, init)
    ensures AudioReads(SetAudio(a, p), base, init + [p])
  {
    hide Lookup;
    forall k ensures Lookup(init + [p], k) == if p.Kind() == k then Some(p) else Lookup(init, k) {
      LookupLast(init, p, k);
    }
  }

  lemma {:induction false} AudioVariantReadsParams(base: AudioVariant, ps: seq<EncoderParam>)
    ensures AudioReads(SetAllAudio(base, ps), base, ps)
    decreases |ps|
  {
    hide SetAudio;
    if ps != [] {
      var init := ps[..|ps| - 1];
      AudioVariantReadsParams(base, init);
      AudioReadsStep(SetAllAudio(base, init), base, init, ps[|ps| - 1]);
      assert ps == init + [ps[|ps| - 1]];
    }
  }

  lemma VideoReadsNothing(base: VideoVariant)
    ensures VideoReads(base, base, [])
  {}

  datatype VariantStream =
    | Video(video: VideoVariant)
    | Audio(audio: AudioVariant)
    | Subtitle(subtitleId: nat, subtitleSrc: nat)
    | CopyVideo(video: VideoVariant)
    | CopyAudio(audio: AudioVariant)
    | Plugin(pluginId: nat, name: string, pluginSrc: nat)
  {
    function Id(): nat {
      match this
      case Video(v) => v.id
      case Audio(a) => a.id
      case Subtitle(id, _) => id
      case CopyVideo(v) => v.id
      case CopyAudio(a) => a.id
      case Plugin(id, _, _) => id
    }

    function SrcIndex(): nat {
      match this
      case Video(v) => v.srcIndex
      case Audio(a) => a.srcIndex
      case Subtitle(_, s) => s
      case CopyVideo(v) => v.srcIndex
      case CopyAudio(a) => a.srcIndex
      case Plugin(_, _, s) => s
    }
  }

  /** Ids of the member streams of one output of an egress. */
  datatype VariantGroup = VariantGroup(video: Option<nat>, audio: Option<nat>, subtitle: Option<nat>)

  const EMPTY_GROUP := VariantGroup(None, None, None)
}
