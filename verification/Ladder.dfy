/** Which video variants a configuration ends up with
    (crates/core/src/endpoint.rs, lines 103-231). */
module Ladder {
  import opened Wrappers
  import opened Arith
  import opened Params
  import opened Capabilities
  import opened Egress
  import opened Dedup
  import opened Endpoint

  // ----- The video configuration of a call ------------------------------------

  /** What every egress but a recorder asks for a video stream. */
  function VideoConfig(s: IngressStream, params: seq<EncoderParam>): EgressEncoderConfig
    requires s.streamType == VideoStream
  {
    GetEncoderParams(Moq(0), s, params).value
  }

  ghost predicate NonRecorder(egress: seq<EgressType>) {
    exists e :: e in egress && !e.Recorder?
  }

  /** Can the stream be copied: is it H.264 already? */
  predicate CopyOk(s: IngressStream) { s.codecName == Some("h264") }

  /** Is the video of the call offered to the egresses at all? */
  predicate Offered(call: Call) {
    call.group.video.Some? && (!call.copy || CopyOk(call.group.video.value))
  }

  lemma VideoWant(e: EgressType, s: IngressStream, params: seq<EncoderParam>, copy: bool)
    requires s.streamType == VideoStream && !e.Recorder?
    ensures VideoConfig(s, params).streamType == VideoStream
    ensures Want(e, s, params, copy) == if !copy || CopyOk(s) then Some(VideoConfig(s, params)) else None
  {
    VideoConfigIsShared(e, Moq(0), s, params);
    hide DefaultAudioH264;
    assert VideoConfig(s, params).codec == "h264";
    assert "" != "h264";
  }

  lemma {:induction false} VideoRequests(egress: seq<EgressType>, call: Call, r: Request)
    requires call.group.Valid() && r in Requests(egress, call.group, call.copy) && r.config.streamType == VideoStream
    ensures Offered(call) && r.config == VideoConfig(call.group.video.value, call.group.videoParams)
    decreases |egress|
  {
    var init, e := egress[..|egress| - 1], egress[|egress| - 1];
    if r in Requests(init, call.group, call.copy) {
      VideoRequests(init, call, r);
    } else {
      VideoRequestOf(e, call, r);
    }
  }

  lemma VideoRequestOf(e: EgressType, call: Call, r: Request)
    requires call.group.Valid() && r in RequestsOf(e, call.group, call.copy) && r.config.streamType == VideoStream
    ensures Offered(call) && r.config == VideoConfig(call.group.video.value, call.group.videoParams)
  {
    hide DefaultVideoH264, DefaultAudioH264, PutAll, Put, VideoConfig;
    var g := call.group;
    assert r in StreamRequest(e, g.video, g.videoParams, call.copy) by {
      assert forall x | x in StreamRequest(e, g.audio, g.audioParams, call.copy) :: x.config.streamType == AudioStream;
    }
    VideoWant(e, g.video.value, g.videoParams, call.copy);
  }

  lemma {:induction false} VideoRequested(egress: seq<EgressType>, call: Call)
    requires call.group.Valid() && Offered(call) && NonRecorder(egress)
    ensures exists r :: r in Requests(egress, call.group, call.copy)
                        && r.config == VideoConfig(call.group.video.value, call.group.videoParams)
    decreases |egress|
  {
    hide VideoConfig, Want;
    var init, e := egress[..|egress| - 1], egress[|egress| - 1];
    var g := call.group;
    if !e.Recorder? {
      VideoWant(e, g.video.value, g.videoParams, call.copy);
      var r := Request(e.id, VideoConfig(g.video.value, g.videoParams), g.video.value);
      assert StreamRequest(e, g.video, g.videoParams, call.copy) == [r];
      assert r in RequestsOf(e, g, call.copy);
      assert r in Requests(egress, g, call.copy);
    } else {
      var x :| x in egress && !x.Recorder?;
      assert x in init;
      VideoRequested(init, call);
      var r :| r in Requests(init, g, call.copy) && r.config == VideoConfig(g.video.value, g.videoParams);
      assert r in Requests(egress, g, call.copy);
    }
  }

  // ----- Geometry of configurations -------------------------------------------

  /** A video variant has the geometry its configuration asks for. */
  lemma BuiltGeometry(v: VariantStream, c: EgressEncoderConfig)
    requires BuiltFor(v, c) && c.streamType == VideoStream
    ensures IsVideo(v)
    ensures v.video.height == (match Lookup(c.codecParams, KHeight) case Some(Height(x)) => x case _ => 0)
    ensures v.video.width == (match Lookup(c.codecParams, KWidth) case Some(Width(x)) => x case _ => 0)
    ensures v.video.bitrate == (match Lookup(c.codecParams, KBitrate) case Some(Bitrate(x)) => x case _ => 0)
  {
    hide Lookup;
  }

  lemma VideoConfigLookup(s: IngressStream, params: seq<EncoderParam>, k: ParamKind)
    requires s.streamType == VideoStream && (k == KHeight || k == KWidth || k == KBitrate)
    ensures Lookup(VideoConfig(s, params).codecParams, k) == Lookup(params, k)
  {
    EgressAsksFor(Moq(0), s, params, k);
    DefaultHasNoGeometry(s, k);
    hide Lookup, DefaultVideoH264, DefaultAudioH264;
  }

  lemma DefaultHasNoGeometry(s: IngressStream, k: ParamKind)
    requires k == KHeight || k == KWidth || k == KBitrate
    ensures Lookup(DefaultVideoH264(s).codecParams, k) == None
  {
    LookupAbsent(DefaultVideoH264(s).codecParams, k);
  }

  lemma LookupSingle(p: EncoderParam, k: ParamKind)
    ensures Lookup([p], k) == if p.Kind() == k then Some(p) else None
  {
    assert [p][..0] == [];
  }

  /** A copy has the height of its source. */
  lemma CopyHeight(s: IngressStream)
    requires s.streamType == VideoStream
    ensures (match Lookup(IngressStreamToParams(s), KHeight) case Some(Height(x)) => x case _ => 0) == s.height % U16
  {
    hide Lookup;
    var a := If(s.fps > 0.0, Framerate(s.fpsQ.0, s.fpsQ.1));
    var b := If(s.width != 0, Width(s.width % U16));
    var c := If(s.height != 0, Height(s.height % U16));
    var d := If(s.bitrate != 0, Bitrate(s.bitrate));
    var e := match s.formatName case Some(n) => [PixelFormat(n)] case None => [];
    assert IngressStreamToParams(s) == (((a + b) + c) + d) + e;
    LookupConcat(((a + b) + c) + d, e, KHeight);
    LookupConcat((a + b) + c, d, KHeight);
    LookupConcat(a + b, c, KHeight);
    LookupConcat(a, b, KHeight);
    LookupNothing(KHeight);
    LookupSingle(Framerate(s.fpsQ.0, s.fpsQ.1), KHeight);
    LookupSingle(Width(s.width % U16), KHeight);
    LookupSingle(Height(s.height % U16), KHeight);
    LookupSingle(Bitrate(s.bitrate), KHeight);
    match s.formatName
    case Some(n) => LookupSingle(PixelFormat(n), KHeight);
    case None =>
  }

  lemma LookupNothing(k: ParamKind)
    ensures Lookup([], k) == None
  {}

  ghost predicate DistinctAmong(s: seq<EncoderParam>, kinds: set<ParamKind>) {
    NoDuplicates(s) && forall i | 0 <= i < |s| :: s[i].Kind() in kinds
  }

  lemma AppendDistinct(s: seq<EncoderParam>, kinds: set<ParamKind>, t: seq<EncoderParam>, k: ParamKind,
                       all: set<ParamKind>)
    requires DistinctAmong(s, kinds) && k !in kinds && all == kinds + {k}
    requires |t| <= 1 && (t != [] ==> t[0].Kind() == k)
    ensures DistinctAmong(s + t, all)
  {}

  lemma IngressIsDistinct(s: IngressStream)
    requires s.streamType == VideoStream
    ensures NoDuplicates(IngressStreamToParams(s))
  {
    hide DistinctAmong, NoDuplicates;
    var a := If(s.fps > 0.0, Framerate(s.fpsQ.0, s.fpsQ.1));
    var b := If(s.width != 0, Width(s.width % U16));
    var c := If(s.height != 0, Height(s.height % U16));
    var d := If(s.bitrate != 0, Bitrate(s.bitrate));
    var e := match s.formatName case Some(n) => [PixelFormat(n)] case None => [];
    SingleIsDistinct(a, KFramerate);
    AppendDistinct(a, {KFramerate}, b, KWidth, {KFramerate, KWidth});
    AppendDistinct(a + b, {KFramerate, KWidth}, c, KHeight, {KFramerate, KWidth, KHeight});
    AppendDistinct(a + b + c, {KFramerate, KWidth, KHeight}, d, KBitrate, {KFramerate, KWidth, KHeight, KBitrate});
    AppendDistinct(a + b + c + d, {KFramerate, KWidth, KHeight, KBitrate}, e, KPixelFormat,
                   {KFramerate, KWidth, KHeight, KBitrate, KPixelFormat});
    DistinctOnly(a + b + c + d + e, {KFramerate, KWidth, KHeight, KBitrate, KPixelFormat});
  }

  lemma SingleIsDistinct(t: seq<EncoderParam>, k: ParamKind)
    requires |t| <= 1 && (t != [] ==> t[0].Kind() == k)
    ensures DistinctAmong(t, {k})
  {}

  lemma DistinctOnly(s: seq<EncoderParam>, kinds: set<ParamKind>)
    requires DistinctAmong(s, kinds)
    ensures NoDuplicates(s)
  {}

  /** A rung of the ladder has the rounded height, the width that keeps the aspect ratio, and
      the requested bitrate. */
  lemma RungGeometry(src: IngressStream, audio: Option<IngressStream>, h: nat, bitrate: nat)
    requires src.streamType == VideoStream && (audio.Some? ==> audio.value.streamType == AudioStream)
    ensures var ps := TranscodeGroup(src, audio, h, bitrate).videoParams;
            && Lookup(ps, KHeight) == Some(Height(RoundEven(h)))
            && Lookup(ps, KWidth) == Some(Width(OutputWidth(src, h)))
            && Lookup(ps, KBitrate) == Some(Bitrate(bitrate))
  {
    hide Lookup, OutputWidth, RoundEven, IngressStreamToParams, PutAll;
    IngressIsDistinct(src);
    forall k | k == KHeight || k == KWidth || k == KBitrate
      ensures Lookup(TranscodeGroup(src, audio, h, bitrate).videoParams, k) ==
              if k == KHeight then Some(Height(RoundEven(h)))
              else if k == KWidth then Some(Width(OutputWidth(src, h)))
              else Some(Bitrate(bitrate))
    {
      var a, b, c := Bitrate(bitrate), Height(RoundEven(h)), Width(OutputWidth(src, h));
      ExtendLookup(IngressStreamToParams(src), [a, b, c], k);
      assert [a, b, c] == ([a] + [b]) + [c];
      LookupConcat([a] + [b], [c], k);
      LookupConcat([a], [b], k);
      LookupSingle(a, k);
      LookupSingle(b, k);
      LookupSingle(c, k);
    }
  }

  // ----- What a call adds -----------------------------------------------------

  /** Every new variant of a call is audio or video of the one configuration of the call. */
  lemma NewVariant(egress: seq<EgressType>, call: Call, b: Build, made: seq<EgressEncoderConfig>,
                   b': Build, made': seq<EgressEncoderConfig>, i: nat)
    requires call.group.Valid() && Extends(egress, call, b, made, b', made')
    requires DedupInv(b'.variants, made', b'.dup, b'.nextId)
    requires |made| <= i < |made'| && IsVideo(b'.variants[i])
    ensures Offered(call) && made'[i] == VideoConfig(call.group.video.value, call.group.videoParams)
    ensures BuiltFor(b'.variants[i], made'[i]) && made'[i].streamType == VideoStream
    ensures if call.copy then b'.variants[i].CopyVideo? else b'.variants[i].Video?
  {
    hide Requests, VideoConfig;
    assert MadeAt(b'.variants, made', b'.dup, b'.nextId, i);
    assert MadeFrom(b'.variants[i], made'[i], Requests(egress, call.group, call.copy), call.copy);
    var reqs := Requests(egress, call.group, call.copy);
    var j :| 0 <= j < |reqs| && reqs[j].config == made'[i];
    VideoRequests(egress, call, reqs[j]);
  }

  /** After an offered call some variant has its video configuration. */
  lemma ConfigIsMade(egress: seq<EgressType>, call: Call, b: Build, made: seq<EgressEncoderConfig>,
                     b': Build, made': seq<EgressEncoderConfig>) returns (i: nat)
    requires call.group.Valid() && Extends(egress, call, b, made, b', made')
    requires DedupInv(b'.variants, made', b'.dup, b'.nextId)
    requires Offered(call) && NonRecorder(egress)
    ensures i < |made'| == |b'.variants| && made'[i] == VideoConfig(call.group.video.value, call.group.videoParams)
    ensures BuiltFor(b'.variants[i], made'[i]) && made'[i].streamType == VideoStream
  {
    hide Requests, VideoConfig, BuiltFor;
    VideoRequested(egress, call);
    var reqs := Requests(egress, call.group, call.copy);
    var c := VideoConfig(call.group.video.value, call.group.videoParams);
    var r :| r in reqs && r.config == c;
    VideoWant(Moq(0), call.group.video.value, call.group.videoParams, false);
    assert c in b'.dup;
    i :| 0 <= i < |made'| && made'[i] == c;
    assert MadeAt(b'.variants, made', b'.dup, b'.nextId, i);
  }

  // ----- The ladder -----------------------------------------------------------

  /** Is a source stream of this height copied when the capabilities are `caps`? */
  ghost predicate Copied(info: seq<IngressStream>, caps: seq<VariantType>, h: nat) {
    SourceVariant in caps
    && exists s :: s in info && s.streamType == VideoStream && CopyOk(s) && s.height % U16 == h
  }

  /** A requested height is eligible if it needs no upscaling and no copy has it already. */
  ghost predicate Eligible(info: seq<IngressStream>, caps: seq<VariantType>, src: IngressStream, h: nat) {
    h <= src.height && !Copied(info, caps, h)
  }

  ghost predicate HasCopy(variants: seq<VariantStream>, h: nat) {
    exists i | 0 <= i < |variants| :: variants[i].CopyVideo? && variants[i].video.height == h
  }

  ghost predicate HasRung(variants: seq<VariantStream>, h: nat) {
    exists i | 0 <= i < |variants| :: variants[i].Video? && variants[i].video.height == h
  }

  ghost predicate TopBitrate(caps: seq<VariantType>, h: nat, bitrate: nat) {
    forall c | c in caps && c.Variant? && c.height == h :: c.bitrate <= bitrate
  }

  /** The variant is the transcode of a processed, eligible request, at the right geometry and,
      for even heights, at the largest bitrate requested for the height. */
  ghost predicate Rung(info: seq<IngressStream>, caps: seq<VariantType>, src: IngressStream, done: seq<VariantType>,
                       v: VideoVariant, req: VariantType) {
    && req in done && req.Variant? && Eligible(info, caps, src, req.height)
    && v.height == RoundEven(req.height) && v.width == OutputWidth(src, req.height) && v.bitrate == req.bitrate
    && (req.height % 2 == 0 ==> TopBitrate(caps, req.height, req.bitrate))
  }

  ghost predicate IsRung(info: seq<IngressStream>, caps: seq<VariantType>, src: IngressStream, done: seq<VariantType>,
                         v: VideoVariant) {
    exists req :: Rung(info, caps, src, done, v, req)
  }

  ghost predicate AllEven(info: seq<IngressStream>, caps: seq<VariantType>, src: IngressStream) {
    forall c | c in caps && c.Variant? && Eligible(info, caps, src, c.height) :: c.height % 2 == 0
  }

  ghost predicate DistinctRungs(variants: seq<VariantStream>) {
    forall i, j | 0 <= i < j < |variants| && variants[i].Video? && variants[j].Video? ::
      variants[i].video.height != variants[j].video.height
  }

  /** Copies are exactly the copied heights. */
  ghost predicate CopiesInv(info: seq<IngressStream>, egress: seq<EgressType>, done: seq<VariantType>,
                            variants: seq<VariantStream>) {
    && (forall i | 0 <= i < |variants| && variants[i].CopyVideo? :: Copied(info, done, variants[i].video.height))
    && (NonRecorder(egress) ==> forall h | Copied(info, done, h) :: HasCopy(variants, h))
  }

  /** Transcodes are rungs; every eligible even request has one; heights are not repeated. */
  ghost predicate RungsInv(info: seq<IngressStream>, caps: seq<VariantType>, egress: seq<EgressType>,
                           done: seq<VariantType>, variants: seq<VariantStream>) {
    match TranscodeVideoSrc(info)
    case None => forall i | 0 <= i < |variants| :: !variants[i].Video?
    case Some(src) =>
      && (forall i | 0 <= i < |variants| && variants[i].Video? :: IsRung(info, caps, src, done, variants[i].video))
      && (NonRecorder(egress) ==>
            forall c | c in done && c.Variant? && Eligible(info, caps, src, c.height) && c.height % 2 == 0 ::
              HasRung(variants, c.height))
      && (AllEven(info, caps, src) ==> DistinctRungs(variants))
  }

  lemma RungsAreEven(info: seq<IngressStream>, caps: seq<VariantType>, egress: seq<EgressType>,
                     done: seq<VariantType>, variants: seq<VariantStream>, h: nat)
    requires RungsInv(info, caps, egress, done, variants) && HasRung(variants, h)
    ensures h % 2 == 0
  {
    var i :| 0 <= i < |variants| && variants[i].Video? && variants[i].video.height == h;
    var src := TranscodeVideoSrc(info).value;
    hide RoundEven;
    assert IsRung(info, caps, src, done, variants[i].video);
    var req :| Rung(info, caps, src, done, variants[i].video, req);
    RoundEvenIsEven(req.height);
  }

  // ----- Steps: processed capabilities that add nothing -------------------------

  lemma MonotoneRungs(info: seq<IngressStream>, caps: seq<VariantType>, src: IngressStream, done: seq<VariantType>,
                      done': seq<VariantType>, v: VideoVariant)
    requires IsRung(info, caps, src, done, v) && forall c :: c in done ==> c in done'
    ensures IsRung(info, caps, src, done', v)
  {
    var req :| Rung(info, caps, src, done, v, req);
    assert Rung(info, caps, src, done', v, req);
  }

  /** Processing a capability without adding a variant keeps the transcodes right, provided
      an eligible even request already has its rung. */
  lemma RungsKeep(info: seq<IngressStream>, caps: seq<VariantType>, egress: seq<EgressType>,
                  done: seq<VariantType>, c: VariantType, variants: seq<VariantStream>)
    requires RungsInv(info, caps, egress, done, variants)
    requires c.Variant? && TranscodeVideoSrc(info).Some? && NonRecorder(egress)
             && Eligible(info, caps, TranscodeVideoSrc(info).value, c.height) && c.height % 2 == 0
             ==> HasRung(variants, c.height)
    ensures RungsInv(info, caps, egress, done + [c], variants)
  {
    hide Rung, Eligible, HasRung, IsRung;
    var done' := done + [c];
    if TranscodeVideoSrc(info).Some? {
      var src := TranscodeVideoSrc(info).value;
      forall i | 0 <= i < |variants| && variants[i].Video?
        ensures IsRung(info, caps, src, done', variants[i].video)
      {
        MonotoneRungs(info, caps, src, done, done', variants[i].video);
      }
    }
  }

  lemma CopiesKeep(info: seq<IngressStream>, egress: seq<EgressType>, done: seq<VariantType>, c: VariantType,
                   variants: seq<VariantStream>)
    requires CopiesInv(info, egress, done, variants) && (c == SourceVariant ==> SourceVariant in done)
    ensures CopiesInv(info, egress, done + [c], variants)
  {
    assert SourceVariant in done + [c] <==> SourceVariant in done;
  }
}
