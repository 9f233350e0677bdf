/** The configuration engine as a whole, its own check, and what they guarantee
    (crates/core/src/endpoint.rs, `get_variants_from_endpoint` and `verify`). */
module Configurator {
  import opened Wrappers
  import opened Params
  import opened Capabilities
  import opened Egress
  import opened Dedup
  import opened Endpoint
  import opened Ladder
  import opened LadderSteps
  import opened Recordings

  // ----- Groups -----------------------------------------------------------------

  /** Every egress has exactly the groups of the calls it asked in, in order, followed by those of
      the recordings that were processed. */
  ghost predicate Serves(info: seq<IngressStream>, egress: seq<EgressType>, done: seq<VariantType>, b: Build,
                         calls: seq<Call>) {
    forall k: nat ::
      GroupsFor(b.egressMap, k) == CallGroups(egress, calls, b.dup, k)
                                   + RecordingGroups(egress, b.variants, TranscodeAudioSrc(info), done, k)
  }

  lemma ServesIff(info: seq<IngressStream>, egress: seq<EgressType>, done: seq<VariantType>, b: Build, calls: seq<Call>)
    requires NoRecordings(done)
    ensures Serves(info, egress, done, b, calls) <==> OnlyCalls(egress, b, calls)
  {
    hide CallGroups, RecordingGroups, GroupsFor;
    var audio := TranscodeAudioSrc(info);
    forall k: nat ensures CallGroups(egress, calls, b.dup, k) + RecordingGroups(egress, b.variants, audio, done, k)
                          == CallGroups(egress, calls, b.dup, k) {
      NothingRecorded(egress, b.variants, audio, done, k);
    }
    if Serves(info, egress, done, b, calls) {
      forall k: nat ensures GroupsFor(b.egressMap, k) == CallGroups(egress, calls, b.dup, k) {
        assert GroupsFor(b.egressMap, k)
               == CallGroups(egress, calls, b.dup, k) + RecordingGroups(egress, b.variants, audio, done, k);
      }
    }
  }

  /** A height that some video variant has. */
  ghost predicate HasVideoOf(variants: seq<VariantStream>, h: nat) {
    exists i | 0 <= i < |variants| :: IsVideo(variants[i]) && variants[i].video.height == h
  }

  lemma FirstVideoIff(variants: seq<VariantStream>, h: nat)
    ensures FirstVideo(variants, h).Some? <==> HasVideoOf(variants, h)
  {}

  // ----- State of the engine between capabilities -------------------------------

  ghost predicate EngineState(info: seq<IngressStream>, caps: seq<VariantType>, egress: seq<EgressType>,
                              done: seq<VariantType>, b: Build, made: seq<EgressEncoderConfig>, calls: seq<Call>) {
    && EngineInv(egress, b, made, calls)
    && CopiesInv(info, egress, done, b.variants)
    && RungsInv(info, caps, egress, done, b.variants)
    && Serves(info, egress, done, b, calls)
  }

  /** Copy every video stream next to the audio source. */
  function CopyCalls(videos: seq<IngressStream>, audio: Option<IngressStream>): (calls: seq<Call>)
    requires forall i | 0 <= i < |videos| :: videos[i].streamType == VideoStream
    requires audio.Some? ==> audio.value.streamType == AudioStream
    ensures |calls| == |videos| && forall i | 0 <= i < |calls| :: calls[i] == Call(CopyGroup(videos[i], audio), true)
  {
    seq(|videos|, i requires 0 <= i < |videos| => Call(CopyGroup(videos[i], audio), true))
  }

  /** The calls that processing `all` in order makes: for a source capability one copy of each
      video stream, for a requested height at most one transcode, for a recording none. */
  ghost predicate Planned(info: seq<IngressStream>, all: seq<VariantType>, calls: seq<Call>)
    decreases |all|
  {
    if all == [] then calls == []
    else
      var init, last := all[..|all| - 1], all[|all| - 1];
      var audio := TranscodeAudioSrc(info);
      SourcesAreTyped(info); StreamsAreTyped(info, VideoStream);
      match last
      case SourceVariant =>
        var copies := CopyCalls(StreamsOf(info, VideoStream), audio);
        var m := |calls| - |copies|;
        m >= 0 && calls[m..] == copies && Planned(info, init, calls[..m])
      case Variant(h, bitrate) =>
        || Planned(info, init, calls)
        || (calls != [] && TranscodeVideoSrc(info).Some?
            && calls[|calls| - 1] == Call(TranscodeGroup(TranscodeVideoSrc(info).value, audio, h, bitrate), false)
            && Planned(info, init, calls[..|calls| - 1]))
      case DVR(_) => Planned(info, init, calls)
  }

  lemma PlannedCopies(info: seq<IngressStream>, done: seq<VariantType>, calls: seq<Call>, copies: seq<Call>)
    requires Planned(info, done, calls) && |copies| == |StreamsOf(info, VideoStream)|
    requires forall s | s in StreamsOf(info, VideoStream) :: s.streamType == VideoStream
    requires TranscodeAudioSrc(info).Some? ==> TranscodeAudioSrc(info).value.streamType == AudioStream
    requires copies == CopyCalls(StreamsOf(info, VideoStream), TranscodeAudioSrc(info))
    ensures Planned(info, done + [SourceVariant], calls + copies)
  {
    assert (done + [SourceVariant])[..|done|] == done;
    assert (calls + copies)[|calls|..] == copies && (calls + copies)[..|calls|] == calls;
  }

  lemma PlannedTranscode(info: seq<IngressStream>, done: seq<VariantType>, calls: seq<Call>, h: nat, bitrate: nat,
                         src: IngressStream)
    requires Planned(info, done, calls) && TranscodeVideoSrc(info) == Some(src) && src.streamType == VideoStream
    requires TranscodeAudioSrc(info).Some? ==> TranscodeAudioSrc(info).value.streamType == AudioStream
    ensures var call := Call(TranscodeGroup(src, TranscodeAudioSrc(info), h, bitrate), false);
            Planned(info, done + [Variant(h, bitrate)], calls + [call])
  {
    var call := Call(TranscodeGroup(src, TranscodeAudioSrc(info), h, bitrate), false);
    assert (done + [Variant(h, bitrate)])[..|done|] == done && (calls + [call])[..|calls|] == calls;
  }

  lemma PlannedNothing(info: seq<IngressStream>, done: seq<VariantType>, c: VariantType, calls: seq<Call>)
    requires Planned(info, done, calls) && !c.SourceVariant?
    ensures Planned(info, done + [c], calls)
  {
    assert (done + [c])[..|done|] == done;
  }

  lemma InvOfState(info: seq<IngressStream>, caps: seq<VariantType>, egress: seq<EgressType>,
                   done: seq<VariantType>, b: Build, made: seq<EgressEncoderConfig>, calls: seq<Call>)
    requires EngineState(info, caps, egress, done, b, made, calls)
    ensures EngineInv(egress, b, made, calls) && DedupInv(b.variants, made, b.dup, b.nextId)
    ensures CopiesInv(info, egress, done, b.variants) && RungsInv(info, caps, egress, done, b.variants)
  {}

  lemma DedupOfInv(egress: seq<EgressType>, b: Build, made: seq<EgressEncoderConfig>, calls: seq<Call>)
    requires EngineInv(egress, b, made, calls)
    ensures DedupInv(b.variants, made, b.dup, b.nextId)
  {}

  method AddCopies(info: seq<IngressStream>, egress: seq<EgressType>, audio: Option<IngressStream>, b: Build,
                   ghost caps: seq<VariantType>, ghost all: seq<VariantType>, ghost n: nat,
                   ghost made: seq<EgressEncoderConfig>, ghost calls: seq<Call>)
    returns (b': Build, ghost made': seq<EgressEncoderConfig>, ghost calls': seq<Call>)
    requires Processing(caps, all, n) && n < |all| && all[n] == SourceVariant
    requires EngineState(info, caps, egress, all[..n], b, made, calls)
    requires audio == TranscodeAudioSrc(info) && (audio.Some? ==> audio.value.streamType == AudioStream)
    requires Planned(info, all[..n], calls)
    ensures EngineState(info, caps, egress, all[..n] + [all[n]], b', made', calls')
    ensures Planned(info, all[..n] + [all[n]], calls')
  {
    hide EngineInv, DedupInv, CopyingInv, CopiesInv, RungsInv, Extends, Processing, IngressStreamToParams, AudioParams,
      OnlyCalls, Serves, Planned, TranscodeAudioSrc;
    var videos := StreamsOf(info, VideoStream);
    StreamsAreTyped(info, VideoStream);
    ghost var copies := CopyCalls(videos, audio);
    NoRecordingsYet(caps, all, n);
    ServesIff(info, egress, all[..n], b, calls);
    CopyingStarts(info, caps, egress, all, n, videos, b.variants);
    b', made', calls' := b, made, calls;
    for m := 0 to |videos|
      invariant EngineInv(egress, b', made', calls') && OnlyCalls(egress, b', calls')
      invariant CopyingInv(info, egress, videos, m, b'.variants)
      invariant calls' == calls + copies[..m]
    {
      var call := Call(CopyGroup(videos[m], audio), true);
      ghost var before, madeBefore := b', made';
      b', made' := AddGroup(egress, call, b', made', calls');
      calls' := calls' + [call];
      DedupOfInv(egress, b', made', calls');
      assert videos[m] in videos;
      CopyStep(info, egress, videos, m, audio, before, madeBefore, b', made');
      assert copies[..m + 1] == copies[..m] + [call];
    }
    assert copies[..|videos|] == copies;
    CopyingDone(info, caps, egress, all, n, b'.variants);
    ServesIff(info, egress, all[..n] + [all[n]], b', calls');
    PlannedCopies(info, all[..n], calls, copies);
  }

  method AddTranscode(info: seq<IngressStream>, egress: seq<EgressType>, video: Option<IngressStream>,
                      audio: Option<IngressStream>, h: nat, bitrate: nat, b: Build,
                      ghost caps: seq<VariantType>, ghost all: seq<VariantType>, ghost n: nat,
                      ghost made: seq<EgressEncoderConfig>, ghost calls: seq<Call>)
    returns (b': Build, ghost made': seq<EgressEncoderConfig>, ghost calls': seq<Call>)
    requires Processing(caps, all, n) && n < |all| && all[n] == Variant(h, bitrate)
    requires EngineState(info, caps, egress, all[..n], b, made, calls)
    requires video == TranscodeVideoSrc(info) && (video.Some? ==> video.value.streamType == VideoStream)
    requires audio == TranscodeAudioSrc(info) && (audio.Some? ==> audio.value.streamType == AudioStream)
    requires Planned(info, all[..n], calls)
    ensures EngineState(info, caps, egress, all[..n] + [all[n]], b', made', calls')
    ensures Planned(info, all[..n] + [all[n]], calls')
  {
    hide EngineInv, DedupInv, CopiesInv, RungsInv, Extends, Processing, TranscodeGroup, TranscodeVideoSrc,
      OnlyCalls, Serves, Planned, TranscodeAudioSrc, HasVideoOf;
    b', made', calls' := b, made, calls;
    NoRecordingsYet(caps, all, n);
    ServesIff(info, egress, all[..n], b, calls);
    ServesIff(info, egress, all[..n] + [all[n]], b, calls);
    PlannedNothing(info, all[..n], all[n], calls);
    CopiesKeep(info, egress, all[..n], all[n], b.variants);
    if video.None? || video.value.height < h {
      NotEligible(info, caps, video, h);
      RungsKeep(info, caps, egress, all[..n], all[n], b.variants);
      return;
    }
    var existing := FindVideo(b.variants, h);
    FirstVideoIff(b.variants, h);
    if existing.Some? {
      AlreadyThere(info, caps, egress, all, n, video.value, b.variants, h);
      RungsKeep(info, caps, egress, all[..n], all[n], b.variants);
      return;
    }
    var call := Call(TranscodeGroup(video.value, audio, h, bitrate), false);
    ValidTranscode(video.value, audio, h, bitrate);
    NowTranscoding(info, caps, egress, all, n, video.value, b.variants);
    b', made' := AddGroup(egress, call, b, made, calls);
    calls' := calls + [call];
    DedupOfInv(egress, b', made', calls');
    TranscodeStep(info, caps, egress, all, n, video.value, audio, b, made, b', made');
    ServesIff(info, egress, all[..n] + [all[n]], b', calls');
    PlannedTranscode(info, all[..n], calls, h, bitrate, video.value);
  }

  /** Recordings sort last. */
  lemma NoRecordingsYet(caps: seq<VariantType>, all: seq<VariantType>, n: nat)
    requires Processing(caps, all, n) && n < |all| && !all[n].DVR?
    ensures NoRecordings(all[..n]) && NoRecordings(all[..n] + [all[n]])
  {}

  lemma NotEligible(info: seq<IngressStream>, caps: seq<VariantType>, video: Option<IngressStream>, h: nat)
    ensures video.Some? && video.value.height < h ==> !Eligible(info, caps, video.value, h)
  {}

  lemma NowTranscoding(info: seq<IngressStream>, caps: seq<VariantType>, egress: seq<EgressType>,
                       all: seq<VariantType>, n: nat, src: IngressStream, variants: seq<VariantStream>)
    requires Processing(caps, all, n) && n < |all| && all[n].Variant?
    requires TranscodeVideoSrc(info) == Some(src) && all[n].height <= src.height && !HasVideoOf(variants, all[n].height)
    requires CopiesInv(info, egress, all[..n], variants) && RungsInv(info, caps, egress, all[..n], variants)
    ensures Transcoding(info, caps, egress, all, n, src, variants)
  {
    hide CopiesInv, RungsInv;
  }

  /** A request whose height exists already is either not eligible or has its rung. */
  lemma AlreadyThere(info: seq<IngressStream>, caps: seq<VariantType>, egress: seq<EgressType>,
                     all: seq<VariantType>, n: nat, src: IngressStream, variants: seq<VariantStream>, h: nat)
    requires Processing(caps, all, n) && n < |all| && all[n].Variant? && all[n].height == h
    requires CopiesInv(info, egress, all[..n], variants)
    requires HasVideoOf(variants, h)
    ensures Eligible(info, caps, src, h) ==> HasRung(variants, h)
  {
    hide RungsInv;
    CopiedWhenDone(info, caps, all, n, h);
  }

  /** A recording adds exactly one group if the first recorder wants its height and some video has
      it: the first such video, with the first variant made from the audio source. */
  method AddRecording(egress: seq<EgressType>, audio: Option<IngressStream>, h: nat, b: Build,
                      ghost info: seq<IngressStream>, ghost caps: seq<VariantType>, ghost done: seq<VariantType>,
                      ghost made: seq<EgressEncoderConfig>, ghost calls: seq<Call>)
    returns (b': Build)
    requires EngineState(info, caps, egress, done, b, made, calls) && Planned(info, done, calls)
    requires audio == TranscodeAudioSrc(info)
    ensures b' == b.(egressMap := b'.egressMap)
    ensures forall k: nat ::
              GroupsFor(b'.egressMap, k) == GroupsFor(b.egressMap, k) + RecordingGroup(egress, b.variants, audio, h, k)
    ensures EngineState(info, caps, egress, done + [DVR(h)], b', made, calls) && Planned(info, done + [DVR(h)], calls)
  {
    PlannedNothing(info, done, DVR(h), calls);
    hide EngineInv, Planned, CopiesInv, RungsInv, Serves, FirstRecorder, FirstVideo, HasVideo, HasId, TranscodeAudioSrc,
      AudioId, RecordingGroup, GroupsFor;
    CopiesKeep(info, egress, done, DVR(h), b.variants);
    RungsKeep(info, caps, egress, done, DVR(h), b.variants);
    b' := b;
    var recorder := FirstRecorder(egress);
    var found := FindVideo(b.variants, h);
    if recorder.Some? && recorder.value.height == h && found.Some? {
      var id := recorder.value.id;
      var source := AudioOf(b.variants, audio);
      var g := VariantGroup(Some(found.value.Id()), source, None);
      b' := b.(egressMap := b.egressMap[id := (if id in b.egressMap then b.egressMap[id] else []) + [g]]);
      RecordingAppended(egress, b, audio, h, id, g, b');
      RecordingAdded(egress, b, made, calls, h, id, audio, g, b');
    } else {
      RecordingSkipped(egress, b, audio, h);
    }
    RecordingServes(info, egress, done, b, calls, h, b');
  }

  lemma RecordingAppended(egress: seq<EgressType>, b: Build, audio: Option<IngressStream>, h: nat, id: nat,
                          g: VariantGroup, b': Build)
    requires FirstRecorder(egress) == Some(Recorder(id, h)) && FirstVideo(b.variants, h).Some?
    requires g == VariantGroup(Some(FirstVideo(b.variants, h).value.Id()), AudioId(b.variants, audio), None)
    requires b' == b.(egressMap := b.egressMap[id := (if id in b.egressMap then b.egressMap[id] else []) + [g]])
    ensures RecordingGroup(egress, b.variants, audio, h, id) == [g]
    ensures forall k: nat ::
              GroupsFor(b'.egressMap, k) == GroupsFor(b.egressMap, k) + RecordingGroup(egress, b.variants, audio, h, k)
  {
    hide FirstRecorder, FirstVideo, AudioId;
  }

  lemma RecordingSkipped(egress: seq<EgressType>, b: Build, audio: Option<IngressStream>, h: nat)
    requires FirstRecorder(egress).None? || FirstRecorder(egress).value.height != h || FirstVideo(b.variants, h).None?
    ensures forall k: nat ::
              GroupsFor(b.egressMap, k) == GroupsFor(b.egressMap, k) + RecordingGroup(egress, b.variants, audio, h, k)
  {
    hide FirstRecorder, FirstVideo, AudioId;
  }

  method AudioOf(variants: seq<VariantStream>, audio: Option<IngressStream>) returns (id: Option<nat>)
    ensures id == AudioId(variants, audio)
  {
    id := None;
    if audio.Some? {
      var first := FindFrom(variants, audio.value.index);
      if first.Some? { id := Some(first.value.Id()); }
    }
  }

  lemma RecordingServes(info: seq<IngressStream>, egress: seq<EgressType>, done: seq<VariantType>, b: Build,
                        calls: seq<Call>, h: nat, b': Build)
    requires Serves(info, egress, done, b, calls) && b' == b.(egressMap := b'.egressMap)
    requires forall k: nat :: GroupsFor(b'.egressMap, k)
                              == GroupsFor(b.egressMap, k)
                                + RecordingGroup(egress, b.variants, TranscodeAudioSrc(info), h, k)
    ensures Serves(info, egress, done + [DVR(h)], b', calls)
  {
    hide CallGroups, RecordingGroups, RecordingGroup, GroupsFor, TranscodeAudioSrc;
    var audio := TranscodeAudioSrc(info);
    forall k: nat
      ensures GroupsFor(b'.egressMap, k) == CallGroups(egress, calls, b'.dup, k)
                                            + RecordingGroups(egress, b'.variants, audio, done + [DVR(h)], k)
    {
      RecordingGroupsAppend(egress, b.variants, audio, done, DVR(h), k);
      assert GroupsFor(b.egressMap, k)
             == CallGroups(egress, calls, b.dup, k) + RecordingGroups(egress, b.variants, audio, done, k);
    }
  }

  lemma RecordingAdded(egress: seq<EgressType>, b: Build, made: seq<EgressEncoderConfig>, calls: seq<Call>, h: nat,
                       id: nat, audio: Option<IngressStream>, g: VariantGroup, b': Build)
    requires EngineInv(egress, b, made, calls) && FirstRecorder(egress) == Some(Recorder(id, h))
    requires RecordingGroup(egress, b.variants, audio, h, id) == [g]
    requires b' == b.(egressMap := b.egressMap[id := (if id in b.egressMap then b.egressMap[id] else []) + [g]])
    ensures EngineInv(egress, b', made, calls)
  {
    hide CallGroups, DedupInv, Minimal, MadeInCalls, FirstRecorder, FromCall, FirstVideo, FirstFrom;
    RecordingIsDvr(egress, b.variants, audio, h, id, g);
    hide HasVideo, HasId, RecordingGroup, FromDvr;
    var last := |b'.egressMap[id]| - 1;
    assert b'.egressMap[id][last] == g;
    forall k, i | k in b'.egressMap && 0 <= i < |b'.egressMap[k]|
      ensures GroupOk(egress, calls, b', k, b'.egressMap[k][i])
    {
      if k != id || i < last {
        GroupStaysOk(egress, calls, b, calls, b', k, b.egressMap[k][i]);
      }
    }
  }

  lemma RecordingIsDvr(egress: seq<EgressType>, variants: seq<VariantStream>, audio: Option<IngressStream>, h: nat,
                       k: nat, g: VariantGroup)
    requires RecordingGroup(egress, variants, audio, h, k) == [g]
    ensures FromDvr(egress, variants, k, g)
  {
    hide FirstRecorder, FirstVideo, FirstFrom;
    var i :| 0 <= i < |variants| && variants[i] == FirstVideo(variants, h).value;
    if g.audio.Some? {
      var j :| 0 <= j < |variants| && variants[j] == FirstFrom(variants, audio.value.index).value;
    }
  }

  // ----- The engine's own check ---------------------------------------------------

  predicate Mentions(g: VariantGroup, id: nat) {
    g.video == Some(id) || g.audio == Some(id) || g.subtitle == Some(id)
  }

  /** Some group names a variant that does not exist. */
  ghost predicate Dangling(cfg: EndpointConfig, id: nat) {
    !HasId(cfg.variants, id)
    && exists k, i | k in cfg.egressMap && 0 <= i < |cfg.egressMap[k]| :: Mentions(cfg.egressMap[k][i], id)
  }

  function IdsOf(g: VariantGroup): set<nat> {
    (if g.video.Some? then {g.video.value} else {})
    + (if g.audio.Some? then {g.audio.value} else {})
    + (if g.subtitle.Some? then {g.subtitle.value} else {})
  }

  method MissingIn(groups: seq<VariantGroup>, ids: set<nat>) returns (missing: set<nat>)
    ensures forall id :: id in missing <==> id !in ids && exists i | 0 <= i < |groups| :: Mentions(groups[i], id)
  {
    missing := {};
    for i := 0 to |groups|
      invariant forall id :: id in missing <==> id !in ids && exists j | 0 <= j < i :: Mentions(groups[j], id)
    {
      missing := missing + (IdsOf(groups[i]) - ids);
    }
  }

  method Verify(cfg: EndpointConfig) returns (r: Result<EndpointConfig, set<nat>>)
    ensures r.Ok? <==> forall id :: !Dangling(cfg, id)
    ensures r.Ok? ==> r.value == cfg
    ensures r.Err? ==> forall id :: id in r.error <==> Dangling(cfg, id)
  {
    var ids := set v | v in cfg.variants :: v.Id();
    assert forall id :: id in ids <==> HasId(cfg.variants, id);
    var missing: set<nat> := {};
    var todo := cfg.egressMap.Keys;
    while todo != {}
      invariant todo <= cfg.egressMap.Keys
      invariant forall id :: id in missing <==>
                  (&& !HasId(cfg.variants, id)
                   && exists k, i | k in cfg.egressMap && k !in todo && 0 <= i < |cfg.egressMap[k]| ::
                        Mentions(cfg.egressMap[k][i], id))
      decreases todo
    {
      hide HasId, Mentions;
      var k :| k in todo;
      var more := MissingIn(cfg.egressMap[k], ids);
      missing := missing + more;
      todo := todo - {k};
    }
    assert forall id :: id in missing <==> Dangling(cfg, id);
    if missing == {} { r := Ok(cfg); } else { r := Err(missing); }
  }

  lemma GroupsDoNotDangle(egress: seq<EgressType>, b: Build, made: seq<EgressEncoderConfig>, calls: seq<Call>, id: nat,
                          k: nat, g: VariantGroup)
    requires DedupInv(b.variants, made, b.dup, b.nextId) && GroupOk(egress, calls, b, k, g) && Mentions(g, id)
    ensures HasId(b.variants, id)
  {
    hide Requests, BuiltFor;
    if FromDvr(egress, b.variants, k, g) {
      assert HasVideo(b.variants, g.video.value, FirstRecorder(egress).value.height);
    } else {
      var j :| 0 <= j < |calls| && FromCall(egress, calls[j], b.dup, k, g);
      var reqs := Requests(egress, calls[j].group, calls[j].copy);
      var ty := if g.video == Some(id) then VideoStream else AudioStream;
      LastRequestIsOne(reqs, k, ty);
      var c := LastRequest(reqs, k, ty).value.config;
      var i :| 0 <= i < |made| && made[i] == c;
      assert MadeAt(b.variants, made, b.dup, b.nextId, i);
    }
  }

  lemma NothingDangles(egress: seq<EgressType>, b: Build, made: seq<EgressEncoderConfig>, calls: seq<Call>,
                       cfg: EndpointConfig)
    requires EngineInv(egress, b, made, calls) && cfg.variants == b.variants && cfg.egressMap == b.egressMap
    ensures forall id :: !Dangling(cfg, id)
  {
    hide DedupInv, GroupOk, Minimal, MadeInCalls, HasId;
    forall id ensures !Dangling(cfg, id) {
      if Dangling(cfg, id) {
        var k, i :| k in cfg.egressMap && 0 <= i < |cfg.egressMap[k]| && Mentions(cfg.egressMap[k][i], id);
        GroupsDoNotDangle(egress, b, made, calls, id, k, cfg.egressMap[k][i]);
      }
    }
  }

  // ----- The whole engine ---------------------------------------------------------

  lemma EngineStarts(info: seq<IngressStream>, caps: seq<VariantType>, egress: seq<EgressType>)
    ensures EngineState(info, caps, egress, [], Build([], map[], map[], 0), [], [])
  {}

  lemma PlannedStarts(info: seq<IngressStream>)
    ensures Planned(info, [], [])
  {}

  lemma StateOfAll(info: seq<IngressStream>, caps: seq<VariantType>, egress: seq<EgressType>, all: seq<VariantType>,
                   b: Build, made: seq<EgressEncoderConfig>, calls: seq<Call>)
    requires EngineState(info, caps, egress, all, b, made, calls) && multiset(all) == multiset(caps)
    ensures EngineState(info, caps, egress, caps, b, made, calls)
  {
    hide EngineInv, HasRung, HasCopy, Eligible, CallGroups, RecordingGroups, GroupsFor;
    forall k: nat { SameRecordings(egress, b.variants, TranscodeAudioSrc(info), all, caps, k); }
    forall c ensures c in all <==> c in caps { SameMembers(caps, all, c); }
    assert forall h :: Copied(info, all, h) <==> Copied(info, caps, h);
    if TranscodeVideoSrc(info).Some? {
      var src := TranscodeVideoSrc(info).value;
      forall i | 0 <= i < |b.variants| && b.variants[i].Video?
        ensures IsRung(info, caps, src, caps, b.variants[i].video)
      {
        MonotoneRungs(info, caps, src, all, caps, b.variants[i].video);
      }
    }
  }

  /** The configuration engine never fails its own check, and its result is explained by the
      final state of the engine. */
  method GetVariantsFromEndpoint(info: seq<IngressStream>, capabilities: seq<VariantType>, egress: seq<EgressType>)
    returns (r: Result<EndpointConfig, set<nat>>, ghost b: Build, ghost made: seq<EgressEncoderConfig>,
             ghost calls: seq<Call>)
    ensures r.Ok?
    ensures r.value.variants == b.variants && r.value.egressMap == b.egressMap && r.value.egress == egress
    ensures r.value.videoSrc == TranscodeVideoSrc(info) && r.value.audioSrc == TranscodeAudioSrc(info)
    ensures ChosenVideo(info, r.value.videoSrc) && ChosenAudio(info, r.value.audioSrc)
    ensures EngineState(info, capabilities, egress, capabilities, b, made, calls)
    ensures Planned(info, Sort(capabilities), calls)
    ensures forall id :: !Dangling(r.value, id)
    ensures NonRecorder(egress) ==> forall h :: HasCopy(r.value.variants, h) <==> Copied(info, capabilities, h)
    ensures r.value.videoSrc.Some? && NonRecorder(egress) ==>
              && (Produced(info, capabilities, r.value.videoSrc.value, r.value.variants)
                  <==> AllEven(info, capabilities, r.value.videoSrc.value))
              && (AllEven(info, capabilities, r.value.videoSrc.value) ==>
                    ExactLadder(info, capabilities, r.value.videoSrc.value, r.value.variants))
  {
    hide EngineState, TranscodeVideoSrc, TranscodeAudioSrc, Planned, Produced, AllEven, ExactLadder, HasCopy, Copied,
      ChosenVideo, ChosenAudio;
    VideoSrcIsChosen(info);
    AudioSrcIsChosen(info);
    var video, audio := TranscodeVideoSrc(info), TranscodeAudioSrc(info);
    SourcesAreTyped(info);
    var all := Sort(capabilities);
    SortSorts(capabilities);
    var build := Build([], map[], map[], 0);
    made, calls := [], [];
    EngineStarts(info, capabilities, egress);
    PlannedStarts(info);
    for n := 0 to |all|
      invariant EngineState(info, capabilities, egress, all[..n], build, made, calls)
      invariant Planned(info, all[..n], calls)
    {
      assert Processing(capabilities, all, n);
      assert all[..n + 1] == all[..n] + [all[n]];
      match all[n]
      case SourceVariant =>
        build, made, calls := AddCopies(info, egress, audio, build, capabilities, all, n, made, calls);
      case Variant(h, bitrate) =>
        build, made, calls :=
          AddTranscode(info, egress, video, audio, h, bitrate, build, capabilities, all, n, made, calls);
      case DVR(h) =>
        build := AddRecording(egress, audio, h, build, info, capabilities, all[..n], made, calls);
    }
    assert all[..|all|] == all;
    StateOfAll(info, capabilities, egress, all, build, made, calls);
    InvOfState(info, capabilities, egress, capabilities, build, made, calls);
    var cfg := EndpointConfig(video, audio, build.variants, build.egressMap, egress);
    NothingDangles(egress, build, made, calls, cfg);
    b := build;
    if NonRecorder(egress) {
      CopiesAreExact(info, capabilities, egress, build, made, calls);
      if video.Some? {
        LadderIsProducedIff(info, capabilities, egress, video.value, build, made, calls);
        if AllEven(info, capabilities, video.value) {
          LadderIsExact(info, capabilities, egress, video.value, build, made, calls);
        }
      }
    }
    r := Verify(cfg);
  }

  // ----- What a configuration guarantees --------------------------------------------

  /** Transcoding is minimal: variants have distinct ids and there is exactly one for every
      distinct configuration that any egress requested. */
  lemma OneVariantPerConfiguration(egress: seq<EgressType>, b: Build, made: seq<EgressEncoderConfig>, calls: seq<Call>,
                                   requested: set<EgressEncoderConfig>)
    requires EngineInv(egress, b, made, calls)
    requires forall c :: c in requested <==> exists j | 0 <= j < |calls| :: RequestedIn(egress, calls[j], c)
    ensures |b.variants| == |requested|
    ensures forall i, j | 0 <= i < j < |b.variants| :: b.variants[i].Id() != b.variants[j].Id()
  {
    hide RequestedIn, GroupOk, BuiltFor;
    assert forall c :: c in requested <==> c in made;
    DistinctSize(made, requested);
  }

  lemma {:induction false} DistinctSize(s: seq<EgressEncoderConfig>, members: set<EgressEncoderConfig>)
    requires forall i, j | 0 <= i < j < |s| :: s[i] != s[j]
    requires forall c :: c in members <==> c in s
    ensures |members| == |s|
    decreases |s|
  {
    if s == [] {
      assert members == {};
    } else {
      var init, last := s[..|s| - 1], s[|s| - 1];
      assert s == init + [last];
      DistinctSize(init, members - {last});
    }
  }

  /** The ladder of a configuration, for any requested heights: each transcode serves an
      eligible request at the right geometry, and no copied height is transcoded again. */
  lemma EveryTranscodeIsARung(info: seq<IngressStream>, caps: seq<VariantType>, egress: seq<EgressType>,
                              src: IngressStream, b: Build, made: seq<EgressEncoderConfig>, calls: seq<Call>, i: nat)
    returns (req: VariantType)
    requires EngineState(info, caps, egress, caps, b, made, calls) && TranscodeVideoSrc(info) == Some(src)
    requires i < |b.variants| && b.variants[i].Video?
    ensures req in caps && req.Variant? && Eligible(info, caps, src, req.height)
    ensures var v := b.variants[i].video;
            v.height == RoundEven(req.height) && v.width == OutputWidth(src, req.height) && v.bitrate == req.bitrate
  {
    hide EngineState, Eligible, RoundEven, OutputWidth, HasRung;
    InvOfState(info, caps, egress, caps, b, made, calls);
    assert IsRung(info, caps, src, caps, b.variants[i].video);
    req :| Rung(info, caps, src, caps, b.variants[i].video, req);
  }

  /** Exactly when the requested ladder is produced: every eligible request has a transcode of
      its height if and only if no eligible height is odd. */
  lemma LadderIsProducedIff(info: seq<IngressStream>, caps: seq<VariantType>, egress: seq<EgressType>,
                            src: IngressStream, b: Build, made: seq<EgressEncoderConfig>, calls: seq<Call>)
    requires EngineState(info, caps, egress, caps, b, made, calls)
    requires TranscodeVideoSrc(info) == Some(src) && NonRecorder(egress)
    ensures Produced(info, caps, src, b.variants) <==> AllEven(info, caps, src)
  {
    hide EngineState, Eligible, HasRung, IsRung, DistinctRungs;
    InvOfState(info, caps, egress, caps, b, made, calls);
    forall c | c in caps && c.Variant? && Eligible(info, caps, src, c.height) && HasRung(b.variants, c.height)
      ensures c.height % 2 == 0
    {
      RungsAreEven(info, caps, egress, caps, b.variants, c.height);
    }
  }

  /** Every eligible request has a transcode of its height. */
  ghost predicate Produced(info: seq<IngressStream>, caps: seq<VariantType>, src: IngressStream,
                           variants: seq<VariantStream>) {
    forall c | c in caps && c.Variant? && Eligible(info, caps, src, c.height) :: HasRung(variants, c.height)
  }

  /** An odd height: whatever the egresses, a request for 721 lines of a 1080-line source is
      eligible, and no variant of that height comes out. */
  lemma OddHeightIsNotProduced(egress: seq<EgressType>, src: IngressStream, bitrate: nat, b: Build,
                               made: seq<EgressEncoderConfig>, calls: seq<Call>)
    requires src.streamType == VideoStream && src.height == 1080
    requires EngineState([src], [Variant(721, bitrate)], egress, [Variant(721, bitrate)], b, made, calls)
    ensures TranscodeVideoSrc([src]) == Some(src) && Eligible([src], [Variant(721, bitrate)], src, 721)
    ensures !HasRung(b.variants, 721)
  {
    hide EngineState, RungsInv, HasRung;
    OnlyStream(src);
    InvOfState([src], [Variant(721, bitrate)], egress, [Variant(721, bitrate)], b, made, calls);
    if HasRung(b.variants, 721) {
      RungsAreEven([src], [Variant(721, bitrate)], egress, [Variant(721, bitrate)], b.variants, 721);
    }
  }

  lemma OnlyStream(src: IngressStream)
    requires src.streamType == VideoStream
    ensures TranscodeVideoSrc([src]) == Some(src)
  {
    StreamsAreTyped([src], VideoStream);
    LargestIsLargest(StreamsOf([src], VideoStream));
    assert src in [src];
  }

  /** The transcoded heights are exactly the eligible ones, each once, at the largest bitrate
      requested for it and the width that keeps the aspect ratio. */
  ghost predicate ExactLadder(info: seq<IngressStream>, caps: seq<VariantType>, src: IngressStream,
                              variants: seq<VariantStream>) {
    && (forall h :: HasRung(variants, h) <==> Requested(info, caps, src, h))
    && DistinctRungs(variants)
    && forall i | 0 <= i < |variants| && variants[i].Video? :: BestRung(caps, src, variants[i].video)
  }

  ghost predicate Requested(info: seq<IngressStream>, caps: seq<VariantType>, src: IngressStream, h: nat) {
    Eligible(info, caps, src, h) && exists c :: c in caps && c.Variant? && c.height == h
  }

  ghost predicate BestRung(caps: seq<VariantType>, src: IngressStream, v: VideoVariant) {
    && Variant(v.height, v.bitrate) in caps && TopBitrate(caps, v.height, v.bitrate)
    && v.width == OutputWidth(src, v.height)
  }

  /** With even requests the ladder is exact. */
  lemma LadderIsExact(info: seq<IngressStream>, caps: seq<VariantType>, egress: seq<EgressType>, src: IngressStream,
                      b: Build, made: seq<EgressEncoderConfig>, calls: seq<Call>)
    requires EngineState(info, caps, egress, caps, b, made, calls)
    requires TranscodeVideoSrc(info) == Some(src) && NonRecorder(egress) && AllEven(info, caps, src)
    ensures ExactLadder(info, caps, src, b.variants)
  {
    hide EngineState, Eligible, OutputWidth, DistinctRungs;
    InvOfState(info, caps, egress, caps, b, made, calls);
    forall i | 0 <= i < |b.variants| && b.variants[i].Video?
      ensures Requested(info, caps, src, b.variants[i].video.height) && BestRung(caps, src, b.variants[i].video)
    {
      assert IsRung(info, caps, src, caps, b.variants[i].video);
      var req :| Rung(info, caps, src, caps, b.variants[i].video, req);
      assert req.height % 2 == 0;
    }
    forall h ensures HasRung(b.variants, h) <==> Requested(info, caps, src, h) {
      if Requested(info, caps, src, h) {
        var c :| c in caps && c.Variant? && c.height == h;
        assert c.height % 2 == 0;
      }
    }
  }

  /** The copied heights are exactly those of the H.264 source streams, if copying was asked for. */
  lemma CopiesAreExact(info: seq<IngressStream>, caps: seq<VariantType>, egress: seq<EgressType>, b: Build,
                       made: seq<EgressEncoderConfig>, calls: seq<Call>)
    requires EngineState(info, caps, egress, caps, b, made, calls) && NonRecorder(egress)
    ensures forall h :: HasCopy(b.variants, h) <==> Copied(info, caps, h)
  {
    hide EngineState, Copied;
    InvOfState(info, caps, egress, caps, b, made, calls);
  }

  lemma {:induction false} CallIsServed(egress: seq<EgressType>, calls: seq<Call>, dup: DupMap, k: nat, j: nat)
    requires j < |calls| && Asks(Requests(egress, calls[j].group, calls[j].copy), k)
    ensures GroupOf(Requests(egress, calls[j].group, calls[j].copy), k, dup) in CallGroups(egress, calls, dup, k)
    decreases |calls|
  {
    hide Requests, GroupOf, Asks;
    if j < |calls| - 1 {
      CallIsServed(egress, calls[..|calls| - 1], dup, k, j);
    }
  }

  /** Every egress that asked for something in a call has the group of that call in the final
      configuration: nothing that was requested is forgotten. */
  lemma EveryRequestIsServed(info: seq<IngressStream>, caps: seq<VariantType>, egress: seq<EgressType>, b: Build,
                             made: seq<EgressEncoderConfig>, calls: seq<Call>, j: nat, k: nat)
    requires EngineState(info, caps, egress, caps, b, made, calls)
    requires j < |calls| && Asks(Requests(egress, calls[j].group, calls[j].copy), k)
    ensures k in b.egressMap && GroupOf(Requests(egress, calls[j].group, calls[j].copy), k, b.dup) in b.egressMap[k]
  {
    hide Requests, GroupOf, Asks, CallGroups, EngineInv, CopiesInv, RungsInv, RecordingGroups;
    CallIsServed(egress, calls, b.dup, k, j);
    assert GroupsFor(b.egressMap, k) == CallGroups(egress, calls, b.dup, k)
                                        + RecordingGroups(egress, b.variants, TranscodeAudioSrc(info), caps, k);
  }

  /** The exact egress map: the groups of an egress are those of the calls it asked in, in order,
      followed, for the first recorder, by one for each recording of its height. */
  lemma EgressMapIsExact(info: seq<IngressStream>, caps: seq<VariantType>, egress: seq<EgressType>, b: Build,
                         made: seq<EgressEncoderConfig>, calls: seq<Call>, k: nat)
    requires EngineState(info, caps, egress, caps, b, made, calls)
    ensures var n := |CallGroups(egress, calls, b.dup, k)|;
            var groups, recorder := GroupsFor(b.egressMap, k), FirstRecorder(egress);
            && CallGroups(egress, calls, b.dup, k) <= groups
            && if recorder.Some? && recorder.value.id == k && HasVideoOf(b.variants, recorder.value.height) then
                 && |groups| == n + multiset(caps)[DVR(recorder.value.height)]
                 && forall i | n <= i < |groups| ::
                      [groups[i]]
                      == RecordingGroup(egress, b.variants, TranscodeAudioSrc(info), recorder.value.height, k)
               else |groups| == n
  {
    hide CallGroups, EngineInv, CopiesInv, RungsInv, RecordingGroups, FirstRecorder, FirstVideo, AudioId,
      TranscodeAudioSrc;
    var audio := TranscodeAudioSrc(info);
    EqualRecordings(egress, b.variants, audio, caps, k);
    assert GroupsFor(b.egressMap, k)
           == CallGroups(egress, calls, b.dup, k) + RecordingGroups(egress, b.variants, audio, caps, k);
    if FirstRecorder(egress).Some? {
      FirstVideoIff(b.variants, FirstRecorder(egress).value.height);
    }
  }

  /** With distinct egress ids, the group an egress gets from a call names, for video and for
      audio, the variant made for exactly the configuration this egress asked for, and none if it
      asked for none. */
  lemma DedupPreservesMeaning(egress: seq<EgressType>, b: Build, made: seq<EgressEncoderConfig>, calls: seq<Call>,
                              j: nat, n: nat, g: VariantGroup, ty: StreamType)
    requires EngineInv(egress, b, made, calls) && DistinctEgress(egress) && (ty == VideoStream || ty == AudioStream)
    requires j < |calls| && n < |egress| && FromCall(egress, calls[j], b.dup, egress[n].id, g)
    ensures var want := WantOf(egress[n], calls[j].group, calls[j].copy, ty);
            match if ty == VideoStream then g.video else g.audio
            case Some(id) =>
              && want.Some?
              && exists i ::
                   && 0 <= i < |b.variants| && b.variants[i].Id() == id && BuiltFor(b.variants[i], want.value.config)
                   && (ty == VideoStream ==> IsVideo(b.variants[i]))
            case None => want.None?
  {
    hide Requests, WantOf, BuiltFor, GroupOk, Minimal, MadeInCalls;
    var group, copy := calls[j].group, calls[j].copy;
    var reqs := Requests(egress, group, copy);
    RequestOfGroup(egress, group, copy, n, ty);
    LastRequestIsOne(reqs, egress[n].id, ty);
    if LastRequest(reqs, egress[n].id, ty).Some? {
      var c := LastRequest(reqs, egress[n].id, ty).value.config;
      assert c in b.dup;
      var i: nat :| i < |made| && made[i] == c;
      assert MadeAt(b.variants, made, b.dup, b.nextId, i);
      if ty == VideoStream {
        BuiltIsVideo(b.variants[i], c);
      }
    }
  }

  /** Every id a call put into the group of egress `k` names a variant of the right kind that was
      made for a configuration that egress requested in that call. */
  lemma GroupServesRequests(egress: seq<EgressType>, b: Build, made: seq<EgressEncoderConfig>, calls: seq<Call>,
                            j: nat, k: nat, g: VariantGroup, ty: StreamType) returns (r: Request, i: nat)
    requires EngineInv(egress, b, made, calls) && j < |calls| && FromCall(egress, calls[j], b.dup, k, g)
    requires (ty == VideoStream && g.video.Some?) || (ty == AudioStream && g.audio.Some?)
    ensures r in Requests(egress, calls[j].group, calls[j].copy) && r.egressId == k && r.config.streamType == ty
    ensures i < |b.variants| && BuiltFor(b.variants[i], r.config)
    ensures (if ty == VideoStream then g.video else g.audio) == Some(b.variants[i].Id())
  {
    hide Requests, BuiltFor, GroupOk, Minimal, MadeInCalls;
    var reqs := Requests(egress, calls[j].group, calls[j].copy);
    LastRequestIsOne(reqs, k, ty);
    r := LastRequest(reqs, k, ty).value;
    i :| 0 <= i < |made| && made[i] == r.config;
    assert MadeAt(b.variants, made, b.dup, b.nextId, i);
  }

  lemma BuiltIsVideo(v: VariantStream, c: EgressEncoderConfig)
    requires BuiltFor(v, c) && c.streamType == VideoStream
    ensures IsVideo(v)
  {}
}
