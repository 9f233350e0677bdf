/** From ingress streams, capabilities and egresses to variants and an egress map
    (crates/core/src/endpoint.rs, `get_variants_from_endpoint` and `verify`).

    Pixel arithmetic is exact where the source rounds the aspect ratio to f32;
    `as u16` saturates from floats, truncates from integers, and `+ 1` wraps. */
module Endpoint {
  import opened Wrappers
  import opened Arith
  import opened Params
  import opened Capabilities
  import opened Egress
  import opened Dedup

  datatype EndpointConfig = EndpointConfig(
    videoSrc: Option<IngressStream>, audioSrc: Option<IngressStream>,
    variants: seq<VariantStream>, egressMap: map<nat, seq<VariantGroup>>, egress: seq<EgressType>)

  // ----- Sources ----------------------------------------------------------

  function StreamsOf(info: seq<IngressStream>, ty: StreamType): seq<IngressStream> {
    if info == [] then []
    else StreamsOf(info[..|info| - 1], ty) + if info[|info| - 1].streamType == ty then [info[|info| - 1]] else []
  }

  /** `max_by_key` on width * height: the last of the largest. */
  function LargestVideo(s: seq<IngressStream>): Option<IngressStream> {
    if s == [] then None
    else
      var last, best := s[|s| - 1], LargestVideo(s[..|s| - 1]);
      if best.None? || best.value.width * best.value.height <= last.width * last.height then Some(last) else best
  }

  function RichestAudio(s: seq<IngressStream>): Option<IngressStream> {
    if s == [] then None
    else
      var last, best := s[|s| - 1], RichestAudio(s[..|s| - 1]);
      if best.None? || best.value.sampleRate * best.value.channels <= last.sampleRate * last.channels
      then Some(last) else best
  }

  function TranscodeVideoSrc(info: seq<IngressStream>): Option<IngressStream> {
    LargestVideo(StreamsOf(info, VideoStream))
  }

  function TranscodeAudioSrc(info: seq<IngressStream>): Option<IngressStream> {
    RichestAudio(StreamsOf(info, AudioStream))
  }

  lemma {:induction false} StreamsAreTyped(info: seq<IngressStream>, ty: StreamType)
    ensures forall s :: s in StreamsOf(info, ty) <==> s in info && s.streamType == ty
    decreases |info|
  {
    if info != [] {
      var init, last := info[..|info| - 1], info[|info| - 1];
      StreamsAreTyped(init, ty);
      assert info == init + [last];
    }
  }

  function Area(s: IngressStream): nat { s.width * s.height }

  /** The last one of the largest video streams is taken. */
  lemma {:induction false} LargestIsLargest(s: seq<IngressStream>)
    ensures LargestVideo(s).None? <==> s == []
    ensures LargestVideo(s).Some? ==> exists i | 0 <= i < |s| :: LastLargest(s, i)
    ensures LargestVideo(s).Some? ==> LargestVideo(s).value in s
    decreases |s|
  {
    hide Area;
    if s != [] {
      var init, n := s[..|s| - 1], |s| - 1;
      LargestIsLargest(init);
      assert s == init + [s[n]];
      if init == [] || Area(LargestVideo(init).value) <= Area(s[n]) {
        TakesLast(s);
        if init != [] {
          var i :| 0 <= i < |init| && LastLargest(init, i);
          assert forall j | 0 <= j < n :: s[j] == init[j];
        }
        assert LastLargest(s, n);
      } else {
        KeepsBest(s);
        var i :| 0 <= i < |init| && LastLargest(init, i);
        assert forall j | 0 <= j < n :: s[j] == init[j];
        assert LastLargest(s, i);
      }
    }
  }

  /** Stream `i` is what `LargestVideo` takes: none is larger, and those behind it are smaller. */
  ghost predicate LastLargest(s: seq<IngressStream>, i: nat)
    requires i < |s|
  {
    && LargestVideo(s) == Some(s[i])
    && (forall j | 0 <= j < |s| :: Area(s[j]) <= Area(s[i])) && forall j | i < j < |s| :: Area(s[j]) < Area(s[i])
  }

  lemma TakesLast(s: seq<IngressStream>)
    requires s != []
    requires var best := LargestVideo(s[..|s| - 1]); best.None? || Area(best.value) <= Area(s[|s| - 1])
    ensures LargestVideo(s) == Some(s[|s| - 1])
  {}

  lemma KeepsBest(s: seq<IngressStream>)
    requires s != []
    requires var best := LargestVideo(s[..|s| - 1]); best.Some? && Area(best.value) > Area(s[|s| - 1])
    ensures LargestVideo(s) == LargestVideo(s[..|s| - 1])
  {}

  lemma {:induction false} RichestIsOne(s: seq<IngressStream>)
    ensures RichestAudio(s).Some? ==> RichestAudio(s).value in s
    decreases |s|
  {
    if s != [] {
      RichestIsOne(s[..|s| - 1]);
      assert s == s[..|s| - 1] + [s[|s| - 1]];
    }
  }

  lemma SourcesAreTyped(info: seq<IngressStream>)
    ensures TranscodeVideoSrc(info).Some? ==> TranscodeVideoSrc(info).value.streamType == VideoStream
    ensures TranscodeAudioSrc(info).Some? ==> TranscodeAudioSrc(info).value.streamType == AudioStream
  {
    StreamsAreTyped(info, VideoStream);
    StreamsAreTyped(info, AudioStream);
    LargestIsLargest(StreamsOf(info, VideoStream));
    RichestIsOne(StreamsOf(info, AudioStream));
  }

  /** Stream `i` is a video stream, no other is larger, and those behind it are smaller. */
  ghost predicate BestVideo(info: seq<IngressStream>, i: nat)
    requires i < |info|
  {
    && info[i].streamType == VideoStream
    && forall j | 0 <= j < |info| && j != i && info[j].streamType == VideoStream ::
         var a, b := info[j].width * info[j].height, info[i].width * info[i].height;
         if j < i then a <= b else a < b
  }

  /** Stream `i` is an audio stream, no other has more samples a second over all its channels, and
      those behind it have fewer. */
  ghost predicate BestAudio(info: seq<IngressStream>, i: nat)
    requires i < |info|
  {
    && info[i].streamType == AudioStream
    && forall j | 0 <= j < |info| && j != i && info[j].streamType == AudioStream ::
         var a, b := info[j].sampleRate * info[j].channels, info[i].sampleRate * info[i].channels;
         if j < i then a <= b else a < b
  }

  /** `src` is the best of its kind, if there is one of the kind at all. */
  ghost predicate ChosenVideo(info: seq<IngressStream>, src: Option<IngressStream>) {
    if src.None? then forall s | s in info :: s.streamType != VideoStream
    else exists i | 0 <= i < |info| :: info[i] == src.value && BestVideo(info, i)
  }

  ghost predicate ChosenAudio(info: seq<IngressStream>, src: Option<IngressStream>) {
    if src.None? then forall s | s in info :: s.streamType != AudioStream
    else exists i | 0 <= i < |info| :: info[i] == src.value && BestAudio(info, i)
  }

  /** The video to transcode has the largest picture, the last one among equals. */
  lemma {:induction false} VideoSrcIsChosen(info: seq<IngressStream>)
    ensures ChosenVideo(info, TranscodeVideoSrc(info))
    decreases |info|
  {
    hide LargestVideo;
    if info == [] {
      NoVideo();
    } else {
      var init, last := info[..|info| - 1], info[|info| - 1];
      assert info == init + [last];
      VideoSrcIsChosen(init);
      var before := TranscodeVideoSrc(init);
      VideoSrcStep(init, last);
      if last.streamType != VideoStream
         || (before.Some? && before.value.width * before.value.height > last.width * last.height)
      {
        if before.Some? {
          var i :| 0 <= i < |init| && init[i] == before.value && BestVideo(init, i);
          assert info[i] == before.value && BestVideo(info, i);
        }
      } else {
        VideoReplaced(init, last);
        assert info[|init|] == last;
      }
    }
  }

  lemma VideoReplaced(init: seq<IngressStream>, last: IngressStream)
    requires ChosenVideo(init, TranscodeVideoSrc(init)) && last.streamType == VideoStream
    requires var before := TranscodeVideoSrc(init);
             before.Some? ==> before.value.width * before.value.height <= last.width * last.height
    ensures BestVideo(init + [last], |init|)
  {
    var info, before := init + [last], TranscodeVideoSrc(init);
    forall j | 0 <= j < |init| && info[j].streamType == VideoStream
      ensures info[j].width * info[j].height <= last.width * last.height
    {
      assert init[j] in init;
      var i :| 0 <= i < |init| && init[i] == before.value && BestVideo(init, i);
      assert init[j].width * init[j].height <= init[i].width * init[i].height;
    }
  }

  lemma NoVideo()
    ensures TranscodeVideoSrc([]).None? && TranscodeAudioSrc([]).None?
  {}

  lemma VideoSrcStep(init: seq<IngressStream>, last: IngressStream)
    ensures TranscodeVideoSrc(init + [last]) ==
            var before := TranscodeVideoSrc(init);
            if last.streamType != VideoStream then before
            else if before.Some? && before.value.width * before.value.height > last.width * last.height then before
            else Some(last)
  {
    assert (init + [last])[..|init|] == init;
    var streams := StreamsOf(init, VideoStream);
    assert (streams + [last])[..|streams|] == streams && streams + [] == streams;
  }

  /** The audio to transcode has the most samples a second over all its channels, the last one
      among equals. */
  lemma {:induction false} AudioSrcIsChosen(info: seq<IngressStream>)
    ensures ChosenAudio(info, TranscodeAudioSrc(info))
    decreases |info|
  {
    hide RichestAudio;
    if info == [] {
      NoVideo();
    } else {
      var init, last := info[..|info| - 1], info[|info| - 1];
      assert info == init + [last];
      AudioSrcIsChosen(init);
      var before := TranscodeAudioSrc(init);
      AudioSrcStep(init, last);
      if last.streamType != AudioStream
         || (before.Some? && before.value.sampleRate * before.value.channels > last.sampleRate * last.channels)
      {
        if before.Some? {
          var i :| 0 <= i < |init| && init[i] == before.value && BestAudio(init, i);
          assert info[i] == before.value && BestAudio(info, i);
        }
      } else {
        AudioReplaced(init, last);
        assert info[|init|] == last;
      }
    }
  }

  lemma AudioReplaced(init: seq<IngressStream>, last: IngressStream)
    requires ChosenAudio(init, TranscodeAudioSrc(init)) && last.streamType == AudioStream
    requires var before := TranscodeAudioSrc(init);
             before.Some? ==> before.value.sampleRate * before.value.channels <= last.sampleRate * last.channels
    ensures BestAudio(init + [last], |init|)
  {
    var info, before := init + [last], TranscodeAudioSrc(init);
    forall j | 0 <= j < |init| && info[j].streamType == AudioStream
      ensures info[j].sampleRate * info[j].channels <= last.sampleRate * last.channels
    {
      assert init[j] in init;
      var i :| 0 <= i < |init| && init[i] == before.value && BestAudio(init, i);
      assert init[j].sampleRate * init[j].channels <= init[i].sampleRate * init[i].channels;
    }
  }

  lemma AudioSrcStep(init: seq<IngressStream>, last: IngressStream)
    ensures TranscodeAudioSrc(init + [last]) ==
            var before := TranscodeAudioSrc(init);
            if last.streamType != AudioStream then before
            else if before.Some? && before.value.sampleRate * before.value.channels > last.sampleRate * last.channels
            then before else Some(last)
  {
    assert (init + [last])[..|init|] == init;
    var streams := StreamsOf(init, AudioStream);
    assert (streams + [last])[..|streams|] == streams && streams + [] == streams;
  }

  // ----- Output dimensions --------------------------------------------------

  /** `round` of a non-negative quotient. */
  function RoundHalfUp(n: nat, d: nat): nat
    requires d > 0
  {
    (2 * n + d) / (2 * d)
  }

  function RoundEven(x: nat): nat {
    if x % 2 == 1 then (x + 1) % U16 else x
  }

  lemma RoundEvenIsEven(x: nat)
    ensures RoundEven(x) % 2 == 0
    ensures x < U16 - 1 ==> x <= RoundEven(x) <= x + 1
  {
    var q, r := (x + 1) / U16, (x + 1) % U16;
    assert x + 1 == U16 * q + r;
    if x < U16 - 1 {
      assert q == 0;
    }
    assert x % 2 == 1 ==> r == 2 * ((x + 1) / 2 - U16 / 2 * q);
  }

  /** The output width that keeps the aspect ratio. */
  function OutputWidth(src: IngressStream, h: nat): nat {
    if src.height == 0 then 0
    else
      var w := RoundHalfUp(h * src.width, src.height);
      RoundEven(if w >= U16 then U16 - 1 else w)
  }

  /** Widths are even and within one and a half pixels of the exact aspect ratio, except that one
      that would be 65535 or more comes out as zero, and so do all of a source without height. */
  lemma WidthKeepsAspect(src: IngressStream, h: nat)
    ensures var w, n := OutputWidth(src, h), h * src.width;
            if 2 * n + src.height < 2 * (U16 - 1) * src.height then
              w % 2 == 0 && 2 * n - src.height <= 2 * (w * src.height) <= 2 * n + 3 * src.height
            else w == 0
  {
    hide RoundHalfUp, RoundEven;
    var n, d := h * src.width, src.height;
    if d == 0 { return; }
    var r := RoundHalfUp(n, d);
    RoundEvenIsEven(r);
    RoundReaches(n, d, U16 - 1);
    RoundBounds(n, d);
    assert (r + 1) * d == r * d + d;
    if r >= U16 - 1 {
      LastWidth();
    }
  }

  lemma LastWidth()
    ensures RoundEven(U16 - 1) == 0
  {}

  lemma RoundReaches(n: nat, d: nat, k: nat)
    requires d > 0
    ensures RoundHalfUp(n, d) >= k <==> 2 * n + d >= 2 * k * d
  {
    var r := RoundHalfUp(n, d);
    var rest := (2 * n + d) % (2 * d);
    assert 2 * n + d == (2 * d) * r + rest && rest < 2 * d;
    assert (2 * d) * r == 2 * (r * d) && (2 * k) * d == 2 * (k * d);
    if r >= k {
      MulMonotone(k, r, d);
    } else {
      MulMonotone(r + 1, k, d);
      assert (r + 1) * d == r * d + d;
    }
  }

  lemma RoundBounds(n: nat, d: nat)
    requires d > 0
    ensures 2 * n - d <= 2 * (RoundHalfUp(n, d) * d) <= 2 * n + d
  {
    var r := RoundHalfUp(n, d);
    assert 2 * n + d == (2 * d) * r + (2 * n + d) % (2 * d);
    assert (2 * d) * r == 2 * (r * d);
  }

  // ----- Groups -------------------------------------------------------------

  function AudioParams(audio: Option<IngressStream>): seq<EncoderParam>
    requires audio.Some? ==> audio.value.streamType == AudioStream
  {
    match audio case Some(a) => IngressStreamToParams(a) case None => []
  }

  /** Copy a video stream, next to the audio source. */
  function CopyGroup(s: IngressStream, audio: Option<IngressStream>): GroupedIngressStream
    requires s.streamType == VideoStream && (audio.Some? ==> audio.value.streamType == AudioStream)
  {
    GroupedIngressStream(Some(s), audio, IngressStreamToParams(s), AudioParams(audio))
  }

  /** Transcode the video source to a height and bitrate. */
  function TranscodeGroup(src: IngressStream, audio: Option<IngressStream>, h: nat, bitrate: nat): GroupedIngressStream
    requires src.streamType == VideoStream && (audio.Some? ==> audio.value.streamType == AudioStream)
  {
    GroupedIngressStream(Some(src), audio,
                         PutAll(IngressStreamToParams(src),
                                [Bitrate(bitrate), Height(RoundEven(h)), Width(OutputWidth(src, h))]),
                         AudioParams(audio))
  }

  /** A group that was offered to the egresses. */
  datatype Call = Call(group: GroupedIngressStream, copy: bool)

  // ----- The configuration under construction -------------------------------

  datatype Build = Build(variants: seq<VariantStream>, egressMap: map<nat, seq<VariantGroup>>, dup: DupMap, nextId: nat)

  ghost predicate RequestedIn(egress: seq<EgressType>, call: Call, c: EgressEncoderConfig) {
    exists r | r in Requests(egress, call.group, call.copy) :: r.config == c
  }

  /** The configurations made are exactly those some egress requested in some call. */
  ghost predicate Minimal(egress: seq<EgressType>, calls: seq<Call>, made: seq<EgressEncoderConfig>) {
    && (forall i | 0 <= i < |made| :: exists j | 0 <= j < |calls| :: RequestedIn(egress, calls[j], made[i]))
    && forall j, c | 0 <= j < |calls| && RequestedIn(egress, calls[j], c) :: c in made
  }

  /** Every variant was made in some call, from a stream that was requested in its configuration: it
      names that stream, is a copy exactly in calls that copy, and is scaled if it has to be. */
  ghost predicate MadeInCalls(egress: seq<EgressType>, calls: seq<Call>, variants: seq<VariantStream>,
                              made: seq<EgressEncoderConfig>) {
    && |variants| == |made|
    && forall i | 0 <= i < |made| :: exists j | 0 <= j < |calls| :: MadeInCall(egress, calls[j], variants[i], made[i])
  }

  ghost predicate MadeInCall(egress: seq<EgressType>, call: Call, v: VariantStream, c: EgressEncoderConfig) {
    MadeFrom(v, c, Requests(egress, call.group, call.copy), call.copy)
  }

  lemma MoreMadeInCalls(egress: seq<EgressType>, calls: seq<Call>, call: Call, variants: seq<VariantStream>,
                        made: seq<EgressEncoderConfig>, created: seq<VariantStream>, newMade: seq<EgressEncoderConfig>)
    requires MadeInCalls(egress, calls, variants, made) && |created| == |newMade|
    requires forall i | 0 <= i < |created| :: MadeInCall(egress, call, created[i], newMade[i])
    ensures MadeInCalls(egress, calls + [call], variants + created, made + newMade)
  {
    hide MadeInCall;
    var longer, all := calls + [call], made + newMade;
    assert longer[|calls|] == call && forall j | 0 <= j < |calls| :: longer[j] == calls[j];
    forall i | 0 <= i < |all|
      ensures exists j | 0 <= j < |longer| :: MadeInCall(egress, longer[j], (variants + created)[i], all[i])
    {
      if i < |made| {
        var j :| 0 <= j < |calls| && MadeInCall(egress, calls[j], variants[i], made[i]);
        assert MadeInCall(egress, longer[j], (variants + created)[i], all[i]);
      } else {
        assert MadeInCall(egress, longer[|calls|], created[i - |made|], newMade[i - |made|]);
      }
    }
  }

  /** Group `g` of egress `k` serves exactly what that egress requested in `call`. */
  ghost predicate FromCall(egress: seq<EgressType>, call: Call, dup: DupMap, k: nat, g: VariantGroup) {
    var reqs := Requests(egress, call.group, call.copy);
    Asks(reqs, k) && AllMade(reqs, dup) && g == GroupOf(reqs, k, dup)
  }

  /** The recorder that decides about recordings: the first one. */
  function FirstRecorder(egress: seq<EgressType>): (r: Option<EgressType>)
    ensures r.Some? ==> r.value.Recorder? && r.value in egress
  {
    if egress == [] then None
    else if egress[0].Recorder? then Some(egress[0])
    else FirstRecorder(egress[1..])
  }

  /** No egress before it records, and there is none only if no egress records at all. */
  lemma {:induction false} FirstRecorderIsFirst(egress: seq<EgressType>) returns (i: nat)
    ensures i <= |egress| && forall j | 0 <= j < i :: !egress[j].Recorder?
    ensures FirstRecorder(egress) == if i == |egress| then None else Some(egress[i])
    ensures i < |egress| ==> egress[i].Recorder?
  {
    i := 0;
    if egress != [] && !egress[0].Recorder? {
      var k := FirstRecorderIsFirst(egress[1..]);
      i := k + 1;
      assert forall j | 1 <= j < i :: egress[j] == egress[1..][j - 1];
    }
  }

  predicate IsVideo(v: VariantStream) { v.Video? || v.CopyVideo? }

  ghost predicate HasId(variants: seq<VariantStream>, id: nat) {
    exists i | 0 <= i < |variants| :: variants[i].Id() == id
  }

  ghost predicate HasVideo(variants: seq<VariantStream>, id: nat, height: nat) {
    exists i | 0 <= i < |variants| ::
      variants[i].Id() == id && IsVideo(variants[i]) && variants[i].video.height == height
  }

  /** Group `g` of egress `k` records an existing video variant of the height the recorder wants. */
  ghost predicate FromDvr(egress: seq<EgressType>, variants: seq<VariantStream>, k: nat, g: VariantGroup) {
    && FirstRecorder(egress).Some? && FirstRecorder(egress).value.id == k
    && g.video.Some? && HasVideo(variants, g.video.value, FirstRecorder(egress).value.height)
    && (g.audio.Some? ==> HasId(variants, g.audio.value)) && g.subtitle.None?
  }

  ghost predicate GroupOk(egress: seq<EgressType>, calls: seq<Call>, b: Build, k: nat, g: VariantGroup) {
    || FromDvr(egress, b.variants, k, g)
    || exists j | 0 <= j < |calls| :: FromCall(egress, calls[j], b.dup, k, g)
  }

  ghost predicate EngineInv(egress: seq<EgressType>, b: Build, made: seq<EgressEncoderConfig>, calls: seq<Call>) {
    && DedupInv(b.variants, made, b.dup, b.nextId)
    && Minimal(egress, calls, made) && MadeInCalls(egress, calls, b.variants, made)
    && (forall j | 0 <= j < |calls| :: calls[j].group.Valid())
    && forall k, i | k in b.egressMap && 0 <= i < |b.egressMap[k]| :: GroupOk(egress, calls, b, k, b.egressMap[k][i])
  }

  /** The groups the calls made for egress `k`, in the order of the calls. */
  ghost function CallGroups(egress: seq<EgressType>, calls: seq<Call>, dup: DupMap, k: nat): seq<VariantGroup> {
    if calls == [] then []
    else
      var last := calls[|calls| - 1];
      CallGroups(egress, calls[..|calls| - 1], dup, k) + CallGroup(egress, last, dup, k)
  }

  ghost function CallGroup(egress: seq<EgressType>, call: Call, dup: DupMap, k: nat): seq<VariantGroup> {
    var reqs := Requests(egress, call.group, call.copy);
    if Asks(reqs, k) then [GroupOf(reqs, k, dup)] else []
  }

  function GroupsFor(egressMap: map<nat, seq<VariantGroup>>, k: nat): seq<VariantGroup> {
    if k in egressMap then egressMap[k] else []
  }

  /** Every egress has exactly the groups of its requests, one for each call it asked in. */
  ghost predicate OnlyCalls(egress: seq<EgressType>, b: Build, calls: seq<Call>) {
    forall k: nat :: GroupsFor(b.egressMap, k) == CallGroups(egress, calls, b.dup, k)
  }

  /** `b'` extends `b` by the variants one call asked for. */
  ghost predicate Extends(egress: seq<EgressType>, call: Call, b: Build, made: seq<EgressEncoderConfig>,
                          b': Build, made': seq<EgressEncoderConfig>) {
    var reqs := Requests(egress, call.group, call.copy);
    && b.variants <= b'.variants && made <= made' && |b'.variants| == |made'| && |b.variants| == |made|
    && Grows(b.dup, b'.dup) && AllMade(reqs, b'.dup)
    && forall i | |made| <= i < |made'| :: MadeFrom(b'.variants[i], made'[i], reqs, call.copy)
  }

  /** Append the groups of one call to the egress map. */
  method MergeGroups(egressMap: map<nat, seq<VariantGroup>>, groups: map<nat, VariantGroup>)
    returns (r: map<nat, seq<VariantGroup>>)
    ensures r.Keys == egressMap.Keys + groups.Keys
    ensures forall k | k in r ::
              r[k] == (if k in egressMap then egressMap[k] else []) + (if k in groups then [groups[k]] else [])
  {
    r := egressMap;
    var todo := groups.Keys;
    while todo != {}
      invariant todo <= groups.Keys
      invariant r.Keys == egressMap.Keys + (groups.Keys - todo)
      invariant forall k | k in r ::
                  r[k] == (if k in egressMap then egressMap[k] else [])
                    + (if k in groups && k !in todo then [groups[k]] else [])
      decreases todo
    {
      var k :| k in todo;
      r := r[k := (if k in r then r[k] else []) + [groups[k]]];
      todo := todo - {k};
    }
  }

  /** Offer one group to all egresses and merge the outcome. */
  method AddGroup(egress: seq<EgressType>, call: Call, b: Build, ghost made: seq<EgressEncoderConfig>,
                  ghost calls: seq<Call>)
    returns (b': Build, ghost made': seq<EgressEncoderConfig>)
    requires EngineInv(egress, b, made, calls) && call.group.Valid() && OnlyCalls(egress, b, calls)
    ensures EngineInv(egress, b', made', calls + [call]) && OnlyCalls(egress, b', calls + [call])
    ensures Extends(egress, call, b, made, b', made')
  {
    hide DedupInv, Requests, GroupOf, MadeFrom, GroupOk, Minimal, OnlyCalls, MadeInCalls;
    var res, dup', nextId'; ghost var newMade;
    res, dup', nextId', newMade :=
      GetStreamsForEgress(egress, call.group, call.copy, b.dup, b.nextId, b.variants, made);
    if res.None? {
      b', made' := b, made;
      SameBuild(egress, call, b, made, calls);
      NobodyServed(egress, b, calls, call);
    } else {
      var (created, groups) := res.value;
      var egressMap := MergeGroups(b.egressMap, groups);
      b', made' := Build(b.variants + created, egressMap, dup', nextId'), made + newMade;
      GrownBuild(egress, call, b, made, calls, created, newMade, groups, b');
      ServedByCall(egress, b, made, calls, call, groups, b');
    }
  }

  lemma {:induction false} CallGroupsStable(egress: seq<EgressType>, calls: seq<Call>, dup: DupMap, dup': DupMap,
                                            k: nat)
    requires Grows(dup, dup')
    requires forall j | 0 <= j < |calls| :: AllMade(Requests(egress, calls[j].group, calls[j].copy), dup)
    ensures CallGroups(egress, calls, dup', k) == CallGroups(egress, calls, dup, k)
    decreases |calls|
  {
    hide Requests, GroupOf, AllMade, Grows;
    if calls != [] {
      var init, last := calls[..|calls| - 1], calls[|calls| - 1];
      assert forall j | 0 <= j < |init| :: init[j] == calls[j];
      CallGroupsStable(egress, init, dup, dup', k);
      GroupIsStable(Requests(egress, last.group, last.copy), k, dup, dup');
    }
  }

  lemma CallGroupsMore(egress: seq<EgressType>, calls: seq<Call>, call: Call, dup: DupMap, k: nat)
    ensures CallGroups(egress, calls + [call], dup, k)
            == CallGroups(egress, calls, dup, k) + CallGroup(egress, call, dup, k)
  {
    hide CallGroup;
    assert (calls + [call])[..|calls|] == calls;
  }

  lemma RequestsAreMade(egress: seq<EgressType>, b: Build, made: seq<EgressEncoderConfig>, calls: seq<Call>)
    requires DedupInv(b.variants, made, b.dup, b.nextId) && Minimal(egress, calls, made)
    ensures forall j | 0 <= j < |calls| :: AllMade(Requests(egress, calls[j].group, calls[j].copy), b.dup)
  {
    hide Requests, DedupInv;
    SizesAgree(b, made);
    forall j | 0 <= j < |calls| ensures AllMade(Requests(egress, calls[j].group, calls[j].copy), b.dup) {
      var reqs := Requests(egress, calls[j].group, calls[j].copy);
      forall i | 0 <= i < |reqs| ensures reqs[i].config in b.dup {
        assert reqs[i] in reqs;
        assert RequestedIn(egress, calls[j], reqs[i].config);
      }
    }
  }

  lemma NobodyServed(egress: seq<EgressType>, b: Build, calls: seq<Call>, call: Call)
    requires OnlyCalls(egress, b, calls) && Requests(egress, call.group, call.copy) == []
    ensures OnlyCalls(egress, b, calls + [call])
  {
    hide Requests, CallGroups;
    forall k: nat ensures GroupsFor(b.egressMap, k) == CallGroups(egress, calls + [call], b.dup, k) {
      CallGroupsMore(egress, calls, call, b.dup, k);
    }
  }

  /** The groups of a call are appended for exactly the egresses that asked. */
  lemma ServedByCall(egress: seq<EgressType>, b: Build, made: seq<EgressEncoderConfig>, calls: seq<Call>, call: Call,
                     groups: map<nat, VariantGroup>, b': Build)
    requires DedupInv(b.variants, made, b.dup, b.nextId) && Minimal(egress, calls, made) && OnlyCalls(egress, b, calls)
    requires Grows(b.dup, b'.dup) && MapsGroups(groups, Requests(egress, call.group, call.copy), b'.dup)
    requires b'.egressMap.Keys == b.egressMap.Keys + groups.Keys
    requires forall k | k in b'.egressMap ::
               b'.egressMap[k] == (if k in b.egressMap then b.egressMap[k] else [])
                 + (if k in groups then [groups[k]] else [])
    ensures OnlyCalls(egress, b', calls + [call])
  {
    hide Requests, CallGroups, GroupOf, DedupInv, Minimal, Grows, AllMade, Asks;
    RequestsAreMade(egress, b, made, calls);
    forall k: nat ensures GroupsFor(b'.egressMap, k) == CallGroups(egress, calls + [call], b'.dup, k) {
      CallGroupsStable(egress, calls, b.dup, b'.dup, k);
      CallGroupsMore(egress, calls, call, b'.dup, k);
      assert GroupsFor(b.egressMap, k) == CallGroups(egress, calls, b.dup, k);
    }
  }

  lemma SizesAgree(b: Build, made: seq<EgressEncoderConfig>)
    requires DedupInv(b.variants, made, b.dup, b.nextId)
    ensures |b.variants| == |made| && (forall c :: c in b.dup <==> c in made)
  {}

  /** A call nobody wanted anything from changes nothing. */
  lemma SameBuild(egress: seq<EgressType>, call: Call, b: Build, made: seq<EgressEncoderConfig>, calls: seq<Call>)
    requires EngineInv(egress, b, made, calls) && call.group.Valid() && Requests(egress, call.group, call.copy) == []
    ensures EngineInv(egress, b, made, calls + [call]) && Extends(egress, call, b, made, b, made)
  {
    hide DedupInv, Minimal, GroupOk, MadeInCalls;
    SizesAgree(b, made);
    assert made + [] == made && b.variants + [] == b.variants;
    MoreMadeInCalls(egress, calls, call, b.variants, made, [], []);
    MinimalGrows(egress, calls, call, made, [], [], b.dup);
    GroupsStayOk(egress, calls, b, calls + [call], b);
  }

  lemma GroupsStayOk(egress: seq<EgressType>, calls: seq<Call>, b: Build, calls': seq<Call>, b': Build)
    requires forall k, i | k in b.egressMap && 0 <= i < |b.egressMap[k]| ::
               GroupOk(egress, calls, b, k, b.egressMap[k][i])
    requires calls <= calls' && b.variants <= b'.variants && Grows(b.dup, b'.dup)
    ensures forall k, i | k in b.egressMap && 0 <= i < |b.egressMap[k]| ::
              GroupOk(egress, calls', b', k, b.egressMap[k][i])
  {
    hide GroupOk, Grows;
    forall k, i | k in b.egressMap && 0 <= i < |b.egressMap[k]|
      ensures GroupOk(egress, calls', b', k, b.egressMap[k][i])
    {
      GroupStaysOk(egress, calls, b, calls', b', k, b.egressMap[k][i]);
    }
  }

  lemma GroupStaysOk(egress: seq<EgressType>, calls: seq<Call>, b: Build, calls': seq<Call>, b': Build, k: nat,
                     g: VariantGroup)
    requires GroupOk(egress, calls, b, k, g)
    requires calls <= calls' && b.variants <= b'.variants && Grows(b.dup, b'.dup)
    ensures GroupOk(egress, calls', b', k, g)
  {
    hide Requests, GroupOf;
    if FromDvr(egress, b.variants, k, g) {
      assert FromDvr(egress, b'.variants, k, g) by {
        assert forall i | 0 <= i < |b.variants| :: b'.variants[i] == b.variants[i];
      }
    } else {
      var j :| 0 <= j < |calls| && FromCall(egress, calls[j], b.dup, k, g);
      GroupIsStable(Requests(egress, calls[j].group, calls[j].copy), k, b.dup, b'.dup);
      assert FromCall(egress, calls'[j], b'.dup, k, g);
    }
  }

  lemma GrownBuild(egress: seq<EgressType>, call: Call, b: Build, made: seq<EgressEncoderConfig>, calls: seq<Call>,
                   created: seq<VariantStream>, newMade: seq<EgressEncoderConfig>, groups: map<nat, VariantGroup>,
                   b': Build)
    requires EngineInv(egress, b, made, calls) && call.group.Valid()
    requires b'.variants == b.variants + created && |created| == |newMade|
    requires DedupInv(b'.variants, made + newMade, b'.dup, b'.nextId) && Grows(b.dup, b'.dup)
    requires AllMade(Requests(egress, call.group, call.copy), b'.dup)
    requires forall i | 0 <= i < |created| ::
               MadeFrom(created[i], newMade[i], Requests(egress, call.group, call.copy), call.copy)
    requires MapsGroups(groups, Requests(egress, call.group, call.copy), b'.dup)
    requires b'.egressMap.Keys == b.egressMap.Keys + groups.Keys
    requires forall k | k in b'.egressMap ::
               b'.egressMap[k] == (if k in b.egressMap then b.egressMap[k] else [])
                 + (if k in groups then [groups[k]] else [])
    ensures EngineInv(egress, b', made + newMade, calls + [call])
    ensures Extends(egress, call, b, made, b', made + newMade)
  {
    hide DedupInv, Requests, GroupOf, MadeFrom, GroupOk, Minimal, MapsGroups, MadeInCalls;
    SizesAgree(b, made);
    MoreMadeInCalls(egress, calls, call, b.variants, made, created, newMade);
    SizesAgree(b', made + newMade);
    MinimalGrows(egress, calls, call, made, newMade, created, b'.dup);
    GroupsStayOk(egress, calls, b, calls + [call], b');
    NewGroupsOk(egress, call, calls, groups, b');
  }

  lemma NewGroupsOk(egress: seq<EgressType>, call: Call, calls: seq<Call>, groups: map<nat, VariantGroup>, b: Build)
    requires AllMade(Requests(egress, call.group, call.copy), b.dup)
    requires MapsGroups(groups, Requests(egress, call.group, call.copy), b.dup)
    ensures forall k | k in groups :: GroupOk(egress, calls + [call], b, k, groups[k])
  {
    hide Requests, GroupOf, FromDvr;
    var longer := calls + [call];
    assert longer[|calls|] == call;
    assert forall k | k in groups :: FromCall(egress, longer[|calls|], b.dup, k, groups[k]);
  }

  lemma MinimalGrows(egress: seq<EgressType>, calls: seq<Call>, call: Call, made: seq<EgressEncoderConfig>,
                     newMade: seq<EgressEncoderConfig>, created: seq<VariantStream>, dup: DupMap)
    requires Minimal(egress, calls, made) && |created| == |newMade|
    requires AllMade(Requests(egress, call.group, call.copy), dup) && (forall c :: c in dup <==> c in made + newMade)
    requires forall i | 0 <= i < |created| ::
               MadeFrom(created[i], newMade[i], Requests(egress, call.group, call.copy), call.copy)
    ensures Minimal(egress, calls + [call], made + newMade)
  {
    hide Requests;
    var longer, all := calls + [call], made + newMade;
    assert longer[|calls|] == call && forall j | 0 <= j < |calls| :: longer[j] == calls[j];
    forall i | 0 <= i < |all| ensures exists j | 0 <= j < |longer| :: RequestedIn(egress, longer[j], all[i]) {
      if i < |made| {
        var j :| 0 <= j < |calls| && RequestedIn(egress, calls[j], made[i]);
        assert RequestedIn(egress, longer[j], all[i]);
      } else {
        assert MadeFrom(created[i - |made|], newMade[i - |made|], Requests(egress, call.group, call.copy), call.copy);
        assert RequestedIn(egress, longer[|calls|], all[i]);
      }
    }
    forall j, c | 0 <= j < |longer| && RequestedIn(egress, longer[j], c) ensures c in all {
      if j < |calls| {
        assert RequestedIn(egress, calls[j], c);
      }
    }
  }
}
