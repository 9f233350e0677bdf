/** One group of source streams is offered to all egresses; equal requests share one variant
    (crates/core/src/endpoint.rs, `get_streams_for_egress`).

    Random ids are drawn from a counter: the i-th request of a call gets `nextId + i`. */
module Dedup {
  import opened Wrappers
  import opened Params
  import opened Egress

  /** Source streams that are muxed together (subtitles are never set by the engine). */
  datatype GroupedIngressStream = GroupedIngressStream(
    video: Option<IngressStream>, audio: Option<IngressStream>,
    videoParams: seq<EncoderParam>, audioParams: seq<EncoderParam>)
  {
    ghost predicate Valid() {
      && (video.Some? ==> video.value.streamType == VideoStream)
      && (audio.Some? ==> audio.value.streamType == AudioStream)
    }
  }

  /** An egress wants a stream in some configuration. */
  datatype Request = Request(egressId: nat, config: EgressEncoderConfig, stream: IngressStream)

  type DupMap = map<EgressEncoderConfig, nat>

  /** What an egress asks of one stream; a copy is only offered in the codec it already has. */
  function Want(e: EgressType, s: IngressStream, params: seq<EncoderParam>, copy: bool): Option<EgressEncoderConfig> {
    match GetEncoderParams(e, s, params)
    case Some(p) => if !copy || p.codec == (match s.codecName case Some(n) => n case None => "") then Some(p) else None
    case None => None
  }

  function StreamRequest(e: EgressType, s: Option<IngressStream>, params: seq<EncoderParam>, copy: bool): seq<Request> {
    if s.None? then []
    else match Want(e, s.value, params, copy)
      case Some(p) => [Request(e.id, p, s.value)]
      case None => []
  }

  function RequestsOf(e: EgressType, g: GroupedIngressStream, copy: bool): seq<Request> {
    StreamRequest(e, g.video, g.videoParams, copy) + StreamRequest(e, g.audio, g.audioParams, copy)
  }

  /** All requests, in the order of the egresses. */
  function Requests(egress: seq<EgressType>, g: GroupedIngressStream, copy: bool): seq<Request> {
    if egress == [] then []
    else Requests(egress[..|egress| - 1], g, copy) + RequestsOf(egress[|egress| - 1], g, copy)
  }

  lemma {:induction false} RequestsAreTyped(egress: seq<EgressType>, g: GroupedIngressStream, copy: bool)
    requires g.Valid()
    ensures forall i | 0 <= i < |Requests(egress, g, copy)| :: Typed(Requests(egress, g, copy)[i])
    decreases |egress|
  {
    if egress != [] {
      RequestsAreTyped(egress[..|egress| - 1], g, copy);
      hide DefaultVideoH264, DefaultAudioH264;
      assert forall r | r in RequestsOf(egress[|egress| - 1], g, copy) :: Typed(r);
    }
  }

  predicate Typed(r: Request) {
    && r.config.streamType == r.stream.streamType
    && (r.config.streamType == VideoStream || r.config.streamType == AudioStream)
  }

  // ----- Variants for requests ------------------------------------------------

  function PatchForIngress(v: VideoVariant, s: IngressStream): VideoVariant {
    if s.width % U16 != v.width || s.height % U16 != v.height || s.streamType != VideoStream
       || s.formatName != Some(v.pixelFormat)
    then v.(scaled := true) else v
  }

  /** A video variant is scaled exactly if its size or pixel format is not that of the stream, or the
      format of the stream is not known. */
  ghost predicate ScaledFor(v: VariantStream, s: IngressStream) {
    v.Video? || v.CopyVideo? ==>
      (v.video.scaled <==> !(v.video.width == s.width % U16 && v.video.height == s.height % U16
                             && s.formatName == Some(v.video.pixelFormat)))
  }

  method CreateVariant(r: Request, id: nat, copy: bool) returns (v: VariantStream)
    requires Typed(r)
    ensures v.Id() == id && v.SrcIndex() == r.stream.index && BuiltFor(v, r.config)
    ensures r.config.streamType == VideoStream ==> if copy then v.CopyVideo? else v.Video?
    ensures ScaledFor(v, r.stream)
  {
    if r.config.streamType == VideoStream {
      var base := DefaultVideo(id, r.stream.index, r.config.codec);
      var cfg := ApplyVideoParams(base, r.config.codecParams);
      VariantReadsParams(base, r.config.codecParams);
      hide SetAllVideo, Lookup;
      cfg := PatchForIngress(cfg, r.stream);
      v := if copy then CopyVideo(cfg) else Video(cfg);
    } else {
      var base := DefaultAudio(id, r.stream.index, r.config.codec);
      var cfg := ApplyAudioParams(base, r.config.codecParams);
      AudioVariantReadsParams(base, r.config.codecParams);
      v := Audio(cfg);
    }
  }

  /** `v` is of the kind the configuration asks for and its fields are the parameters in force. */
  ghost predicate BuiltFor(v: VariantStream, c: EgressEncoderConfig) {
    match c.streamType
    case VideoStream =>
      && (v.Video? || v.CopyVideo?)
      && VideoReads(v.video.(scaled := false), DefaultVideo(v.Id(), v.SrcIndex(), c.codec), c.codecParams)
    case AudioStream =>
      && v.Audio?
      && AudioReads(v.audio, DefaultAudio(v.Id(), v.SrcIndex(), c.codec), c.codecParams)
    case _ => false
  }

  // ----- The deduplication map ------------------------------------------------

  /** `made[i]` is the configuration of `variants[i]`: the map is a bijection between the
      configurations made so far and the variants, and ids are pairwise distinct. */
  ghost predicate DedupInv(variants: seq<VariantStream>, made: seq<EgressEncoderConfig>, dup: DupMap, nextId: nat) {
    && |variants| == |made|
    && (forall i, j | 0 <= i < j < |made| :: made[i] != made[j])
    && (forall c :: c in dup <==> c in made)
    && (forall i | 0 <= i < |made| :: MadeAt(variants, made, dup, nextId, i))
    && (forall i, j | 0 <= i < j < |variants| :: variants[i].Id() != variants[j].Id())
  }

  ghost predicate MadeAt(variants: seq<VariantStream>, made: seq<EgressEncoderConfig>, dup: DupMap, nextId: nat, i: nat)
    requires i < |made| == |variants|
  {
    && made[i] in dup && dup[made[i]] == variants[i].Id() < nextId
    && BuiltFor(variants[i], made[i])
  }

  ghost predicate Grows(dup: DupMap, dup': DupMap) {
    forall c | c in dup :: c in dup' && dup'[c] == dup[c]
  }

  lemma DedupInsert(variants: seq<VariantStream>, made: seq<EgressEncoderConfig>, dup: DupMap, nextId: nat,
                    c: EgressEncoderConfig, v: VariantStream)
    requires DedupInv(variants, made, dup, nextId) && c !in dup
    requires v.Id() == nextId && BuiltFor(v, c)
    ensures DedupInv(variants + [v], made + [c], dup[c := nextId], nextId + 1)
  {
    hide BuiltFor;
    var variants', made', dup', next' := variants + [v], made + [c], dup[c := nextId], nextId + 1;
    forall i: nat | i < |made'|
      ensures MadeAt(variants', made', dup', next', i)
    {
      assert i < |made| ==> MadeAt(variants, made, dup, nextId, i);
    }
    forall i, j | 0 <= i < j < |made| + 1
      ensures (variants + [v])[i].Id() != (variants + [v])[j].Id()
    {
      assert MadeAt(variants, made, dup, nextId, i);
    }
  }

  lemma DedupLater(variants: seq<VariantStream>, made: seq<EgressEncoderConfig>, dup: DupMap, nextId: nat, later: nat)
    requires DedupInv(variants, made, dup, nextId) && nextId <= later
    ensures DedupInv(variants, made, dup, later)
  {
    hide BuiltFor;
    forall i: nat | i < |made| ensures MadeAt(variants, made, dup, later, i) {
      assert MadeAt(variants, made, dup, nextId, i);
    }
  }

  // ----- What a group means ---------------------------------------------------

  /** The last request of an egress for a kind of stream. */
  function LastRequest(reqs: seq<Request>, k: nat, ty: StreamType): Option<Request> {
    if reqs == [] then None
    else
      var r := reqs[|reqs| - 1];
      if r.egressId == k && r.config.streamType == ty then Some(r)
      else LastRequest(reqs[..|reqs| - 1], k, ty)
  }

  function IdFor(reqs: seq<Request>, k: nat, ty: StreamType, dup: DupMap): Option<nat> {
    match LastRequest(reqs, k, ty)
    case Some(r) => if r.config in dup then Some(dup[r.config]) else None
    case None => None
  }

  /** The group of egress `k`: for each kind the variant made for the configuration it asked for. */
  function GroupOf(reqs: seq<Request>, k: nat, dup: DupMap): VariantGroup {
    VariantGroup(IdFor(reqs, k, VideoStream, dup), IdFor(reqs, k, AudioStream, dup), None)
  }

  ghost predicate Asks(reqs: seq<Request>, k: nat) {
    exists i | 0 <= i < |reqs| :: reqs[i].egressId == k
  }

  ghost predicate AllMade(reqs: seq<Request>, dup: DupMap) {
    forall i | 0 <= i < |reqs| :: reqs[i].config in dup
  }

  lemma {:induction false} LastRequestIsOne(reqs: seq<Request>, k: nat, ty: StreamType)
    ensures var r := LastRequest(reqs, k, ty);
            r.Some? ==> r.value in reqs && r.value.egressId == k && r.value.config.streamType == ty
    ensures LastRequest(reqs, k, ty).None? ==>
              forall i | 0 <= i < |reqs| :: reqs[i].egressId != k || reqs[i].config.streamType != ty
    decreases |reqs|
  {
    if reqs != [] {
      LastRequestIsOne(reqs[..|reqs| - 1], k, ty);
    }
  }

  lemma GroupIsStable(reqs: seq<Request>, k: nat, dup: DupMap, dup': DupMap)
    requires AllMade(reqs, dup) && Grows(dup, dup')
    ensures AllMade(reqs, dup') && GroupOf(reqs, k, dup') == GroupOf(reqs, k, dup)
  {
    LastRequestIsOne(reqs, k, VideoStream);
    LastRequestIsOne(reqs, k, AudioStream);
  }

  lemma GroupStep(reqs: seq<Request>, r: Request, k: nat, dup: DupMap)
    requires AllMade(reqs + [r], dup) && Typed(r)
    ensures var g := GroupOf(reqs, k, dup);
            GroupOf(reqs + [r], k, dup) ==
            if r.egressId != k then g
            else if r.config.streamType == VideoStream then g.(video := Some(dup[r.config]))
            else g.(audio := Some(dup[r.config]))
  {
    assert (reqs + [r])[..|reqs|] == reqs;
    assert (reqs + [r])[|reqs|] == r;
  }

  /** Some request of the batch is the one `v` was made for. */
  ghost predicate MadeFrom(v: VariantStream, c: EgressEncoderConfig, reqs: seq<Request>, copy: bool) {
    && (exists i | 0 <= i < |reqs| ::
          reqs[i].config == c && v.SrcIndex() == reqs[i].stream.index && ScaledFor(v, reqs[i].stream))
    && (c.streamType == VideoStream ==> if copy then v.CopyVideo? else v.Video?)
  }

  /** The egress map holds exactly the groups of the requests. */
  ghost predicate MapsGroups(egressMap: map<nat, VariantGroup>, reqs: seq<Request>, dup: DupMap) {
    && (forall k :: k in egressMap <==> Asks(reqs, k))
    && forall k | k in egressMap :: egressMap[k] == GroupOf(reqs, k, dup)
  }

  /** Serve one request: reuse the variant of an equal configuration or create one. */
  method ServeRequest(r: Request, id: nat, copy: bool, dup: DupMap, group: VariantGroup,
                      ghost variants: seq<VariantStream>, ghost made: seq<EgressEncoderConfig>)
    returns (created: seq<VariantStream>, dup': DupMap, group': VariantGroup, ghost newMade: seq<EgressEncoderConfig>)
    requires Typed(r) && DedupInv(variants, made, dup, id)
    ensures DedupInv(variants + created, made + newMade, dup', id + 1)
    ensures Grows(dup, dup') && r.config in dup'
    ensures if r.config in dup then created == [] && newMade == []
            else |created| == 1 && newMade == [r.config] && MadeFrom(created[0], r.config, [r], copy)
    ensures group' == if r.config.streamType == VideoStream then group.(video := Some(dup'[r.config]))
                      else group.(audio := Some(dup'[r.config]))
  {
    hide BuiltFor, MadeAt, ScaledFor;
    created, dup', newMade := [], dup, [];
    if r.config in dup {
      DedupLater(variants, made, dup, id, id + 1);
      assert variants + [] == variants && made + [] == made;
    } else {
      var v := CreateVariant(r, id, copy);
      DedupInsert(variants, made, dup, id, r.config, v);
      created, dup', newMade := [v], dup[r.config := id], [r.config];
      assert [r][0].config == r.config;
    }
    group' := if r.config.streamType == VideoStream then group.(video := Some(dup'[r.config]))
              else group.(audio := Some(dup'[r.config]));
  }

  method GetStreamsForEgress(egress: seq<EgressType>, g: GroupedIngressStream, copy: bool, dup: DupMap, nextId: nat,
                             ghost variants: seq<VariantStream>, ghost made: seq<EgressEncoderConfig>)
    returns (res: Option<(seq<VariantStream>, map<nat, VariantGroup>)>, dup': DupMap, nextId': nat,
             ghost newMade: seq<EgressEncoderConfig>)
    requires g.Valid() && DedupInv(variants, made, dup, nextId)
    ensures res.None? <==> Requests(egress, g, copy) == []
    ensures res.None? ==> dup' == dup && nextId' == nextId
    ensures res.Some? ==>
              var (created, egressMap), reqs := res.value, Requests(egress, g, copy);
              && DedupInv(variants + created, made + newMade, dup', nextId')
              && |created| == |newMade| && Grows(dup, dup') && AllMade(reqs, dup')
              && (forall i | 0 <= i < |created| :: MadeFrom(created[i], newMade[i], reqs, copy))
              && MapsGroups(egressMap, reqs, dup')
  {
    hide BuiltFor, MadeAt, Requests, DedupInv, MapsGroups, MadeFrom, AllMade, Grows;
    var reqs := Requests(egress, g, copy);
    RequestsAreTyped(egress, g, copy);
    newMade := [];
    if reqs == [] { return None, dup, nextId, newMade; }
    var created: seq<VariantStream>, egressMap: map<nat, VariantGroup>;
    created, egressMap, dup' := [], map[], dup;
    assert variants + created == variants && made + newMade == made;
    EmptyBatch(dup);
    for i := 0 to |reqs|
      invariant DedupInv(variants + created, made + newMade, dup', nextId + i)
      invariant |created| == |newMade| && Grows(dup, dup') && AllMade(reqs[..i], dup')
      invariant forall j | 0 <= j < |created| :: MadeFrom(created[j], newMade[j], reqs, copy)
      invariant MapsGroups(egressMap, reqs[..i], dup')
    {
      var r := reqs[i];
      var group := if r.egressId in egressMap then egressMap[r.egressId] else EMPTY_GROUP;
      ghost var before := dup';
      var more, group'; ghost var moreMade;
      more, dup', group', moreMade :=
        ServeRequest(r, nextId + i, copy, dup', group, variants + created, made + newMade);
      MapStep(egressMap, reqs[..i], r, before, dup', group, group');
      MadeStep(created, newMade, more, moreMade, reqs, i, copy);
      GrowsTransitive(dup, before, dup');
      egressMap := egressMap[r.egressId := group'];
      assert (variants + created) + more == variants + (created + more);
      assert (made + newMade) + moreMade == made + (newMade + moreMade);
      created, newMade := created + more, newMade + moreMade;
      assert reqs[..i + 1] == reqs[..i] + [r];
    }
    assert reqs[..|reqs|] == reqs;
    res, nextId' := Some((created, egressMap)), nextId + |reqs|;
  }

  lemma EmptyBatch(dup: DupMap)
    ensures MapsGroups(map[], [], dup) && AllMade([], dup) && Grows(dup, dup)
  {}

  lemma GrowsTransitive(a: DupMap, b: DupMap, c: DupMap)
    requires Grows(a, b) && Grows(b, c)
    ensures Grows(a, c)
  {}

  lemma MadeStep(created: seq<VariantStream>, newMade: seq<EgressEncoderConfig>, more: seq<VariantStream>,
                 moreMade: seq<EgressEncoderConfig>, reqs: seq<Request>, i: nat, copy: bool)
    requires |created| == |newMade| && i < |reqs| && |more| == |moreMade| <= 1
    requires forall j | 0 <= j < |created| :: MadeFrom(created[j], newMade[j], reqs, copy)
    requires |more| == 1 ==> moreMade == [reqs[i].config] && MadeFrom(more[0], reqs[i].config, [reqs[i]], copy)
    ensures forall j | 0 <= j < |created + more| :: MadeFrom((created + more)[j], (newMade + moreMade)[j], reqs, copy)
  {
    hide ScaledFor;
    if |more| == 1 {
      assert reqs[i].config == moreMade[0] && more[0].SrcIndex() == reqs[i].stream.index;
      assert MadeFrom(more[0], moreMade[0], reqs, copy);
    }
  }

  lemma MapStep(egressMap: map<nat, VariantGroup>, reqs: seq<Request>, r: Request, dup: DupMap, dup': DupMap,
                group: VariantGroup, group': VariantGroup)
    requires MapsGroups(egressMap, reqs, dup) && AllMade(reqs, dup) && Grows(dup, dup') && r.config in dup' && Typed(r)
    requires group == if r.egressId in egressMap then egressMap[r.egressId] else EMPTY_GROUP
    requires group' == if r.config.streamType == VideoStream then group.(video := Some(dup'[r.config]))
                       else group.(audio := Some(dup'[r.config]))
    ensures AllMade(reqs + [r], dup') && MapsGroups(egressMap[r.egressId := group'], reqs + [r], dup')
  {
    var longer := reqs + [r];
    assert AllMade(longer, dup');
    forall k ensures Asks(longer, k) <==> (Asks(reqs, k) || k == r.egressId) {
      assert longer[|reqs|] == r;
      assert forall i | 0 <= i < |reqs| :: longer[i] == reqs[i];
    }
    hide GroupOf;
    forall k ensures k == r.egressId || k in egressMap ==>
                       GroupOf(longer, k, dup') == if k == r.egressId then group' else egressMap[k] {
      GroupIsStable(reqs, k, dup, dup');
      GroupStep(reqs, r, k, dup');
      if k !in egressMap {
        NobodyAsks(reqs, k, dup');
      }
    }
  }

  lemma NobodyAsks(reqs: seq<Request>, k: nat, dup: DupMap)
    requires !Asks(reqs, k)
    ensures GroupOf(reqs, k, dup) == EMPTY_GROUP
  {
    LastRequestIsOne(reqs, k, VideoStream);
    LastRequestIsOne(reqs, k, AudioStream);
  }

  // ----- The meaning of a group -----------------------------------------------

  lemma {:induction false} NotAsked(egress: seq<EgressType>, g: GroupedIngressStream, copy: bool, k: nat,
                                    ty: StreamType)
    requires forall e | e in egress :: e.id != k
    ensures LastRequest(Requests(egress, g, copy), k, ty) == None
    decreases |egress|
  {
    if egress != [] {
      NotAsked(egress[..|egress| - 1], g, copy, k, ty);
      hide Want, RequestsOf;
      LastOfBatch(Requests(egress[..|egress| - 1], g, copy), egress[|egress| - 1], g, copy, k, ty);
    }
  }

  lemma {:induction false} LastOfConcat(a: seq<Request>, b: seq<Request>, k: nat, ty: StreamType)
    ensures LastRequest(a + b, k, ty)
         == if LastRequest(b, k, ty).Some? then LastRequest(b, k, ty) else LastRequest(a, k, ty)
    decreases |b|
  {
    if b == [] {
      assert a + b == a;
    } else {
      assert (a + b)[..|a + b| - 1] == a + b[..|b| - 1];
      LastOfConcat(a, b[..|b| - 1], k, ty);
    }
  }

  lemma LastOfBatch(reqs: seq<Request>, e: EgressType, g: GroupedIngressStream, copy: bool, k: nat, ty: StreamType)
    requires e.id != k
    ensures LastRequest(reqs + RequestsOf(e, g, copy), k, ty) == LastRequest(reqs, k, ty)
  {
    hide Want;
    LastOfConcat(reqs, RequestsOf(e, g, copy), k, ty);
    LastRequestIsOne(RequestsOf(e, g, copy), k, ty);
  }

  lemma OwnBatch(reqs: seq<Request>, e: EgressType, g: GroupedIngressStream, copy: bool, ty: StreamType)
    requires g.Valid() && (ty == VideoStream || ty == AudioStream) && LastRequest(reqs, e.id, ty) == None
    ensures LastRequest(reqs + RequestsOf(e, g, copy), e.id, ty) == WantOf(e, g, copy, ty)
  {
    hide Want;
    var v, a := StreamRequest(e, g.video, g.videoParams, copy), StreamRequest(e, g.audio, g.audioParams, copy);
    LastOfConcat(reqs, v + a, e.id, ty);
    LastOfConcat(v, a, e.id, ty);
    if g.video.Some? {
      WantIsTyped(e, g.video.value, g.videoParams, copy);
    }
    if g.audio.Some? {
      WantIsTyped(e, g.audio.value, g.audioParams, copy);
    }
  }

  lemma WantIsTyped(e: EgressType, s: IngressStream, params: seq<EncoderParam>, copy: bool)
    ensures Want(e, s, params, copy).Some? ==> Want(e, s, params, copy).value.streamType == s.streamType
  {
    hide DefaultVideoH264, DefaultAudioH264, Put, PutAll;
  }

  ghost predicate DistinctEgress(egress: seq<EgressType>) {
    forall i, j | 0 <= i < j < |egress| :: egress[i].id != egress[j].id
  }

  /** What an egress asks of the stream of a kind in a group, if there is one. */
  function WantOf(e: EgressType, g: GroupedIngressStream, copy: bool, ty: StreamType): Option<Request> {
    var reqs := if ty == VideoStream then StreamRequest(e, g.video, g.videoParams, copy)
                else StreamRequest(e, g.audio, g.audioParams, copy);
    if reqs == [] then None else Some(reqs[0])
  }

  /** With distinct egress ids the request that counts for an egress is its own. */
  lemma {:induction false} RequestOfGroup(egress: seq<EgressType>, g: GroupedIngressStream, copy: bool, n: nat,
                                          ty: StreamType)
    requires DistinctEgress(egress) && n < |egress| && g.Valid() && (ty == VideoStream || ty == AudioStream)
    ensures LastRequest(Requests(egress, g, copy), egress[n].id, ty) == WantOf(egress[n], g, copy, ty)
    decreases |egress|
  {
    var init, last := egress[..|egress| - 1], egress[|egress| - 1];
    hide WantOf, RequestsOf;
    if n == |egress| - 1 {
      NotAsked(init, g, copy, last.id, ty);
      OwnBatch(Requests(init, g, copy), last, g, copy, ty);
    } else {
      RequestOfGroup(init, g, copy, n, ty);
      LastOfBatch(Requests(init, g, copy), last, g, copy, egress[n].id, ty);
    }
  }
}
