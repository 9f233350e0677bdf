/** How copying and transcoding extend the ladder. */
module LadderSteps {
  import opened Wrappers
  import opened Params
  import opened Capabilities
  import opened Egress
  import opened Dedup
  import opened Endpoint
  import opened Ladder

  // ----- The sorted order of capabilities ---------------------------------------

  /** `all` is the sorted list of the capabilities and `n` of them are processed. */
  ghost predicate Processing(caps: seq<VariantType>, all: seq<VariantType>, n: nat) {
    Sorted(all) && multiset(all) == multiset(caps) && n <= |all|
  }

  lemma SameMembers(caps: seq<VariantType>, all: seq<VariantType>, c: VariantType)
    requires multiset(all) == multiset(caps)
    ensures c in all <==> c in caps
  {
    assert c in all <==> c in multiset(all);
    assert c in caps <==> c in multiset(caps);
  }

  /** What sorts strictly before the current capability was processed already. */
  lemma EarlierIsDone(caps: seq<VariantType>, all: seq<VariantType>, n: nat, c: VariantType)
    requires Processing(caps, all, n) && n < |all| && c in caps && Compare(c, all[n]) == Less
    ensures c in all[..n]
  {
    SameMembers(caps, all, c);
    var i :| 0 <= i < |all| && all[i] == c;
    CompareIsTotalOrder(c, all[n], c);
    assert i < n;
    assert all[..n][i] == c;
  }

  lemma CopiedWhenDone(info: seq<IngressStream>, caps: seq<VariantType>, all: seq<VariantType>, n: nat, h: nat)
    requires Processing(caps, all, n) && n < |all| && !all[n].SourceVariant?
    ensures Copied(info, all[..n], h) <==> Copied(info, caps, h)
  {
    SameMembers(caps, all, SourceVariant);
    if SourceVariant in caps {
      EarlierIsDone(caps, all, n, SourceVariant);
    }
  }

  lemma OnlySourcesBefore(caps: seq<VariantType>, all: seq<VariantType>, n: nat, c: VariantType)
    requires Processing(caps, all, n) && n < |all| && all[n] == SourceVariant && c in all[..n]
    ensures c == SourceVariant
  {
    var i :| 0 <= i < n && all[i] == c;
    assert Compare(all[i], all[n]) != Greater;
  }

  // ----- Copying ------------------------------------------------------------------

  ghost predicate NoTranscodes(variants: seq<VariantStream>) {
    forall i | 0 <= i < |variants| :: !variants[i].Video?
  }

  /** Every copy is of a source stream; the first `m` streams are copied if possible. */
  ghost predicate CopyingInv(info: seq<IngressStream>, egress: seq<EgressType>, videos: seq<IngressStream>, m: nat,
                             variants: seq<VariantStream>)
    requires m <= |videos|
  {
    && NoTranscodes(variants)
    && (forall i | 0 <= i < |variants| && variants[i].CopyVideo? ::
          Copied(info, [SourceVariant], variants[i].video.height))
    && (NonRecorder(egress) ==> forall i | 0 <= i < m && CopyOk(videos[i]) :: HasCopy(variants, videos[i].height % U16))
  }

  lemma HasCopyLater(variants: seq<VariantStream>, variants': seq<VariantStream>, h: nat)
    requires HasCopy(variants, h) && variants <= variants'
    ensures HasCopy(variants', h)
  {
    var i :| 0 <= i < |variants| && variants[i].CopyVideo? && variants[i].video.height == h;
    assert variants'[i] == variants[i];
  }

  lemma CopyGeometry(s: IngressStream, audio: Option<IngressStream>, v: VariantStream)
    requires s.streamType == VideoStream && (audio.Some? ==> audio.value.streamType == AudioStream)
    requires BuiltFor(v, VideoConfig(s, CopyGroup(s, audio).videoParams))
    requires VideoConfig(s, CopyGroup(s, audio).videoParams).streamType == VideoStream
    ensures IsVideo(v) && v.video.height == s.height % U16
  {
    hide BuiltFor, VideoConfig, IngressStreamToParams, Lookup;
    var ps := CopyGroup(s, audio).videoParams;
    BuiltGeometry(v, VideoConfig(s, ps));
    VideoConfigLookup(s, ps, KHeight);
    CopyHeight(s);
  }

  lemma CopyStep(info: seq<IngressStream>, egress: seq<EgressType>, videos: seq<IngressStream>, m: nat,
                 audio: Option<IngressStream>, b: Build, made: seq<EgressEncoderConfig>,
                 b': Build, made': seq<EgressEncoderConfig>)
    requires m < |videos| && CopyingInv(info, egress, videos, m, b.variants)
    requires videos[m] in info && videos[m].streamType == VideoStream
    requires audio.Some? ==> audio.value.streamType == AudioStream
    requires Extends(egress, Call(CopyGroup(videos[m], audio), true), b, made, b', made')
    requires DedupInv(b'.variants, made', b'.dup, b'.nextId)
    ensures CopyingInv(info, egress, videos, m + 1, b'.variants)
  {
    hide Requests, VideoConfig, BuiltFor, MadeFrom, IngressStreamToParams, AudioParams, DedupInv, HasCopy;
    var s, call := videos[m], Call(CopyGroup(videos[m], audio), true);
    forall i | |made| <= i < |made'|
      ensures !b'.variants[i].Video?
      ensures b'.variants[i].CopyVideo? ==> Copied(info, [SourceVariant], b'.variants[i].video.height)
    {
      if IsVideo(b'.variants[i]) {
        NewVariant(egress, call, b, made, b', made', i);
        CopyGeometry(s, audio, b'.variants[i]);
      }
    }
    assert forall i | 0 <= i < |b.variants| :: b'.variants[i] == b.variants[i];
    assert NoTranscodes(b'.variants);
    if NonRecorder(egress) {
      forall i | 0 <= i <= m && CopyOk(videos[i]) ensures HasCopy(b'.variants, videos[i].height % U16) {
        if i < m {
          HasCopyLater(b.variants, b'.variants, videos[i].height % U16);
        } else {
          CopyIsMade(egress, s, audio, b, made, b', made');
        }
      }
    }
  }

  lemma CopyIsMade(egress: seq<EgressType>, s: IngressStream, audio: Option<IngressStream>, b: Build,
                   made: seq<EgressEncoderConfig>, b': Build, made': seq<EgressEncoderConfig>)
    requires s.streamType == VideoStream && (audio.Some? ==> audio.value.streamType == AudioStream)
    requires CopyOk(s) && NonRecorder(egress) && NoTranscodes(b'.variants)
    requires Extends(egress, Call(CopyGroup(s, audio), true), b, made, b', made')
    requires DedupInv(b'.variants, made', b'.dup, b'.nextId)
    ensures HasCopy(b'.variants, s.height % U16)
  {
    hide Requests, VideoConfig, BuiltFor, MadeFrom, IngressStreamToParams, AudioParams, DedupInv;
    var i := ConfigIsMade(egress, Call(CopyGroup(s, audio), true), b, made, b', made');
    CopyGeometry(s, audio, b'.variants[i]);
  }

  lemma CopyingDone(info: seq<IngressStream>, caps: seq<VariantType>, egress: seq<EgressType>, all: seq<VariantType>,
                    n: nat, variants: seq<VariantStream>)
    requires Processing(caps, all, n) && n < |all| && all[n] == SourceVariant
    requires CopyingInv(info, egress, StreamsOf(info, VideoStream), |StreamsOf(info, VideoStream)|, variants)
    ensures CopiesInv(info, egress, all[..n] + [SourceVariant], variants)
    ensures RungsInv(info, caps, egress, all[..n] + [SourceVariant], variants)
  {
    hide HasCopy, HasRung, IsRung, Eligible;
    var videos, done := StreamsOf(info, VideoStream), all[..n] + [SourceVariant];
    StreamsAreTyped(info, VideoStream);
    assert SourceVariant in done;
    forall h | NonRecorder(egress) && Copied(info, done, h) ensures HasCopy(variants, h) {
      var s :| s in info && s.streamType == VideoStream && CopyOk(s) && s.height % U16 == h;
      assert s in videos;
      var i :| 0 <= i < |videos| && videos[i] == s;
    }
    forall c | c in done ensures c == SourceVariant {
      if c in all[..n] {
        OnlySourcesBefore(caps, all, n, c);
      }
    }
  }

  lemma CopyingStarts(info: seq<IngressStream>, caps: seq<VariantType>, egress: seq<EgressType>, all: seq<VariantType>,
                      n: nat, videos: seq<IngressStream>, variants: seq<VariantStream>)
    requires Processing(caps, all, n) && n < |all| && all[n] == SourceVariant
    requires CopiesInv(info, egress, all[..n], variants) && RungsInv(info, caps, egress, all[..n], variants)
    ensures CopyingInv(info, egress, videos, 0, variants)
  {
    hide HasCopy, HasRung, IsRung, Eligible;
    forall c | c in all[..n] ensures !c.Variant? {
      OnlySourcesBefore(caps, all, n, c);
    }
    if TranscodeVideoSrc(info).Some? {
      forall i | 0 <= i < |variants| ensures !variants[i].Video? {
        if variants[i].Video? {
          NoRungWithoutRequest(info, caps, TranscodeVideoSrc(info).value, all[..n], variants[i].video);
        }
      }
    }
  }

  lemma NoRungWithoutRequest(info: seq<IngressStream>, caps: seq<VariantType>, src: IngressStream,
                             done: seq<VariantType>, v: VideoVariant)
    requires forall c | c in done :: !c.Variant?
    ensures !IsRung(info, caps, src, done, v)
  {}

  // ----- Transcoding --------------------------------------------------------------

  lemma {:induction false} RequestsNeedAnEgress(egress: seq<EgressType>, g: GroupedIngressStream, copy: bool)
    requires Requests(egress, g, copy) != []
    ensures NonRecorder(egress)
    decreases |egress|
  {
    hide DefaultVideoH264, DefaultAudioH264, Put, PutAll;
    var init, e := egress[..|egress| - 1], egress[|egress| - 1];
    if Requests(init, g, copy) != [] {
      RequestsNeedAnEgress(init, g, copy);
      var x :| x in init && !x.Recorder?;
      assert x in egress;
    } else {
      assert RequestsOf(e, g, copy) != [];
      assert !e.Recorder?;
    }
  }

  lemma TranscodeGeometry(src: IngressStream, audio: Option<IngressStream>, h: nat, bitrate: nat, v: VariantStream)
    requires src.streamType == VideoStream && (audio.Some? ==> audio.value.streamType == AudioStream)
    requires BuiltFor(v, VideoConfig(src, TranscodeGroup(src, audio, h, bitrate).videoParams))
    requires VideoConfig(src, TranscodeGroup(src, audio, h, bitrate).videoParams).streamType == VideoStream
    ensures IsVideo(v) && v.video.height == RoundEven(h) && v.video.width == OutputWidth(src, h)
            && v.video.bitrate == bitrate
  {
    hide BuiltFor, VideoConfig, TranscodeGroup, Lookup, RoundEven, OutputWidth;
    var ps := TranscodeGroup(src, audio, h, bitrate).videoParams;
    BuiltGeometry(v, VideoConfig(src, ps));
    VideoConfigLookup(src, ps, KHeight);
    VideoConfigLookup(src, ps, KWidth);
    VideoConfigLookup(src, ps, KBitrate);
    RungGeometry(src, audio, h, bitrate);
  }

  /** The situation in which a request is transcoded. */
  ghost predicate Transcoding(info: seq<IngressStream>, caps: seq<VariantType>, egress: seq<EgressType>,
                              all: seq<VariantType>, n: nat, src: IngressStream, variants: seq<VariantStream>) {
    && Processing(caps, all, n) && n < |all| && all[n].Variant?
    && TranscodeVideoSrc(info) == Some(src) && all[n].height <= src.height
    && (forall i | 0 <= i < |variants| && IsVideo(variants[i]) :: variants[i].video.height != all[n].height)
    && CopiesInv(info, egress, all[..n], variants) && RungsInv(info, caps, egress, all[..n], variants)
  }

  lemma RequestIsEligible(info: seq<IngressStream>, caps: seq<VariantType>, egress: seq<EgressType>,
                          all: seq<VariantType>, n: nat, src: IngressStream, variants: seq<VariantStream>)
    requires Transcoding(info, caps, egress, all, n, src, variants) && NonRecorder(egress)
    ensures Eligible(info, caps, src, all[n].height)
  {
    hide RungsInv;
    CopiedWhenDone(info, caps, all, n, all[n].height);
  }

  /** The first even request of a height that is transcoded has the largest bitrate. */
  lemma RequestIsTop(info: seq<IngressStream>, caps: seq<VariantType>, egress: seq<EgressType>,
                     all: seq<VariantType>, n: nat, src: IngressStream, variants: seq<VariantStream>)
    requires Transcoding(info, caps, egress, all, n, src, variants) && NonRecorder(egress)
    requires all[n].height % 2 == 0
    ensures TopBitrate(caps, all[n].height, all[n].bitrate)
  {
    hide CopiesInv, IsRung;
    RequestIsEligible(info, caps, egress, all, n, src, variants);
    hide Eligible;
    forall c | c in caps && c.Variant? && c.height == all[n].height
      ensures c.bitrate <= all[n].bitrate
    {
      if c.bitrate > all[n].bitrate {
        EarlierIsDone(caps, all, n, c);
        RungOfDone(info, caps, egress, all[..n], src, variants, c);
      }
    }
  }

  lemma RungOfDone(info: seq<IngressStream>, caps: seq<VariantType>, egress: seq<EgressType>, done: seq<VariantType>,
                   src: IngressStream, variants: seq<VariantStream>, c: VariantType)
    requires RungsInv(info, caps, egress, done, variants) && TranscodeVideoSrc(info) == Some(src) && NonRecorder(egress)
    requires c in done && c.Variant? && Eligible(info, caps, src, c.height) && c.height % 2 == 0
    ensures HasRung(variants, c.height)
  {
    hide HasRung, IsRung, Eligible;
  }

  lemma RungStep(info: seq<IngressStream>, caps: seq<VariantType>, egress: seq<EgressType>, all: seq<VariantType>,
                 n: nat, src: IngressStream, audio: Option<IngressStream>, b: Build, made: seq<EgressEncoderConfig>,
                 b': Build, made': seq<EgressEncoderConfig>, i: nat)
    requires Transcoding(info, caps, egress, all, n, src, b.variants)
    requires src.streamType == VideoStream && (audio.Some? ==> audio.value.streamType == AudioStream)
    requires Extends(egress, Call(TranscodeGroup(src, audio, all[n].height, all[n].bitrate), false), b, made, b', made')
    requires DedupInv(b'.variants, made', b'.dup, b'.nextId)
    requires |made| <= i < |made'| && IsVideo(b'.variants[i])
    ensures b'.variants[i].Video? && IsRung(info, caps, src, all[..n] + [all[n]], b'.variants[i].video)
    ensures b'.variants[i].video.height == RoundEven(all[n].height)
    ensures Eligible(info, caps, src, all[n].height)
    ensures made'[i] == VideoConfig(src, TranscodeGroup(src, audio, all[n].height, all[n].bitrate).videoParams)
  {
    hide Requests, VideoConfig, BuiltFor, TranscodeGroup, DedupInv, RoundEven, OutputWidth, Eligible, TopBitrate,
      RungsInv, CopiesInv;
    var call := Call(TranscodeGroup(src, audio, all[n].height, all[n].bitrate), false);
    ValidTranscode(src, audio, all[n].height, all[n].bitrate);
    NewVariant(egress, call, b, made, b', made', i);
    TranscodeGeometry(src, audio, all[n].height, all[n].bitrate, b'.variants[i]);
    assert MadeFrom(b'.variants[i], made'[i], Requests(egress, call.group, call.copy), call.copy);
    RequestsNeedAnEgress(egress, call.group, call.copy);
    RequestIsEligible(info, caps, egress, all, n, src, b.variants);
    if all[n].height % 2 == 0 {
      RequestIsTop(info, caps, egress, all, n, src, b.variants);
    }
    assert Rung(info, caps, src, all[..n] + [all[n]], b'.variants[i].video, all[n]);
  }

  lemma ValidTranscode(src: IngressStream, audio: Option<IngressStream>, h: nat, bitrate: nat)
    requires src.streamType == VideoStream && (audio.Some? ==> audio.value.streamType == AudioStream)
    ensures TranscodeGroup(src, audio, h, bitrate).Valid()
    ensures TranscodeGroup(src, audio, h, bitrate).video == Some(src)
  {}

  lemma RungIsMade(info: seq<IngressStream>, caps: seq<VariantType>, egress: seq<EgressType>, all: seq<VariantType>,
                   n: nat, src: IngressStream, audio: Option<IngressStream>, b: Build, made: seq<EgressEncoderConfig>,
                   b': Build, made': seq<EgressEncoderConfig>)
    requires Transcoding(info, caps, egress, all, n, src, b.variants)
    requires src.streamType == VideoStream && (audio.Some? ==> audio.value.streamType == AudioStream)
    requires Extends(egress, Call(TranscodeGroup(src, audio, all[n].height, all[n].bitrate), false), b, made, b', made')
    requires DedupInv(b'.variants, made', b'.dup, b'.nextId)
    requires NonRecorder(egress) && all[n].height % 2 == 0
    ensures HasRung(b'.variants, all[n].height)
  {
    hide Requests, VideoConfig, BuiltFor, TranscodeGroup, DedupInv, OutputWidth, CopiesInv, RungsInv, IsRung, MadeFrom;
    var call := Call(TranscodeGroup(src, audio, all[n].height, all[n].bitrate), false);
    ValidTranscode(src, audio, all[n].height, all[n].bitrate);
    var i := ConfigIsMade(egress, call, b, made, b', made');
    TranscodeGeometry(src, audio, all[n].height, all[n].bitrate, b'.variants[i]);
    assert i >= |made| by {
      assert forall j | 0 <= j < |b.variants| :: b'.variants[j] == b.variants[j];
    }
    RungStep(info, caps, egress, all, n, src, audio, b, made, b', made', i);
  }

  lemma HasRungLater(variants: seq<VariantStream>, variants': seq<VariantStream>, h: nat)
    requires HasRung(variants, h) && variants <= variants'
    ensures HasRung(variants', h)
  {
    var i :| 0 <= i < |variants| && variants[i].Video? && variants[i].video.height == h;
    assert variants'[i] == variants[i];
  }

  lemma TranscodeStep(info: seq<IngressStream>, caps: seq<VariantType>, egress: seq<EgressType>, all: seq<VariantType>,
                      n: nat, src: IngressStream, audio: Option<IngressStream>, b: Build,
                      made: seq<EgressEncoderConfig>,
                      b': Build, made': seq<EgressEncoderConfig>)
    requires Transcoding(info, caps, egress, all, n, src, b.variants)
    requires src.streamType == VideoStream && (audio.Some? ==> audio.value.streamType == AudioStream)
    requires Extends(egress, Call(TranscodeGroup(src, audio, all[n].height, all[n].bitrate), false), b, made, b', made')
    requires DedupInv(b'.variants, made', b'.dup, b'.nextId)
    ensures RungsInv(info, caps, egress, all[..n] + [all[n]], b'.variants)
    ensures CopiesInv(info, egress, all[..n] + [all[n]], b'.variants)
  {
    hide Requests, VideoConfig, BuiltFor, TranscodeGroup, DedupInv, MadeFrom, Transcoding, AllMade, Grows;
    TranscodeCopies(info, caps, egress, all, n, src, audio, b, made, b', made');
    TranscodeRungs(info, caps, egress, all, n, src, audio, b, made, b', made');
    TranscodeDistinct(info, caps, egress, all, n, src, audio, b, made, b', made');
    assert TranscodeVideoSrc(info) == Some(src) by { TranscodingSource(info, caps, egress, all, n, src, b.variants); }
  }

  lemma TranscodingSource(info: seq<IngressStream>, caps: seq<VariantType>, egress: seq<EgressType>,
                          all: seq<VariantType>, n: nat, src: IngressStream, variants: seq<VariantStream>)
    requires Transcoding(info, caps, egress, all, n, src, variants)
    ensures TranscodeVideoSrc(info) == Some(src)
  {}

  lemma TranscodeCopies(info: seq<IngressStream>, caps: seq<VariantType>, egress: seq<EgressType>,
                        all: seq<VariantType>, n: nat, src: IngressStream, audio: Option<IngressStream>, b: Build,
                        made: seq<EgressEncoderConfig>,
                        b': Build, made': seq<EgressEncoderConfig>)
    requires Transcoding(info, caps, egress, all, n, src, b.variants)
    requires src.streamType == VideoStream && (audio.Some? ==> audio.value.streamType == AudioStream)
    requires Extends(egress, Call(TranscodeGroup(src, audio, all[n].height, all[n].bitrate), false), b, made, b', made')
    requires DedupInv(b'.variants, made', b'.dup, b'.nextId)
    ensures CopiesInv(info, egress, all[..n] + [all[n]], b'.variants)
  {
    hide Requests, VideoConfig, BuiltFor, TranscodeGroup, DedupInv, MadeFrom, RungsInv, HasCopy;
    var done := all[..n] + [all[n]];
    assert forall h :: Copied(info, done, h) <==> Copied(info, all[..n], h);
    assert forall j | 0 <= j < |b.variants| :: b'.variants[j] == b.variants[j];
    forall i | 0 <= i < |b'.variants| && b'.variants[i].CopyVideo?
      ensures Copied(info, done, b'.variants[i].video.height)
    {
      if i >= |made| {
        RungStep(info, caps, egress, all, n, src, audio, b, made, b', made', i);
      }
    }
    forall h | NonRecorder(egress) && Copied(info, done, h) ensures HasCopy(b'.variants, h) {
      HasCopyLater(b.variants, b'.variants, h);
    }
  }

  lemma TranscodeRungs(info: seq<IngressStream>, caps: seq<VariantType>, egress: seq<EgressType>,
                       all: seq<VariantType>, n: nat, src: IngressStream, audio: Option<IngressStream>, b: Build,
                       made: seq<EgressEncoderConfig>,
                       b': Build, made': seq<EgressEncoderConfig>)
    requires Transcoding(info, caps, egress, all, n, src, b.variants)
    requires src.streamType == VideoStream && (audio.Some? ==> audio.value.streamType == AudioStream)
    requires Extends(egress, Call(TranscodeGroup(src, audio, all[n].height, all[n].bitrate), false), b, made, b', made')
    requires DedupInv(b'.variants, made', b'.dup, b'.nextId)
    ensures var done := all[..n] + [all[n]];
            && (forall i | 0 <= i < |b'.variants| && b'.variants[i].Video? ::
                  IsRung(info, caps, src, done, b'.variants[i].video))
            && (NonRecorder(egress) ==>
                  forall c | c in done && c.Variant? && Eligible(info, caps, src, c.height) && c.height % 2 == 0 ::
                    HasRung(b'.variants, c.height))
  {
    hide Requests, VideoConfig, BuiltFor, TranscodeGroup, DedupInv, MadeFrom, CopiesInv, HasRung, IsRung, Eligible,
      DistinctRungs;
    var done := all[..n] + [all[n]];
    assert forall j | 0 <= j < |b.variants| :: b'.variants[j] == b.variants[j];
    forall i | 0 <= i < |b'.variants| && b'.variants[i].Video?
      ensures IsRung(info, caps, src, done, b'.variants[i].video)
    {
      if i >= |made| {
        RungStep(info, caps, egress, all, n, src, audio, b, made, b', made', i);
      } else {
        MonotoneRungs(info, caps, src, all[..n], done, b.variants[i].video);
      }
    }
    forall c | NonRecorder(egress) && c in done && c.Variant? && Eligible(info, caps, src, c.height)
               && c.height % 2 == 0
      ensures HasRung(b'.variants, c.height)
    {
      if c in all[..n] {
        HasRungLater(b.variants, b'.variants, c.height);
      } else {
        RungIsMade(info, caps, egress, all, n, src, audio, b, made, b', made');
      }
    }
  }

  lemma MadeDistinct(variants: seq<VariantStream>, made: seq<EgressEncoderConfig>, dup: DupMap, nextId: nat, i: nat,
                     j: nat)
    requires DedupInv(variants, made, dup, nextId) && i < j < |made|
    ensures made[i] != made[j]
  {}

  lemma TranscodeDistinct(info: seq<IngressStream>, caps: seq<VariantType>, egress: seq<EgressType>,
                          all: seq<VariantType>, n: nat, src: IngressStream, audio: Option<IngressStream>, b: Build,
                          made: seq<EgressEncoderConfig>,
                          b': Build, made': seq<EgressEncoderConfig>)
    requires Transcoding(info, caps, egress, all, n, src, b.variants)
    requires src.streamType == VideoStream && (audio.Some? ==> audio.value.streamType == AudioStream)
    requires Extends(egress, Call(TranscodeGroup(src, audio, all[n].height, all[n].bitrate), false), b, made, b', made')
    requires DedupInv(b'.variants, made', b'.dup, b'.nextId)
    ensures AllEven(info, caps, src) ==> DistinctRungs(b'.variants)
  {
    hide Requests, VideoConfig, BuiltFor, TranscodeGroup, DedupInv, MadeFrom, CopiesInv, HasRung, IsRung, Eligible;
    assert forall j | 0 <= j < |b.variants| :: b'.variants[j] == b.variants[j];
    SameMembers(caps, all, all[n]);
    if AllEven(info, caps, src) {
      forall i, j | 0 <= i < j < |b'.variants| && b'.variants[i].Video? && b'.variants[j].Video?
        ensures b'.variants[i].video.height != b'.variants[j].video.height
      {
        if j >= |made| {
          RungStep(info, caps, egress, all, n, src, audio, b, made, b', made', j);
          if i >= |made| {
            RungStep(info, caps, egress, all, n, src, audio, b, made, b', made', i);
            MadeDistinct(b'.variants, made', b'.dup, b'.nextId, i, j);
          }
        }
      }
    }
  }
}
