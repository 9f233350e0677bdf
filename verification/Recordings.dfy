/** Recordings: groups that name a variant which is there already
    (crates/core/src/endpoint.rs, the `DVR` branch of `get_variants_from_endpoint`). */
module Recordings {
  import opened Wrappers
  import opened Params
  import opened Capabilities
  import opened Egress
  import opened Dedup
  import opened Endpoint

  predicate IsVideoOf(v: VariantStream, h: nat) { IsVideo(v) && v.video.height == h }

  /** The first video variant of a height. */
  function FirstVideo(variants: seq<VariantStream>, h: nat): (r: Option<VariantStream>)
    ensures r.Some? ==> r.value in variants && IsVideoOf(r.value, h)
    ensures r.None? ==> forall v | v in variants :: !IsVideoOf(v, h)
  {
    if variants == [] then None
    else if IsVideoOf(variants[0], h) then Some(variants[0])
    else FirstVideo(variants[1..], h)
  }

  /** The first variant made from a source stream. */
  function FirstFrom(variants: seq<VariantStream>, index: nat): (r: Option<VariantStream>)
    ensures r.Some? ==> r.value in variants && r.value.SrcIndex() == index
    ensures r.None? ==> forall v | v in variants :: v.SrcIndex() != index
  {
    if variants == [] then None
    else if variants[0].SrcIndex() == index then Some(variants[0])
    else FirstFrom(variants[1..], index)
  }

  method FindVideo(variants: seq<VariantStream>, h: nat) returns (r: Option<VariantStream>)
    ensures r == FirstVideo(variants, h)
  {
    for i := 0 to |variants|
      invariant FirstVideo(variants, h) == FirstVideo(variants[i..], h)
    {
      if IsVideoOf(variants[i], h) {
        return Some(variants[i]);
      }
      assert variants[i..][1..] == variants[i + 1..];
    }
    r := None;
  }

  method FindFrom(variants: seq<VariantStream>, index: nat) returns (r: Option<VariantStream>)
    ensures r == FirstFrom(variants, index)
  {
    for i := 0 to |variants|
      invariant FirstFrom(variants, index) == FirstFrom(variants[i..], index)
    {
      if variants[i].SrcIndex() == index {
        return Some(variants[i]);
      }
      assert variants[i..][1..] == variants[i + 1..];
    }
    r := None;
  }

  /** The id of the first variant made from the audio source, if there is one. */
  function AudioId(variants: seq<VariantStream>, audio: Option<IngressStream>): (r: Option<nat>)
    ensures r.Some? <==> audio.Some? && exists v :: v in variants && v.SrcIndex() == audio.value.index
  {
    if audio.None? then None
    else
      var first := FirstFrom(variants, audio.value.index);
      if first.Some? then Some(first.value.Id()) else None
  }

  lemma {:induction false} FirstVideoIsFirst(variants: seq<VariantStream>, h: nat) returns (i: nat)
    requires FirstVideo(variants, h).Some?
    ensures i < |variants| && variants[i] == FirstVideo(variants, h).value
    ensures IsVideoOf(variants[i], h) && forall j | 0 <= j < i :: !IsVideoOf(variants[j], h)
  {
    if IsVideoOf(variants[0], h) {
      i := 0;
    } else {
      var k := FirstVideoIsFirst(variants[1..], h);
      i := k + 1;
      forall j | 0 <= j < i ensures !IsVideoOf(variants[j], h) {
        assert j > 0 ==> variants[j] == variants[1..][j - 1];
      }
    }
  }

  lemma {:induction false} FirstFromIsFirst(variants: seq<VariantStream>, index: nat) returns (i: nat)
    requires FirstFrom(variants, index).Some?
    ensures i < |variants| && variants[i] == FirstFrom(variants, index).value
    ensures variants[i].SrcIndex() == index && forall j | 0 <= j < i :: variants[j].SrcIndex() != index
  {
    if variants[0].SrcIndex() == index {
      i := 0;
    } else {
      var k := FirstFromIsFirst(variants[1..], index);
      i := k + 1;
      forall j | 0 <= j < i ensures variants[j].SrcIndex() != index {
        assert j > 0 ==> variants[j] == variants[1..][j - 1];
      }
    }
  }

  /** What a recording records: the first video of the height and, if anything was made from the
      audio source, the first of that. */
  lemma RecordingNames(egress: seq<EgressType>, variants: seq<VariantStream>, audio: Option<IngressStream>, h: nat,
                       k: nat)
      returns (i: nat, j: nat)
    requires RecordingGroup(egress, variants, audio, h, k) != []
    ensures i < |variants| && IsVideoOf(variants[i], h) && forall m | 0 <= m < i :: !IsVideoOf(variants[m], h)
    ensures var made := audio.Some? && exists v :: v in variants && v.SrcIndex() == audio.value.index;
            && (made ==> j < |variants| && variants[j].SrcIndex() == audio.value.index
                         && forall m | 0 <= m < j :: variants[m].SrcIndex() != audio.value.index)
            && RecordingGroup(egress, variants, audio, h, k)
               == [VariantGroup(Some(variants[i].Id()), if made then Some(variants[j].Id()) else None, None)]
  {
    hide FirstVideo, FirstFrom, FirstRecorder;
    i := FirstVideoIsFirst(variants, h);
    j := 0;
    if audio.Some? && FirstFrom(variants, audio.value.index).Some? {
      j := FirstFromIsFirst(variants, audio.value.index);
    }
  }

  /** The group that a recording of height `h` adds for egress `k`, if it adds one: the first recorder
      must want that height, and some video must have it. */
  function RecordingGroup(egress: seq<EgressType>, variants: seq<VariantStream>, audio: Option<IngressStream>, h: nat,
                          k: nat): seq<VariantGroup>
  {
    if FirstRecorder(egress).Some? && FirstRecorder(egress).value.id == k && FirstRecorder(egress).value.height == h
       && FirstVideo(variants, h).Some?
    then [VariantGroup(Some(FirstVideo(variants, h).value.Id()), AudioId(variants, audio), None)] else []
  }

  /** One group for each recording among the processed capabilities. */
  function RecordingGroups(egress: seq<EgressType>, variants: seq<VariantStream>, audio: Option<IngressStream>,
                           done: seq<VariantType>, k: nat): seq<VariantGroup>
  {
    if done == [] then []
    else
      var last := done[|done| - 1];
      RecordingGroups(egress, variants, audio, done[..|done| - 1], k)
      + if last.DVR? then RecordingGroup(egress, variants, audio, last.height, k) else []
  }

  lemma RecordingGroupsAppend(egress: seq<EgressType>, variants: seq<VariantStream>, audio: Option<IngressStream>,
                              done: seq<VariantType>, c: VariantType, k: nat)
    ensures RecordingGroups(egress, variants, audio, done + [c], k)
         == RecordingGroups(egress, variants, audio, done, k)
            + if c.DVR? then RecordingGroup(egress, variants, audio, c.height, k) else []
  {
    assert (done + [c])[..|done|] == done;
  }

  ghost predicate NoRecordings(done: seq<VariantType>) { forall c | c in done :: !c.DVR? }

  lemma {:induction false} NothingRecorded(egress: seq<EgressType>, variants: seq<VariantStream>,
                                           audio: Option<IngressStream>, done: seq<VariantType>, k: nat)
    requires NoRecordings(done)
    ensures RecordingGroups(egress, variants, audio, done, k) == []
    decreases |done|
  {
    if done != [] {
      NothingRecorded(egress, variants, audio, done[..|done| - 1], k);
    }
  }

  /** Only the recordings of the height the recorder wants count, and they add equal groups: the
      order of the capabilities does not matter. */
  lemma {:induction false} EqualRecordings(egress: seq<EgressType>, variants: seq<VariantStream>,
                                           audio: Option<IngressStream>, done: seq<VariantType>, k: nat)
    ensures var gs := RecordingGroups(egress, variants, audio, done, k);
            if FirstRecorder(egress).Some?
               && RecordingGroup(egress, variants, audio, FirstRecorder(egress).value.height, k) != []
            then
              var h := FirstRecorder(egress).value.height;
              |gs| == multiset(done)[DVR(h)]
              && forall i | 0 <= i < |gs| :: [gs[i]] == RecordingGroup(egress, variants, audio, h, k)
            else gs == []
    decreases |done|
  {
    hide FirstRecorder, FirstVideo, AudioId;
    if done != [] {
      var init, last := done[..|done| - 1], done[|done| - 1];
      assert done == init + [last];
      EqualRecordings(egress, variants, audio, init, k);
    }
  }

  lemma SameRecordings(egress: seq<EgressType>, variants: seq<VariantStream>, audio: Option<IngressStream>,
                       done: seq<VariantType>, done': seq<VariantType>, k: nat)
    requires multiset(done) == multiset(done')
    ensures RecordingGroups(egress, variants, audio, done, k) == RecordingGroups(egress, variants, audio, done', k)
  {
    hide RecordingGroups, RecordingGroup, FirstRecorder;
    EqualRecordings(egress, variants, audio, done, k);
    EqualRecordings(egress, variants, audio, done', k);
    var gs := RecordingGroups(egress, variants, audio, done, k);
    var gs' := RecordingGroups(egress, variants, audio, done', k);
    assert |gs| == |gs'|;
    forall i | 0 <= i < |gs| ensures gs[i] == gs'[i] {
      assert [gs[i]] == [gs'[i]];
    }
  }
}
