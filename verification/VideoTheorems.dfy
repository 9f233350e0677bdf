/** End-to-end properties of the video path: what is handed out to the variants of every source
    stream, however the frames of different streams are interleaved. What of it a variant receives
    when sends fail is the subject of `Connection`. */
module VideoTheorems {
  import opened Wrappers
  import opened Arith
  import opened Reorder
  import opened ReorderTheorems
  import opened ReorderLimit
  import opened Timestamps
  import opened VideoPath
  import opened Rescale
  import opened Keyframes

  /** A decoded video frame of some source stream. */
  datatype Arrival = Arrival(stream: nat, frame: Frame)

  function FramesOf(arrivals: seq<Arrival>, i: nat): seq<Frame> {
    if arrivals == [] then []
    else
      var last := arrivals[|arrivals| - 1];
      FramesOf(arrivals[..|arrivals| - 1], i) + if last.stream == i then [last.frame] else []
  }

  const EMPTY_RUN := Run([multiset{}], [None], [])

  ghost function Extend(run: Run, out: seq<Frame>, heap: multiset<Frame>, next: Option<int>): Run {
    Run(run.heaps + [heap], run.nexts + [next], run.outs + [out])
  }

  /** The history of one stream: its buffer made the run `run`, its repair saw what the run
      emitted, and `out` was handed to the send loops. */
  ghost predicate History(frames: seq<Frame>, tb: Rational, run: Run, heap: multiset<Frame>, next: Option<int>,
                          st: Repair, out: seq<Frame>) {
    && IsRun(frames, run)
    && heap == run.heaps[|frames|] && next == run.nexts[|frames|]
    && st == After(FRESH, Pts(Flat(run.outs)), tb)
    && out == Retime(Flat(run.outs), MangleAll(FRESH, Pts(Flat(run.outs)), tb))
  }

  lemma PtsConcat(a: seq<Frame>, b: seq<Frame>)
    ensures Pts(a + b) == Pts(a) + Pts(b)
  {}

  lemma RetimeConcat(a: seq<Frame>, b: seq<Frame>, s: seq<int>, t: seq<int>)
    requires |a| == |s| && |b| == |t|
    ensures Retime(a + b, s + t) == Retime(a, s) + Retime(b, t)
  {}

  lemma RepairConcat(a: seq<Frame>, b: seq<Frame>, tb: Rational)
    ensures var st := After(FRESH, Pts(a), tb);
            && After(FRESH, Pts(a + b), tb) == After(st, Pts(b), tb)
            && Retime(a + b, MangleAll(FRESH, Pts(a + b), tb))
               == Retime(a, MangleAll(FRESH, Pts(a), tb)) + Retime(b, MangleAll(st, Pts(b), tb))
  {
    hide Retime, Pts, After, MangleAll;
    PtsConcat(a, b);
    AfterConcat(FRESH, Pts(a), Pts(b), tb);
    RetimeConcat(a, b, MangleAll(FRESH, Pts(a), tb), MangleAll(After(FRESH, Pts(a), tb), Pts(b), tb));
  }

  lemma ExtendRun(frames: seq<Frame>, run: Run, f: Frame, out: seq<Frame>, heap: multiset<Frame>, next: Option<int>)
    requires IsRun(frames, run)
    requires PushStep(run.heaps[|frames|], run.nexts[|frames|], f, out, heap, next)
    ensures IsRun(frames + [f], Extend(run, out, heap, next))
    ensures Flat(run.outs + [out]) == Flat(run.outs) + out
  {
    hide PushStep;
    var longer := Extend(run, out, heap, next);
    forall i: nat | i < |frames| + 1 ensures StepAt(frames + [f], longer, i) {
      assert i < |frames| ==> StepAt(frames, run, i);
    }
    assert (run.outs + [out])[..|run.outs|] == run.outs;
  }

  lemma HistoryStep(frames: seq<Frame>, tb: Rational, run: Run, heap: multiset<Frame>, next: Option<int>,
                    st: Repair, out: seq<Frame>,
                    f: Frame, raw: seq<Frame>, heap': multiset<Frame>, next': Option<int>)
    requires History(frames, tb, run, heap, next, st, out)
    requires PushStep(heap, next, f, raw, heap', next')
    ensures History(frames + [f], tb, Extend(run, raw, heap', next'), heap', next',
                    After(st, Pts(raw), tb), out + Retime(raw, MangleAll(st, Pts(raw), tb)))
  {
    hide PushStep, StepAt, Retime, Pts, After, MangleAll, Flat;
    ExtendRun(frames, run, f, raw, heap', next');
    RepairConcat(Flat(run.outs), raw, tb);
  }

  lemma HistoryInit(tb: Rational)
    ensures History([], tb, EMPTY_RUN, multiset{}, None, FRESH, [])
  {
    assert Pts([]) == [];
  }

  ghost function RunOf(runs: map<nat, Run>, i: nat): Run {
    if i in runs then runs[i] else EMPTY_RUN
  }

  function OutOf(out: map<nat, seq<Frame>>, i: nat): seq<Frame> {
    if i in out then out[i] else []
  }

  /** What is handed out for a stream until its end: the frames `raw` its
      reorder buffer lets go, in that order, with repaired timestamps. */
  ghost predicate Delivered(frames: seq<Frame>, tb: Rational, run: Run, tail: seq<Frame>, out: seq<Frame>) {
    && IsRun(frames, run) && DrainsTo(run.heaps[|frames|], tail)
    && var raw := Flat(run.outs) + tail;
       out == Retime(raw, MangleAll(FRESH, Pts(raw), tb))
  }

  /** The state of the runner is explained by a history of every stream. */
  ghost predicate Explained(runner: PipelineRunner, arrivals: seq<Arrival>, timeBase: nat -> Rational,
                            runs: map<nat, Run>, out: map<nat, seq<Frame>>)
    reads runner, runner.frameReorderBuffers.Values
  {
    forall i: nat :: StreamExplained(runner, arrivals, timeBase, runs, out, i)
  }

  ghost predicate StreamExplained(runner: PipelineRunner, arrivals: seq<Arrival>, timeBase: nat -> Rational,
                                  runs: map<nat, Run>, out: map<nat, seq<Frame>>, i: nat)
    reads runner, runner.frameReorderBuffers.Values
  {
    History(FramesOf(arrivals, i), timeBase(i), RunOf(runs, i), runner.HeapOf(i), runner.NextOf(i),
            runner.RepairOf(i), OutOf(out, i))
  }

  /** One arrival processed by the runner. */
  method ProcessArrival(runner: PipelineRunner, ghost before: seq<Arrival>, a: Arrival, timeBase: nat -> Rational,
                        ghost runs: map<nat, Run>, out: map<nat, seq<Frame>>)
    returns (ghost runs': map<nat, Run>, out': map<nat, seq<Frame>>, batch: seq<Frame>)
    requires runner.Valid() && Explained(runner, before, timeBase, runs, out)
    modifies runner, runner.frameReorderBuffers.Values
    ensures runner.Valid() && Explained(runner, before + [a], timeBase, runs', out')
    ensures out' == out[a.stream := OutOf(out, a.stream) + batch]
    ensures fresh(runner.frameReorderBuffers.Values - old(runner.frameReorderBuffers.Values))
  {
    hide History, PushStep, Mangle, After, MangleAll, Retime, Pts, Extend;
    ghost var s := a.stream;
    ghost var heap, next, st := runner.HeapOf(s), runner.NextOf(s), runner.RepairOf(s);
    assert StreamExplained(runner, before, timeBase, runs, out, s);
    var encode, raw := runner.ProcessFrame(a.stream, a.frame, true, timeBase(a.stream));
    runs' := runs[s := Extend(RunOf(runs, s), raw, runner.HeapOf(s), runner.NextOf(s))];
    out', batch := out[a.stream := OutOf(out, a.stream) + encode], encode;
    HistoryStep(FramesOf(before, s), timeBase(s), RunOf(runs, s), heap, next, st, OutOf(out, s),
                a.frame, raw, runner.HeapOf(s), runner.NextOf(s));
    assert (before + [a])[..|before|] == before;
    forall i: nat
      ensures StreamExplained(runner, before + [a], timeBase, runs', out', i)
    {
      if i != s {
        assert old(StreamExplained(runner, before, timeBase, runs, out, i));
        assert FramesOf(before + [a], i) == FramesOf(before, i) + [] == FramesOf(before, i);
      }
    }
  }

  /** A whole connection: all video frames, then the flush at the end of the stream. */
  method RunVideo(arrivals: seq<Arrival>, timeBase: nat -> Rational)
    returns (out: map<nat, seq<Frame>>, ghost runs: map<nat, Run>, ghost tails: map<nat, seq<Frame>>)
    ensures forall i: nat ::
              Delivered(FramesOf(arrivals, i), timeBase(i), RunOf(runs, i), OutOf(tails, i), OutOf(out, i))
  {
    hide History, PushStep, Mangle, After, MangleAll, Retime, Pts, Delivered, Drained;
    var runner := new PipelineRunner();
    out, runs := map[], map[];
    assert Explained(runner, [], timeBase, runs, out) by {
      forall i: nat ensures StreamExplained(runner, [], timeBase, runs, out, i) {
        HistoryInit(timeBase(i));
      }
    }
    var n := 0;
    while n < |arrivals|
      invariant n <= |arrivals| && runner.Valid() && fresh(runner) && fresh(runner.frameReorderBuffers.Values)
      invariant Explained(runner, arrivals[..n], timeBase, runs, out)
    {
      assert arrivals[..n + 1] == arrivals[..n] + [arrivals[n]];
      var batch;
      runs, out, batch := ProcessArrival(runner, arrivals[..n], arrivals[n], timeBase, runs, out);
      n := n + 1;
    }
    assert arrivals[..n] == arrivals;
    var rest;
    ghost var sent := out;
    rest, tails := FlushVideo(runner, arrivals, timeBase, runs, out);
    out := map i | i in out.Keys + rest.Keys :: OutOf(out, i) + OutOf(rest, i);
    assert forall i: nat :: OutOf(out, i) == OutOf(sent, i) + OutOf(rest, i);
  }

  /** The end of the stream: what is still buffered completes the history of every stream. */
  method FlushVideo(runner: PipelineRunner, ghost arrivals: seq<Arrival>, timeBase: nat -> Rational,
                    ghost runs: map<nat, Run>, ghost sent: map<nat, seq<Frame>>)
    returns (rest: map<nat, seq<Frame>>, ghost tails: map<nat, seq<Frame>>)
    requires runner.Valid() && Explained(runner, arrivals, timeBase, runs, sent)
    modifies runner, runner.frameReorderBuffers.Values
    ensures forall i: nat ::
              Delivered(FramesOf(arrivals, i), timeBase(i),
                        RunOf(runs, i), OutOf(tails, i), OutOf(sent, i) + OutOf(rest, i))
  {
    hide History, PushStep, Mangle, After, MangleAll, Retime, Pts, Delivered, Drained;
    rest, tails := runner.FlushBuffers(timeBase);
    forall i: nat
      ensures Delivered(FramesOf(arrivals, i), timeBase(i),
                        RunOf(runs, i), OutOf(tails, i), OutOf(sent, i) + OutOf(rest, i))
    {
      assert old(StreamExplained(runner, arrivals, timeBase, runs, sent, i));
      ghost var heap, st := old(runner.HeapOf(i)), old(runner.RepairOf(i));
      if i !in tails {
        NothingDrained(st, timeBase(i));
      }
      FlushDelivers(FramesOf(arrivals, i), timeBase(i), RunOf(runs, i), heap, old(runner.NextOf(i)), st,
                    OutOf(sent, i), OutOf(tails, i), OutOf(rest, i));
    }
  }

  lemma NothingDrained(st: Repair, tb: Rational)
    ensures Drained(multiset{}, st, tb, [], [])
  {}

  lemma FlushDelivers(frames: seq<Frame>, tb: Rational, run: Run, heap: multiset<Frame>, next: Option<int>,
                      st: Repair, sent: seq<Frame>, tail: seq<Frame>, rest: seq<Frame>)
    requires History(frames, tb, run, heap, next, st, sent) && Drained(heap, st, tb, tail, rest)
    ensures Delivered(frames, tb, run, tail, sent + rest)
  {
    hide PushStep, StepAt, Retime, Pts, After, MangleAll, DrainsTo;
    RepairConcat(Flat(run.outs), tail, tb);
  }

  // ----- What the encoders of a stream can rely on ----------------------------

  /** Every frame has a timestamp. */
  ghost predicate Timed(frames: seq<Frame>) { AllPts(Pts(frames)) }

  lemma DeliveredContent(frames: seq<Frame>, tb: Rational, run: Run, tail: seq<Frame>, out: seq<Frame>)
    requires Delivered(frames, tb, run, tail, out)
    ensures multiset(Flat(run.outs) + tail) == multiset(frames)
    ensures |Flat(run.outs) + tail| == |frames| == |out|
  {
    hide PushStep, StepAt, Flat, MangleAll;
    RunConserves(frames, run, |frames|);
    assert frames[..|frames|] == frames && run.outs[..|frames|] == run.outs;
    assert |multiset(Flat(run.outs) + tail)| == |multiset(frames)|;
  }

  lemma TimedContent(frames: seq<Frame>, raw: seq<Frame>)
    requires Timed(frames) && multiset(raw) == multiset(frames)
    ensures Timed(raw)
  {
    forall i | 0 <= i < |raw| ensures IsPts(Pts(raw)[i]) {
      assert raw[i] in multiset(raw);
      var j :| 0 <= j < |frames| && frames[j] == raw[i];
      assert Pts(frames)[j] == raw[i].pts;
    }
  }

  /** All timestamps are 64-bit; some may be absent. */
  ghost predicate Stamped(frames: seq<Frame>) { AllI64(Pts(frames)) }

  lemma StampedContent(frames: seq<Frame>, raw: seq<Frame>)
    requires Stamped(frames) && multiset(raw) == multiset(frames)
    ensures Stamped(raw)
  {
    forall i | 0 <= i < |raw| ensures IsI64(Pts(raw)[i]) {
      assert raw[i] in multiset(raw);
      var j :| 0 <= j < |frames| && frames[j] == raw[i];
      assert Pts(frames)[j] == raw[i].pts;
    }
  }

  /** For any frames: those handed out keep their timestamp, and these strictly increase, if and only
      if every step of the repair between present timestamps can represent a later tick. */
  lemma EncodersSeeIncreasingTimeIff(frames: seq<Frame>, tb: Rational, run: Run, tail: seq<Frame>, out: seq<Frame>)
    requires Delivered(frames, tb, run, tail, out) && Stamped(frames)
    ensures KeepsTimestamps(Pts(Flat(run.outs) + tail), Pts(out)) && StrictlyIncreasing(Present(Pts(out)))
       <==> RunAdvances(Present(Pts(Flat(run.outs) + tail)), tb)
  {
    hide PushStep, StepAt, Flat, IsRun, DrainsTo, MangleAll, RunAdvances, KeepsTimestamps, Present, StrictlyIncreasing;
    var raw := Flat(run.outs) + tail;
    DeliveredContent(frames, tb, run, tail, out);
    StampedContent(frames, raw);
    TimelineIncreasesIff(Pts(raw), tb);
    assert Pts(out) == MangleAll(FRESH, Pts(raw), tb);
  }

  /** As long as no step of the repair saturates or wraps, the timestamps handed out strictly
      increase, and their steps are those of the reordered input where they are sane and one tick
      elsewhere. Frames without a timestamp have none of it. */
  lemma EncodersSeeIncreasingTime(frames: seq<Frame>, tb: Rational, run: Run, tail: seq<Frame>, out: seq<Frame>)
    requires Delivered(frames, tb, run, tail, out) && Stamped(frames) && tb.Positive()
    requires RunFits(Present(Pts(Flat(run.outs) + tail)), tb)
    ensures |out| == |frames| && KeepsTimestamps(Pts(Flat(run.outs) + tail), Pts(out))
    ensures Follows(Present(Pts(Flat(run.outs) + tail)), Present(Pts(out)), tb)
    ensures StrictlyIncreasing(Present(Pts(out)))
  {
    hide PushStep, StepAt, Flat, IsRun, DrainsTo, MangleAll, Advance, RunFits, RunAdvances, KeepsTimestamps, Present,
      Follows, StrictlyIncreasing, After;
    var raw := Flat(run.outs) + tail;
    DeliveredContent(frames, tb, run, tail, out);
    StampedContent(frames, raw);
    PresentArePts(Pts(raw));
    FitsLaw(Present(Pts(raw)), tb);
    TimelineIncreases(Present(Pts(raw)), tb);
    AbsentPassThrough(Pts(raw), tb);
    assert Pts(out) == MangleAll(FRESH, Pts(raw), tb);
  }

  /** Timestamps within 2^60 fit, as long as their number times 60 s is within 2^60 ticks. */
  lemma SafeFramesFit(frames: seq<Frame>, tb: Rational, run: Run, tail: seq<Frame>, out: seq<Frame>, limit: int)
    requires Delivered(frames, tb, run, tail, out) && StepLimit(limit, tb) && |frames| * limit <= SAFE
    requires forall i | 0 <= i < |frames| :: frames[i].pts == AV_NOPTS_VALUE || IsSafe(frames[i].pts)
    ensures RunFits(Present(Pts(Flat(run.outs) + tail)), tb)
  {
    hide PushStep, StepAt, Flat, IsRun, DrainsTo, MangleAll, RunFits, Delivered, Present;
    var raw := Flat(run.outs) + tail;
    DeliveredContent(frames, tb, run, tail, out);
    forall i | 0 <= i < |raw| ensures raw[i].pts == AV_NOPTS_VALUE || IsSafe(raw[i].pts) {
      assert raw[i] in multiset(raw);
      assert raw[i] in multiset(frames);
    }
    PresentIsPart(Pts(raw));
    forall i | 0 <= i < |Present(Pts(raw))| ensures IsSafe(Present(Pts(raw))[i]) {
      var x := Present(Pts(raw))[i];
      assert x in Present(Pts(raw));
      var j :| 0 <= j < |raw| && Pts(raw)[j] == x;
    }
    var k := |Present(Pts(raw))|;
    assert k * limit <= |frames| * limit by { MulMonotone(k, |frames|, limit); }
    SafeRunFits(Present(Pts(raw)), limit, tb);
  }

  lemma {:induction false} PresentIsPart(ptss: seq<int>)
    ensures |Present(ptss)| <= |ptss| && forall x | x in Present(ptss) :: x in ptss && x != AV_NOPTS_VALUE
    decreases |ptss|
  {
    if ptss != [] {
      PresentIsPart(ptss[..|ptss| - 1]);
    }
  }

  /** A show without repeated timestamps and without gaps over 60 s that is decoded with at most
      four frames of disorder is handed out in presentation order, frame by frame, with
      its own timestamps. */
  lemma RegularShowIsDelivered(show: seq<Frame>, frames: seq<Frame>, tb: Rational, run: Run, tail: seq<Frame>,
                               out: seq<Frame>)
    requires Delivered(frames, tb, run, tail, out) && Timed(frames) && tb.Positive()
    requires BoundedDisorder(frames, MIN_BUFFER_DEPTH)
    requires multiset(show) == multiset(frames) && StrictlySorted(show) && Regular(Pts(show), tb)
    ensures out == show
  {
    hide PushStep, StepAt, Flat, IsRun, MangleAll, BoundedDisorder;
    var raw := Flat(run.outs) + tail;
    DeliveredContent(frames, tb, run, tail, out);
    BoundedDisorderIsRepaired(frames, run, tail);
    StrictOrderIsUnique(show, raw);
    TimedContent(frames, raw);
    RegularIsUntouched(Pts(raw), tb);
    assert out == raw;
  }

  /** If the show is gap-free as well, sixteen frames of disorder are repaired, provided its first
      frame is among the first five decoded. */
  lemma GapFreeShowIsDelivered(show: seq<Frame>, frames: seq<Frame>, tb: Rational, run: Run, tail: seq<Frame>,
                               out: seq<Frame>)
    requires Delivered(frames, tb, run, tail, out) && Timed(frames) && tb.Positive()
    requires multiset(show) == multiset(frames) && GapFree(show) && Regular(Pts(show), tb)
    requires BoundedDisorder(frames, FRAME_REORDER_BUFFER_SIZE)
    requires |frames| <= MIN_BUFFER_DEPTH || show[0] in frames[..MIN_BUFFER_DEPTH + 1]
    ensures out == show
  {
    hide PushStep, StepAt, Flat, IsRun, MangleAll, BoundedDisorder, GapFree;
    var raw := Flat(run.outs) + tail;
    DeliveredContent(frames, tb, run, tail, out);
    DisorderLimit(show, frames, run, tail);
    GapFreeIsStrict(show);
    StrictOrderIsUnique(show, raw);
    TimedContent(frames, raw);
    RegularIsUntouched(Pts(raw), tb);
    assert out == raw;
  }

  /** The timestamps of a worker in the time base of its encoder. */
  function Rescaled(ptss: seq<int>, tb: Rational, enc: Rational): (out: seq<int>)
    requires tb.Positive() && enc.Positive()
    ensures |out| == |ptss|
  {
    seq(|ptss|, i requires 0 <= i < |ptss| => RescaleQ(ptss[i], tb, enc))
  }

  lemma {:induction false} RescaledIsSteady(ptss: seq<int>, outs: seq<int>, limit: int, ticks: int, tb: Rational,
                                            enc: Rational)
    requires enc.Positive() && StepLimit(limit, tb) && Follows(ptss, outs, tb)
    requires Covers(ticks, limit, tb, enc)
    requires outs != [] ==> RescaleQ(outs[0], tb, enc) > AV_NOPTS_VALUE
    ensures Paced(Rescaled(outs, tb, enc), ticks + 1)
  {
    hide RescaleQ, Advance, Covers;
    var r := Rescaled(outs, tb, enc);
    forall i | 0 < i < |r| ensures 0 <= r[i] - r[i - 1] <= ticks + 1 {
      var step := outs[i] - outs[i - 1];
      AdvanceBounds(ptss[i] - ptss[i - 1], limit, tb);
      RescaleMonotone(outs[i - 1], outs[i], tb, enc);
      CoversLess(ticks, step, limit, tb, enc);
      RescaleGap(outs[i - 1], outs[i], ticks, tb, enc);
    }
    forall i | 0 <= i < |r| ensures r[i] != AV_NOPTS_VALUE {
      NeverAbsent(r, ticks + 1, i);
    }
  }

  lemma CoversLess(ticks: int, step: int, limit: int, bq: Rational, cq: Rational)
    requires bq.Positive() && cq.Positive() && step <= limit && Covers(ticks, limit, bq, cq)
    ensures Covers(ticks, step, bq, cq)
  {
    ScalePositive(bq, cq);
    MulMonotone(step, limit, bq.num * cq.den);
  }

  lemma {:induction false} NeverAbsent(r: seq<int>, gap: int, i: nat)
    requires i < |r| && r[0] > AV_NOPTS_VALUE
    requires forall j | 0 < j < |r| :: 0 <= r[j] - r[j - 1] <= gap
    ensures r[i] > AV_NOPTS_VALUE
    decreases i
  {
    if i > 0 {
      NeverAbsent(r, gap, i - 1);
    }
  }

  /** If every frame has a timestamp, the law holds of all of them. */
  lemma TimedFollows(frames: seq<Frame>, tb: Rational, run: Run, tail: seq<Frame>, out: seq<Frame>)
    requires Delivered(frames, tb, run, tail, out) && Timed(frames) && tb.Positive()
    requires RunFits(Pts(Flat(run.outs) + tail), tb)
    ensures Follows(Pts(Flat(run.outs) + tail), Pts(out), tb)
  {
    hide PushStep, StepAt, Flat, IsRun, DrainsTo, MangleAll, Follows, RunFits;
    var raw := Flat(run.outs) + tail;
    DeliveredContent(frames, tb, run, tail, out);
    TimedContent(frames, raw);
    FitsLaw(Pts(raw), tb);
    assert Pts(out) == MangleAll(FRESH, Pts(raw), tb);
  }

  /** Keyframes end to end: whatever timestamps arrive, the first frame an encoder gets is a
      forced keyframe, and consecutive forced keyframes are at least the interval and less than
      the interval plus the rescaled 60 s limit and one tick apart. */
  lemma KeyframesEndToEnd(frames: seq<Frame>, tb: Rational, run: Run, tail: seq<Frame>, out: seq<Frame>,
                          limit: int, enc: Rational, ticks: int, kfTicks: int, a: nat, b: nat)
    requires Delivered(frames, tb, run, tail, out) && Timed(frames) && StepLimit(limit, tb)
    requires RunFits(Pts(Flat(run.outs) + tail), tb)
    requires enc.Positive() && Covers(ticks, limit, tb, enc) && kfTicks > 0
    requires b < |out| && RescaleQ(Pts(out)[0], tb, enc) > AV_NOPTS_VALUE
    requires var r := Rescaled(Pts(out), tb, enc);
             InForce(r, kfTicks, a, b) && ForcedAt(r, kfTicks, b)
    ensures var r := Rescaled(Pts(out), tb, enc);
            ForcedAt(r, kfTicks, 0) && kfTicks <= r[b] - r[a] < kfTicks + ticks + 1
  {
    hide Delivered, Follows, InForce, ForcedAt, RescaleQ, Covers, Flat, RunFits;
    TimedFollows(frames, tb, run, tail, out);
    var r := Rescaled(Pts(out), tb, enc);
    RescaledIsSteady(Pts(Flat(run.outs) + tail), Pts(out), limit, ticks, tb, enc);
    FirstIsForced(r, kfTicks);
    KeyframeSpacing(r, kfTicks, ticks + 1, a, b);
  }
}
