/** Forcing keyframes on media time (crates/core/src/pipeline/worker.rs, `encode_mux_frame`).

    The keyframe interval is computed in reals where the source uses f64. */
module Keyframes {
  import opened Wrappers
  import opened Timestamps

  /** The intended keyframe interval. */
  function KeyframeSeconds(gop: nat, fps: real): real {
    if fps > 0.0 then gop as real / fps else 2.0
  }

  function TicksPerSecond(tb: Rational): real {
    if tb.Positive() then tb.den as real / tb.num as real else 90_000.0
  }

  /** The keyframe interval in encoder ticks. */
  function KeyframeTicks(gop: nat, fps: real, tb: Rational): int {
    (KeyframeSeconds(gop, fps) * TicksPerSecond(tb)).Floor
  }

  /** The part of a worker that schedules keyframes. */
  class KeyframeForcer {
    var lastForcedKeyframePts: Option<int>

    constructor ()
      ensures lastForcedKeyframePts == None
    {
      lastForcedKeyframePts := None;
    }

    /** Is the frame with rescaled timestamp `pts` forced to be a keyframe? */
    method Encode(pts: int, kfTicks: int) returns (forced: bool)
      modifies this
      ensures forced == IsForced(old(lastForcedKeyframePts), pts, kfTicks)
      ensures lastForcedKeyframePts == if forced then Some(pts) else old(lastForcedKeyframePts)
    {
      forced := false;
      if pts != AV_NOPTS_VALUE {
        match lastForcedKeyframePts
        case Some(last) =>
          if pts - last >= kfTicks {
            forced := true;
            lastForcedKeyframePts := Some(pts);
          }
        case None =>
          forced := true;
          lastForcedKeyframePts := Some(pts);
      }
    }
  }

  predicate IsForced(last: Option<int>, pts: int, kfTicks: int) {
    pts != AV_NOPTS_VALUE && (last.Some? ==> pts - last.value >= kfTicks)
  }

  // ----- Runs -------------------------------------------------------------

  function LastForced(ptss: seq<int>, kfTicks: int): Option<int> {
    if ptss == [] then None
    else
      var last, pts := LastForced(ptss[..|ptss| - 1], kfTicks), ptss[|ptss| - 1];
      if IsForced(last, pts, kfTicks) then Some(pts) else last
  }

  /** Is the i-th frame of the run forced? */
  predicate ForcedAt(ptss: seq<int>, kfTicks: int, i: nat)
    requires i < |ptss|
  {
    IsForced(LastForced(ptss[..i], kfTicks), ptss[i], kfTicks)
  }

  /** A worker's whole run. */
  method EncodeAll(ptss: seq<int>, kfTicks: int) returns (forced: seq<bool>)
    ensures |forced| == |ptss|
    ensures forall i | 0 <= i < |ptss| :: forced[i] == ForcedAt(ptss, kfTicks, i)
  {
    var worker := new KeyframeForcer();
    forced := [];
    for i := 0 to |ptss|
      invariant |forced| == i
      invariant worker.lastForcedKeyframePts == LastForced(ptss[..i], kfTicks)
      invariant forall j | 0 <= j < i :: forced[j] == ForcedAt(ptss, kfTicks, j)
    {
      var f := worker.Encode(ptss[i], kfTicks);
      assert ptss[..i + 1][..i] == ptss[..i];
      forced := forced + [f];
    }
  }

  /** Timestamps that never go back and never jump by more than `gap`. */
  ghost predicate Paced(ptss: seq<int>, gap: int) {
    && (forall i | 0 <= i < |ptss| :: ptss[i] != AV_NOPTS_VALUE)
    && forall i | 0 < i < |ptss| :: 0 <= ptss[i] - ptss[i - 1] <= gap
  }

  /** The keyframe in force just before frame `i`: forced, and none forced since. */
  ghost predicate InForce(ptss: seq<int>, kfTicks: int, a: nat, i: nat)
    requires i <= |ptss|
  {
    a < i && ForcedAt(ptss, kfTicks, a) && forall j | a < j < i :: !ForcedAt(ptss, kfTicks, j)
  }

  lemma {:induction false} KeyframeInForce(ptss: seq<int>, kfTicks: int, i: nat) returns (a: nat)
    requires 0 < i <= |ptss| && ptss[0] != AV_NOPTS_VALUE
    ensures InForce(ptss, kfTicks, a, i) && LastForced(ptss[..i], kfTicks) == Some(ptss[a])
    decreases i
  {
    assert ptss[..i][..i - 1] == ptss[..i - 1];
    if ForcedAt(ptss, kfTicks, i - 1) {
      a := i - 1;
    } else {
      assert i > 1 by {
        assert ptss[..0] == [];
      }
      a := KeyframeInForce(ptss, kfTicks, i - 1);
    }
  }

  lemma InForceUnique(ptss: seq<int>, kfTicks: int, a: nat, b: nat, i: nat)
    requires i <= |ptss| && InForce(ptss, kfTicks, a, i) && InForce(ptss, kfTicks, b, i)
    ensures a == b
  {}

  /** Between keyframes no frame is a full interval away from the last one. */
  lemma WithinInterval(ptss: seq<int>, kfTicks: int, gap: int, a: nat, i: nat)
    requires kfTicks > 0 && Paced(ptss, gap)
    requires i < |ptss| && InForce(ptss, kfTicks, a, i + 1)
    ensures ptss[i] - ptss[a] < kfTicks
  {
    if a < i {
      var k := KeyframeInForce(ptss, kfTicks, i);
      assert InForce(ptss, kfTicks, a, i);
      InForceUnique(ptss, kfTicks, a, k, i);
      assert !ForcedAt(ptss, kfTicks, i);
    }
  }

  /** Consecutive forced keyframes are at least one interval apart, and less than one
      interval plus the largest frame gap. */
  lemma KeyframeSpacing(ptss: seq<int>, kfTicks: int, gap: int, a: nat, b: nat)
    requires kfTicks > 0 && Paced(ptss, gap)
    requires b < |ptss| && InForce(ptss, kfTicks, a, b) && ForcedAt(ptss, kfTicks, b)
    ensures kfTicks <= ptss[b] - ptss[a] < kfTicks + gap
  {
    var k := KeyframeInForce(ptss, kfTicks, b);
    InForceUnique(ptss, kfTicks, a, k, b);
    WithinInterval(ptss, kfTicks, gap, a, b - 1);
  }

  lemma FirstIsForced(ptss: seq<int>, kfTicks: int)
    requires ptss != [] && ptss[0] != AV_NOPTS_VALUE
    ensures ForcedAt(ptss, kfTicks, 0)
  {
    assert ptss[..0] == [];
  }

  /** The interval is the length of a group of `gop` frames, cut to whole ticks. */
  lemma IntervalIsOneGroup(gop: nat, fps: real, tb: Rational)
    requires fps > 0.0 && tb.Positive()
    ensures var ticks, group, second := KeyframeTicks(gop, fps, tb), gop as real * tb.den as real, fps * tb.num as real;
            ticks as real * second <= group < (ticks + 1) as real * second
  {
    hide KeyframeSeconds, TicksPerSecond;
    RatesAreQuotients(gop, fps, tb);
    var exact, second := KeyframeSeconds(gop, fps) * TicksPerSecond(tb), fps * tb.num as real;
    var ticks := KeyframeTicks(gop, fps, tb);
    Regroup(KeyframeSeconds(gop, fps), TicksPerSecond(tb), fps, tb.num as real);
    assert ticks as real <= exact < (ticks + 1) as real && second > 0.0;
    MultiplyBound(ticks as real, exact, second);
    MultiplyLess(exact, (ticks + 1) as real, second);
  }

  /** Without a frame rate the interval is two seconds, and without a timebase a second has 90000
      ticks. */
  lemma IntervalFallsBack(gop: nat, fps: real, tb: Rational)
    requires fps <= 0.0 && !tb.Positive()
    ensures KeyframeTicks(gop, fps, tb) == 180_000
  {}

  lemma RatesAreQuotients(gop: nat, fps: real, tb: Rational)
    requires fps > 0.0 && tb.Positive()
    ensures KeyframeSeconds(gop, fps) * fps == gop as real && TicksPerSecond(tb) * tb.num as real == tb.den as real
  {}

  lemma Regroup(a: real, b: real, c: real, d: real)
    ensures (a * b) * (c * d) == (a * c) * (b * d)
  {}

  lemma MultiplyLess(x: real, y: real, k: real)
    requires k > 0.0 && x < y
    ensures x * k < y * k
  {}

  /** `ticks` lies in (low seconds - 1 tick, high seconds] at `k` ticks a second. */
  predicate Within(ticks: int, low: real, high: real, k: real) {
    low * k - 1.0 < ticks as real <= high * k
  }

  /** The default group size of a configuration. */
  function DefaultGop(fps: real): nat
    requires fps > 0.0
  {
    (fps * 2.0).Floor
  }

  function FrameSeconds(fps: real): real
    requires fps > 0.0
  {
    1.0 / fps
  }

  /** With the default group size the interval lies in (2 s - one frame - 1 tick, 2 s]. */
  lemma DefaultInterval(fps: real, tb: Rational)
    requires fps > 0.0
    ensures Within(KeyframeTicks(DefaultGop(fps), fps, tb), 2.0 - FrameSeconds(fps), 2.0, TicksPerSecond(tb))
  {
    hide KeyframeSeconds, TicksPerSecond, Within, DefaultGop, FrameSeconds;
    DefaultSeconds(fps);
    TicksArePositive(tb);
    FloorOfProduct(2.0 - FrameSeconds(fps), KeyframeSeconds(DefaultGop(fps), fps), 2.0, TicksPerSecond(tb));
  }

  lemma FloorOfProduct(low: real, x: real, high: real, k: real)
    requires k > 0.0 && low <= x <= high
    ensures Within((x * k).Floor, low, high, k)
  {
    MultiplyBound(low, x, k);
    MultiplyBound(x, high, k);
  }

  lemma TicksArePositive(tb: Rational)
    ensures TicksPerSecond(tb) > 0.0
  {}

  lemma DefaultSeconds(fps: real)
    requires fps > 0.0
    ensures 2.0 - FrameSeconds(fps) <= KeyframeSeconds(DefaultGop(fps), fps) <= 2.0
  {
    var secs := (fps * 2.0).Floor as real / fps;
    var inverse := 1.0 / fps;
    assert inverse * fps == 1.0;
    assert secs * fps == (fps * 2.0).Floor as real;
    DivideBound(secs, 2.0, fps);
    assert (2.0 - inverse) * fps == 2.0 * fps - inverse * fps;
    DivideBound(2.0 - inverse, secs, fps);
  }

  lemma DivideBound(x: real, y: real, k: real)
    requires k > 0.0 && x * k <= y * k
    ensures x <= y
  {}

  lemma MultiplyBound(x: real, y: real, k: real)
    requires k > 0.0 && x <= y
    ensures x * k <= y * k
  {}
}
