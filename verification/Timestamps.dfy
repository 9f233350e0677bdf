/** Repair of duplicate, backward and absurd timestamps after reordering
    (crates/core/src/pipeline/runner.rs, `mangle_frame_pts`).

    Timestamps are i64 in the source.  `saturating_add` and `saturating_sub` are
    `Saturate`, the plain `+` and `-` wrap as they do in a release build (`Wrap`).
    The 60 s limit is compared in rationals where the source multiplies in f64. */
module Timestamps {
  import opened Arith

  const I64_MIN := -0x8000_0000_0000_0000
  const I64_MAX := 0x7fff_ffff_ffff_ffff
  const AV_NOPTS_VALUE := I64_MIN
  const MAX_PTS_JUMP_SECS := 60

  datatype Rational = Rational(num: int, den: int) {
    predicate Positive() { num > 0 && den > 0 }
  }

  predicate IsI64(x: int) { I64_MIN <= x <= I64_MAX }

  /** A timestamp that is present. */
  predicate IsPts(x: int) { I64_MIN < x <= I64_MAX }

  function Saturate(x: int): int {
    if x < I64_MIN then I64_MIN else if x > I64_MAX then I64_MAX else x
  }

  function Wrap(x: int): int {
    (x - I64_MIN) % 0x1_0000_0000_0000_0000 + I64_MIN
  }

  /** The entry of `pts_offsets` of one source stream. */
  datatype Repair = Repair(lastPts: int, offset: int)

  const FRESH := Repair(I64_MIN, 0)

  /** The new entry and the new timestamp of a frame. */
  function Mangle(st: Repair, pts: int, tb: Rational): (Repair, int) {
    if pts == AV_NOPTS_VALUE then (st, pts) else
      var adjusted := Saturate(pts + st.offset);
      var offset :=
        if st.lastPts != I64_MIN && adjusted <= st.lastPts
        then Saturate(st.offset + Wrap(st.lastPts + 1 - adjusted))
        else st.offset;
      var moved := Saturate(pts + offset);
      if st.lastPts != I64_MIN && moved > st.lastPts
         && Wrap(moved - st.lastPts) * tb.num > MAX_PTS_JUMP_SECS * tb.den
      then
        var clamped := Wrap(st.lastPts + 1);
        (Repair(clamped, Saturate(offset - Wrap(moved - st.lastPts - 1))), clamped)
      else
        (Repair(moved, offset), moved)
  }

  // ----- Exactly when one step advances -------------------------------------

  /** The entry remembers an output that is the input `lastIn` moved by the offset. */
  ghost predicate Consistent(st: Repair, lastIn: int) {
    IsPts(st.lastPts) && IsPts(lastIn) && IsI64(st.offset) && st.offset == st.lastPts - lastIn
  }

  /** An entry that has a last output. */
  predicate HasOutput(st: Repair) { IsPts(st.lastPts) && IsI64(st.offset) }

  /** There is a tick after the last output, and if the moved timestamp does not reach it, the
      missing ticks can be measured and added to the offset without leaving the i64 range. */
  predicate Representable(st: Repair, pts: int) {
    && st.lastPts < I64_MAX
    && (pts + st.offset <= st.lastPts ==>
          && I64_MIN <= pts + st.offset && st.lastPts - (pts + st.offset) < I64_MAX
          && st.lastPts + 1 - pts <= I64_MAX)
  }

  /** By how much the output advances when the input advances by `step`. */
  function Advance(step: int, tb: Rational): int {
    if step > 0 && step * tb.num <= MAX_PTS_JUMP_SECS * tb.den then step else 1
  }

  lemma WrapInRange(x: int)
    requires IsI64(x)
    ensures Wrap(x) == x
  {}

  /** From any entry with a last output, the next output is strictly later exactly if a later tick
      is representable. A forward step that saturates still advances; what it breaks is the entry,
      see `MangleLawIff`. */
  lemma MangleAdvancesIff(st: Repair, pts: int, tb: Rational)
    requires HasOutput(st) && IsPts(pts)
    ensures Mangle(st, pts, tb).1 > st.lastPts <==> Representable(st, pts)
  {
    if st.lastPts < Saturate(pts + st.offset) {
      MangleAhead(st, pts, tb);
    } else {
      MangleBehind(st, pts, tb);
    }
  }

  lemma MangleAhead(st: Repair, pts: int, tb: Rational)
    requires HasOutput(st) && IsPts(pts) && st.lastPts < Saturate(pts + st.offset)
    ensures Mangle(st, pts, tb).1 > st.lastPts && Representable(st, pts)
  {
    WrapInRange(st.lastPts + 1);
  }

  /** The timestamp after the offset was raised, before it is cut back to 60 s. */
  function Moved(st: Repair, pts: int): int {
    Saturate(pts + Saturate(st.offset + Wrap(st.lastPts + 1 - Saturate(pts + st.offset))))
  }

  lemma MangleBehind(st: Repair, pts: int, tb: Rational)
    requires HasOutput(st) && IsPts(pts) && Saturate(pts + st.offset) <= st.lastPts
    ensures Mangle(st, pts, tb).1 > st.lastPts <==> Representable(st, pts)
  {
    hide Wrap;
    MovedIff(st, pts);
    if Moved(st, pts) > st.lastPts {
      WrapInRange(st.lastPts + 1);
    }
  }

  lemma MovedIff(st: Repair, pts: int)
    requires HasOutput(st) && IsPts(pts) && Saturate(pts + st.offset) <= st.lastPts
    ensures Moved(st, pts) > st.lastPts <==> Representable(st, pts)
  {
    hide Wrap;
    var missing := st.lastPts + 1 - Saturate(pts + st.offset);
    if missing <= I64_MAX {
      WrapInRange(missing);
    } else {
      WrapsDown(missing);
    }
  }

  lemma WrapsDown(x: int)
    requires I64_MAX < x <= I64_MAX - I64_MIN + 1
    ensures Wrap(x) <= 0
  {}

  /** Two frames at the end of the i64 range: the second one does not advance. */
  lemma LastTickRepeats(tb: Rational)
    requires tb.Positive()
    ensures var first := Mangle(FRESH, I64_MAX, tb);
            && first.1 == I64_MAX
            && Consistent(first.0, I64_MAX)
            && Mangle(first.0, I64_MAX, tb).1 == I64_MAX
  {
    var st := Mangle(FRESH, I64_MAX, tb).0;
    assert st == Repair(I64_MAX, 0);
    assert Wrap(I64_MAX + 1 - I64_MAX) == 1;
  }

  // ----- Whole runs -------------------------------------------------------

  function After(st: Repair, ptss: seq<int>, tb: Rational): Repair {
    if ptss == [] then st
    else Mangle(After(st, ptss[..|ptss| - 1], tb), ptss[|ptss| - 1], tb).0
  }

  function MangleAll(st: Repair, ptss: seq<int>, tb: Rational): (outs: seq<int>)
    ensures |outs| == |ptss|
  {
    if ptss == [] then []
    else
      var init := ptss[..|ptss| - 1];
      MangleAll(st, init, tb) + [Mangle(After(st, init, tb), ptss[|ptss| - 1], tb).1]
  }

  lemma {:induction false} AfterConcat(st: Repair, a: seq<int>, b: seq<int>, tb: Rational)
    ensures After(st, a + b, tb) == After(After(st, a, tb), b, tb)
    ensures MangleAll(st, a + b, tb) == MangleAll(st, a, tb) + MangleAll(After(st, a, tb), b, tb)
    decreases |b|
  {
    if b == [] {
      assert a + b == a;
    } else {
      var init := b[..|b| - 1];
      assert (a + b)[..|a + b| - 1] == a + init;
      AfterConcat(st, a, init, tb);
    }
  }

  // ----- Exactly when one step follows the law --------------------------------

  /** The output advances by the law and the entry remembers it. */
  ghost predicate Lawful(st: Repair, lastIn: int, pts: int, tb: Rational) {
    var out := st.lastPts + Advance(pts - lastIn, tb);
    Mangle(st, pts, tb) == (Repair(out, out - pts), out)
  }

  predicate IsJump(step: int, tb: Rational) { step * tb.num > MAX_PTS_JUMP_SECS * tb.den }

  /** Nothing saturates or wraps: a forward step can be moved by the offset, and one over 60 s
      can be measured and taken out of the offset; a step back is representable. */
  predicate StepFits(st: Repair, lastIn: int, pts: int, tb: Rational) {
    if pts > lastIn then
      && pts + st.offset <= I64_MAX
      && (IsJump(pts - lastIn, tb) ==> pts - lastIn <= I64_MAX && st.lastPts + 1 - pts >= I64_MIN)
    else Representable(st, pts)
  }

  /** One step follows the law exactly if its arithmetic fits. */
  lemma MangleLawIff(st: Repair, lastIn: int, pts: int, tb: Rational)
    requires Consistent(st, lastIn) && IsPts(pts) && tb.Positive()
    ensures Lawful(st, lastIn, pts, tb) <==> StepFits(st, lastIn, pts, tb)
    ensures StepFits(st, lastIn, pts, tb) ==> Consistent(Mangle(st, pts, tb).0, pts)
  {
    if pts <= lastIn {
      StepBackIff(st, lastIn, pts, tb);
    } else if pts + st.offset <= I64_MAX {
      StepForwardIff(st, lastIn, pts, tb);
    } else {
      ForwardSaturates(st, lastIn, pts, tb);
    }
  }

  lemma StepBackIff(st: Repair, lastIn: int, pts: int, tb: Rational)
    requires Consistent(st, lastIn) && IsPts(pts) && tb.Positive() && pts <= lastIn
    ensures Lawful(st, lastIn, pts, tb) <==> Representable(st, pts)
    ensures Representable(st, pts) ==> Consistent(Mangle(st, pts, tb).0, pts)
  {
    hide Advance;
    StepOne(pts - lastIn, tb);
    if Representable(st, pts) {
      WrapInRange(lastIn - pts + 1);
      WrapInRange(1);
      WrapInRange(0);
      WrapInRange(st.lastPts + 1);
    } else {
      MangleAdvancesIff(st, pts, tb);
    }
  }

  lemma StepOne(step: int, tb: Rational)
    requires tb.Positive()
    ensures Advance(step, tb) == if step > 0 && !IsJump(step, tb) then step else 1
  {}

  lemma WrapsBelow(x: int)
    requires I64_MAX < x <= I64_MAX - I64_MIN
    ensures Wrap(x) < 0
  {}

  lemma StepForwardIff(st: Repair, lastIn: int, pts: int, tb: Rational)
    requires Consistent(st, lastIn) && IsPts(pts) && tb.Positive() && pts > lastIn && pts + st.offset <= I64_MAX
    ensures Lawful(st, lastIn, pts, tb) <==> StepFits(st, lastIn, pts, tb)
    ensures StepFits(st, lastIn, pts, tb) ==> Consistent(Mangle(st, pts, tb).0, pts)
  {
    var step := pts - lastIn;
    StepOne(step, tb);
    MulPositive(step, tb.num);
    if step > I64_MAX {
      WrapsBelow(step);
      MulNegative(Wrap(step), tb.num);
    } else {
      WrapInRange(step);
      WrapInRange(step - 1);
      WrapInRange(st.lastPts + 1);
    }
  }

  lemma MulNegative(x: int, k: int)
    requires x < 0 && k > 0
    ensures x * k < 0
  {}

  /** A saturated step ends at the last tick, or is clamped by what was left of the range. */
  lemma SaturatedStep(st: Repair, lastIn: int, pts: int, tb: Rational)
    requires Consistent(st, lastIn) && IsPts(pts) && pts > lastIn && pts + st.offset > I64_MAX && st.lastPts < I64_MAX
    ensures || Mangle(st, pts, tb) == (Repair(I64_MAX, st.offset), I64_MAX)
            || Mangle(st, pts, tb)
               == (Repair(st.lastPts + 1, Saturate(st.offset - (I64_MAX - st.lastPts - 1))), st.lastPts + 1)
            || I64_MAX - st.lastPts > I64_MAX
  {
    WrapInRange(st.lastPts + 1);
    if I64_MAX - st.lastPts <= I64_MAX {
      WrapInRange(I64_MAX - st.lastPts);
      WrapInRange(I64_MAX - st.lastPts - 1);
    }
  }

  lemma SaturatedFar(st: Repair, lastIn: int, pts: int, tb: Rational)
    requires Consistent(st, lastIn) && IsPts(pts) && tb.Positive() && pts > lastIn && pts + st.offset > I64_MAX
    requires I64_MAX - st.lastPts > I64_MAX
    ensures Mangle(st, pts, tb) == (Repair(I64_MAX, st.offset), I64_MAX)
  {
    WrapsBelow(I64_MAX - st.lastPts);
    MulNegative(Wrap(I64_MAX - st.lastPts), tb.num);
  }

  /** A forward step that saturates never leaves a consistent entry. */
  lemma ForwardSaturates(st: Repair, lastIn: int, pts: int, tb: Rational)
    requires Consistent(st, lastIn) && IsPts(pts) && tb.Positive() && pts > lastIn && pts + st.offset > I64_MAX
    ensures !Lawful(st, lastIn, pts, tb)
  {
    hide Mangle;
    if st.lastPts == I64_MAX {
      MangleAdvancesIff(st, pts, tb);
    } else if I64_MAX - st.lastPts > I64_MAX {
      SaturatedFar(st, lastIn, pts, tb);
    } else {
      SaturatedStep(st, lastIn, pts, tb);
    }
  }

  // ----- Whole runs of the law --------------------------------------------------

  /** Every step of the run fits. */
  ghost predicate RunFits(ins: seq<int>, tb: Rational) {
    forall i: nat | 0 < i < |ins| :: FitsAt(ins, tb, i)
  }

  predicate FitsAt(ins: seq<int>, tb: Rational, i: nat)
    requires 0 < i < |ins|
  {
    StepFits(After(FRESH, ins[..i], tb), ins[i - 1], ins[i], tb)
  }

  /** Every entry remembers the output and the input of its frame. */
  ghost predicate Remembers(ins: seq<int>, tb: Rational) {
    forall i: nat | i < |ins| :: RemembersAt(ins, tb, i)
  }

  ghost predicate RemembersAt(ins: seq<int>, tb: Rational, i: nat)
    requires i < |ins|
  {
    var out := MangleAll(FRESH, ins, tb)[i];
    After(FRESH, ins[..i + 1], tb) == Repair(out, out - ins[i])
  }

  lemma MangleFirst(pts: int, tb: Rational)
    requires IsPts(pts)
    ensures Mangle(FRESH, pts, tb) == (Repair(pts, 0), pts)
  {}

  /** `outs` follows `ins`: the first timestamp is kept, every later step of the output is the
      step of the input if that lies in (0, 60 s], and one tick otherwise. */
  ghost predicate Follows(ins: seq<int>, outs: seq<int>, tb: Rational) {
    && |outs| == |ins|
    && (ins != [] ==> outs[0] == ins[0])
    && forall i | 0 < i < |ins| :: outs[i] == outs[i - 1] + Advance(ins[i] - ins[i - 1], tb)
  }

  ghost predicate AllI64(ptss: seq<int>) { forall i | 0 <= i < |ptss| :: IsI64(ptss[i]) }

  ghost predicate AllPts(ins: seq<int>) { forall i | 0 <= i < |ins| :: IsPts(ins[i]) }

  /** The entry after a run that fits is consistent with its last frame. */
  lemma {:induction false} FitsLaw(ins: seq<int>, tb: Rational)
    requires tb.Positive() && AllPts(ins) && RunFits(ins, tb)
    ensures Follows(ins, MangleAll(FRESH, ins, tb), tb)
    ensures ins != [] ==>
              var st := After(FRESH, ins, tb);
              Consistent(st, ins[|ins| - 1]) && st.lastPts == MangleAll(FRESH, ins, tb)[|ins| - 1]
    decreases |ins|
  {
    hide Mangle, Advance, StepFits;
    if ins != [] {
      var init, pts := ins[..|ins| - 1], ins[|ins| - 1];
      FitsPrefix(ins, tb);
      FitsLaw(init, tb);
      if init == [] {
        MangleFirst(pts, tb);
      } else {
        assert FitsAt(ins, tb, |init|);
        MangleLawIff(After(FRESH, init, tb), init[|init| - 1], pts, tb);
      }
    }
  }

  lemma FitsPrefix(ins: seq<int>, tb: Rational)
    requires ins != [] && RunFits(ins, tb)
    ensures RunFits(ins[..|ins| - 1], tb)
  {
    var init := ins[..|ins| - 1];
    forall i: nat | 0 < i < |init| ensures FitsAt(init, tb, i) {
      assert FitsAt(ins, tb, i) && init[..i] == ins[..i];
    }
  }

  lemma {:induction false} MangleAllAt(ins: seq<int>, tb: Rational, i: nat)
    requires i < |ins|
    ensures MangleAll(FRESH, ins, tb)[i] == Mangle(After(FRESH, ins[..i], tb), ins[i], tb).1
    ensures MangleAll(FRESH, ins[..i + 1], tb) == MangleAll(FRESH, ins, tb)[..i + 1]
    ensures After(FRESH, ins[..i + 1], tb) == Mangle(After(FRESH, ins[..i], tb), ins[i], tb).0
    decreases |ins|
  {
    hide Mangle;
    var init := ins[..|ins| - 1];
    assert ins[..i + 1][..i] == ins[..i];
    if i < |init| {
      MangleAllAt(init, tb, i);
      assert init[..i] == ins[..i] && init[..i + 1] == ins[..i + 1];
    } else {
      assert ins[..i + 1] == ins && ins[..i] == init;
    }
  }

  /** The law of the repaired timeline over whole runs of 64-bit arithmetic: outputs follow it and
      entries remember it if and only if no step saturates or wraps. */
  lemma TimelineFollowsIff(ins: seq<int>, tb: Rational)
    requires tb.Positive() && AllPts(ins)
    ensures Follows(ins, MangleAll(FRESH, ins, tb), tb) && Remembers(ins, tb) <==> RunFits(ins, tb)
  {
    hide Mangle, Advance, StepFits, After, MangleAll;
    if RunFits(ins, tb) {
      FitsLaw(ins, tb);
      forall i: nat | i < |ins| ensures RemembersAt(ins, tb, i) {
        FitsRemembers(ins, tb, i);
      }
    }
    if Follows(ins, MangleAll(FRESH, ins, tb), tb) && Remembers(ins, tb) {
      FollowsFits(ins, tb, |ins|);
      assert ins[..|ins|] == ins;
    }
  }

  lemma {:induction false} FitsTake(ins: seq<int>, tb: Rational, n: nat)
    requires RunFits(ins, tb) && n <= |ins|
    ensures RunFits(ins[..n], tb)
  {
    forall i: nat | 0 < i < n ensures FitsAt(ins[..n], tb, i) {
      assert FitsAt(ins, tb, i) && ins[..n][..i] == ins[..i];
    }
  }

  lemma FitsRemembers(ins: seq<int>, tb: Rational, i: nat)
    requires tb.Positive() && AllPts(ins) && RunFits(ins, tb) && i < |ins|
    ensures RemembersAt(ins, tb, i)
  {
    hide Mangle, StepFits, Follows;
    FitsTake(ins, tb, i + 1);
    FitsLaw(ins[..i + 1], tb);
    MangleAllAt(ins, tb, i);
  }

  lemma {:induction false} FollowsFits(ins: seq<int>, tb: Rational, n: nat)
    requires tb.Positive() && AllPts(ins) && n <= |ins|
    requires Follows(ins, MangleAll(FRESH, ins, tb), tb) && Remembers(ins, tb)
    ensures RunFits(ins[..n], tb)
    ensures n > 0 ==> Consistent(After(FRESH, ins[..n], tb), ins[n - 1])
    decreases n
  {
    hide Mangle, Advance, StepFits, After, MangleAll;
    if n == 1 {
      FirstEntry(ins, tb);
    } else if n > 1 {
      var i := n - 1;
      FollowsFits(ins, tb, i);
      assert RemembersAt(ins, tb, i) && RemembersAt(ins, tb, i - 1);
      MangleAllAt(ins, tb, i);
      var st := After(FRESH, ins[..i], tb);
      assert st.lastPts == MangleAll(FRESH, ins, tb)[i - 1];
      MangleLawIff(st, ins[i - 1], ins[i], tb);
      forall j: nat | 0 < j < n ensures FitsAt(ins[..n], tb, j) {
        assert ins[..n][..j] == ins[..j];
        if j < i {
          assert FitsAt(ins[..i], tb, j) && ins[..i][..j] == ins[..j];
        }
      }
    }
  }

  lemma FirstEntry(ins: seq<int>, tb: Rational)
    requires ins != [] && AllPts(ins)
    ensures Consistent(After(FRESH, ins[..1], tb), ins[0])
  {
    MangleAllAt(ins, tb, 0);
    assert ins[..0] == [];
    MangleFirst(ins[0], tb);
  }

  /** What a forward saturation leads to: the third frame saturates and still advances by one
      tick, but the fourth, one tick later in the input, moves the output by 42. */
  lemma SaturationSkewsTheEntry()
    ensures var ins, tb := [100, 50, I64_MAX - 10, I64_MAX - 9], Rational(1, 90000);
            AllPts(ins) && MangleAll(FRESH, ins, tb) == [100, 101, 102, 144] && !RunFits(ins, tb)
  {
    hide Mangle, After, MangleAll, StepFits;
    var tb := Rational(1, 90000);
    SkewedEntries(tb);
    NothingMangled(tb);
    OneMore([], 100, [], FRESH, Repair(100, 0), 100, tb);
    assert [] + [100] == [100];
    OneMore([100], 50, [100], Repair(100, 0), Repair(101, 51), 101, tb);
    var two := [100] + [50];
    OneMore(two, I64_MAX - 10, [100] + [101], Repair(101, 51), Repair(102, 153 - I64_MAX), 102, tb);
    var three := two + [I64_MAX - 10];
    OneMore(three, I64_MAX - 9, [100] + [101] + [102], Repair(102, 153 - I64_MAX), Repair(144, 153 - I64_MAX), 144, tb);
    var ins := three + [I64_MAX - 9];
    assert ins == [100, 50, I64_MAX - 10, I64_MAX - 9] && ins[..2] == two;
    assert !FitsAt(ins, tb, 2);
  }

  lemma OneMore(ins: seq<int>, pts: int, outs: seq<int>, st: Repair, st': Repair, out: int, tb: Rational)
    requires MangleAll(FRESH, ins, tb) == outs && After(FRESH, ins, tb) == st && Mangle(st, pts, tb) == (st', out)
    ensures MangleAll(FRESH, ins + [pts], tb) == outs + [out] && After(FRESH, ins + [pts], tb) == st'
  {
    hide Mangle;
    MangleAppend(FRESH, ins, pts, tb);
  }

  lemma NothingMangled(tb: Rational)
    ensures MangleAll(FRESH, [], tb) == [] && After(FRESH, [], tb) == FRESH
  {}

  lemma SkewedEntries(tb: Rational)
    requires tb == Rational(1, 90000)
    ensures Mangle(FRESH, 100, tb) == (Repair(100, 0), 100)
    ensures Mangle(Repair(100, 0), 50, tb) == (Repair(101, 51), 101)
    ensures Mangle(Repair(101, 51), I64_MAX - 10, tb) == (Repair(102, 153 - I64_MAX), 102)
    ensures Mangle(Repair(102, 153 - I64_MAX), I64_MAX - 9, tb) == (Repair(144, 153 - I64_MAX), 144)
    ensures !StepFits(Repair(101, 51), 50, I64_MAX - 10, tb)
  {}

  // ----- Runs that certainly fit --------------------------------------------------

  /** Input timestamps for which no run of up to 2^60 limit-sized steps can overflow. */
  const SAFE := 0x1000_0000_0000_0000

  predicate IsSafe(x: int) { -SAFE <= x <= SAFE }

  /** No accepted step is longer than `limit` ticks. */
  predicate StepLimit(limit: int, tb: Rational) {
    tb.Positive() && limit >= 1 && MAX_PTS_JUMP_SECS * tb.den <= limit * tb.num
  }

  lemma AdvanceBounds(step: int, limit: int, tb: Rational)
    requires StepLimit(limit, tb)
    ensures 1 <= Advance(step, tb) <= limit
  {
    if step > limit {
      assert step * tb.num > limit * tb.num;
    }
  }

  /** Runs of timestamps within 2^60 fit, as long as their length times 60 s is within 2^60 ticks. */
  lemma {:induction false} SafeRunFits(ins: seq<int>, limit: int, tb: Rational)
    requires StepLimit(limit, tb) && |ins| * limit <= SAFE
    requires forall i | 0 <= i < |ins| :: IsSafe(ins[i])
    ensures RunFits(ins, tb)
    ensures ins != [] ==> -SAFE <= After(FRESH, ins, tb).lastPts <= SAFE + |ins| * limit
    decreases |ins|
  {
    hide Mangle, Advance;
    if |ins| > 0 {
      var init, pts := ins[..|ins| - 1], ins[|ins| - 1];
      assert |ins| * limit == |init| * limit + limit;
      SafeRunFits(init, limit, tb);
      FitsLaw(init, tb);
      if init != [] {
        var st, lastIn := After(FRESH, init, tb), init[|init| - 1];
        assert StepFits(st, lastIn, pts, tb);
        MangleLawIff(st, lastIn, pts, tb);
        AdvanceBounds(pts - lastIn, limit, tb);
      } else {
        MangleFirst(pts, tb);
      }
      forall i: nat | 0 < i < |ins| ensures FitsAt(ins, tb, i) {
        if i < |init| {
          assert FitsAt(init, tb, i) && init[..i] == ins[..i];
        }
      }
    }
  }

  // ----- Consequences -------------------------------------------------------

  ghost predicate StrictlyIncreasing(s: seq<int>) {
    forall i, j | 0 <= i < j < |s| :: s[i] < s[j]
  }

  lemma {:induction false} FollowsIncreases(ins: seq<int>, outs: seq<int>, tb: Rational, i: nat, j: nat)
    requires Follows(ins, outs, tb) && tb.Positive() && i < j < |ins|
    ensures outs[i] < outs[j]
    decreases j
  {
    assert outs[j] == outs[j - 1] + Advance(ins[j] - ins[j - 1], tb);
    if i < j - 1 {
      FollowsIncreases(ins, outs, tb, i, j - 1);
    }
  }

  /** Every step of the run has a later tick it can represent. */
  ghost predicate RunAdvances(ins: seq<int>, tb: Rational) {
    forall i: nat | 0 < i < |ins| :: AdvancesAt(ins, tb, i)
  }

  predicate AdvancesAt(ins: seq<int>, tb: Rational, i: nat)
    requires 0 < i < |ins|
  {
    Representable(After(FRESH, ins[..i], tb), ins[i])
  }

  lemma MangleRemembersOutput(st: Repair, pts: int, tb: Rational)
    requires IsPts(pts) && IsI64(st.offset)
    ensures var (st', out) := Mangle(st, pts, tb); st'.lastPts == out && IsI64(out) && IsI64(st'.offset)
  {}

  lemma IncreasingAppend(s: seq<int>, x: int)
    ensures StrictlyIncreasing(s + [x]) <==> StrictlyIncreasing(s) && (s != [] ==> s[|s| - 1] < x)
  {
    var t, n := s + [x], |s|;
    if StrictlyIncreasing(t) {
      forall i, j | 0 <= i < j < n ensures s[i] < s[j] { assert t[i] < t[j]; }
      assert n > 0 ==> t[n - 1] < t[n];
    }
    if StrictlyIncreasing(s) && (s != [] ==> s[n - 1] < x) {
      forall i, j | 0 <= i < j < n + 1 ensures t[i] < t[j] {
        assert i < n - 1 ==> s[i] < s[n - 1];
      }
    }
  }

  lemma AdvancesAppend(init: seq<int>, pts: int, tb: Rational)
    requires init != []
    ensures RunAdvances(init + [pts], tb) <==> RunAdvances(init, tb) && Representable(After(FRESH, init, tb), pts)
  {
    hide Representable;
    var ins := init + [pts];
    assert ins[..|init|] == init;
    assert forall i: nat | 0 < i < |init| :: init[..i] == ins[..i];
    if RunAdvances(ins, tb) {
      assert AdvancesAt(ins, tb, |init|);
      forall i: nat | 0 < i < |init| ensures AdvancesAt(init, tb, i) { assert AdvancesAt(ins, tb, i); }
    }
    if RunAdvances(init, tb) && Representable(After(FRESH, init, tb), pts) {
      forall i: nat | 0 < i < |ins| ensures AdvancesAt(ins, tb, i) {
        assert i < |init| ==> AdvancesAt(init, tb, i);
      }
    }
  }

  /** Over whole runs of present timestamps the outputs strictly increase if and only if every step
      can represent a later tick, saturated entries included. */
  lemma {:induction false} PresentIncreasesIff(ins: seq<int>, tb: Rational)
    requires AllPts(ins)
    ensures StrictlyIncreasing(MangleAll(FRESH, ins, tb)) <==> RunAdvances(ins, tb)
    ensures RunAdvances(ins, tb) && ins != [] ==>
              var st := After(FRESH, ins, tb); HasOutput(st) && st.lastPts == MangleAll(FRESH, ins, tb)[|ins| - 1]
    decreases |ins|
  {
    hide Mangle, Representable, After, MangleAll, StrictlyIncreasing, RunAdvances;
    if ins == [] {
      NothingIncreases(tb);
    } else {
      var init, pts := ins[..|ins| - 1], ins[|ins| - 1];
      assert ins == init + [pts];
      PresentIncreasesIff(init, tb);
      var st := After(FRESH, init, tb);
      MangleAppend(FRESH, init, pts, tb);
      IncreasingAppend(MangleAll(FRESH, init, tb), Mangle(st, pts, tb).1);
      if init == [] {
        NothingIncreases(tb);
        MangleFirst(pts, tb);
        OneAdvances(pts, tb);
      } else {
        AdvancesAppend(init, pts, tb);
        if RunAdvances(init, tb) {
          MangleAdvancesIff(st, pts, tb);
          MangleRemembersOutput(st, pts, tb);
        }
      }
    }
  }

  lemma NothingIncreases(tb: Rational)
    ensures MangleAll(FRESH, [], tb) == [] && After(FRESH, [], tb) == FRESH
    ensures StrictlyIncreasing([]) && RunAdvances([], tb)
  {}

  lemma OneAdvances(pts: int, tb: Rational)
    ensures RunAdvances([pts], tb)
  {}

  /** In particular if no step saturates or wraps. */
  lemma TimelineIncreases(ins: seq<int>, tb: Rational)
    requires tb.Positive() && AllPts(ins) && RunFits(ins, tb)
    ensures StrictlyIncreasing(MangleAll(FRESH, ins, tb)) && RunAdvances(ins, tb)
  {
    FitsLaw(ins, tb);
    forall i, j | 0 <= i < j < |ins|
      ensures MangleAll(FRESH, ins, tb)[i] < MangleAll(FRESH, ins, tb)[j]
    {
      FollowsIncreases(ins, MangleAll(FRESH, ins, tb), tb, i, j);
    }
    PresentIncreasesIff(ins, tb);
  }

  /** A timeline without repeats and without gaps over 60 s is left alone. */
  ghost predicate Regular(ins: seq<int>, tb: Rational) {
    forall i | 0 < i < |ins| :: 0 < ins[i] - ins[i - 1] && (ins[i] - ins[i - 1]) * tb.num <= MAX_PTS_JUMP_SECS * tb.den
  }

  lemma {:induction false} FollowsRegular(ins: seq<int>, outs: seq<int>, tb: Rational, i: nat)
    requires Follows(ins, outs, tb) && Regular(ins, tb) && i < |ins|
    ensures outs[i] == ins[i]
    decreases i
  {
    if i > 0 {
      FollowsRegular(ins, outs, tb, i - 1);
    }
  }

  /** Such a timeline always fits, up to the ends of the i64 range. */
  lemma {:induction false} RegularFits(ins: seq<int>, tb: Rational)
    requires tb.Positive() && AllPts(ins) && Regular(ins, tb)
    ensures RunFits(ins, tb)
    ensures ins != [] ==> After(FRESH, ins, tb) == Repair(ins[|ins| - 1], 0)
    decreases |ins|
  {
    hide Mangle, Advance;
    if ins != [] {
      var init, pts := ins[..|ins| - 1], ins[|ins| - 1];
      RegularFits(init, tb);
      if init == [] {
        MangleFirst(pts, tb);
      } else {
        var st, lastIn := After(FRESH, init, tb), init[|init| - 1];
        assert pts - lastIn > 0 && !IsJump(pts - lastIn, tb);
        MangleLawIff(st, lastIn, pts, tb);
        StepOne(pts - lastIn, tb);
      }
      forall i: nat | 0 < i < |ins| ensures FitsAt(ins, tb, i) {
        if i < |init| {
          assert FitsAt(init, tb, i) && init[..i] == ins[..i];
        }
      }
    }
  }

  lemma RegularIsUntouched(ins: seq<int>, tb: Rational)
    requires tb.Positive() && AllPts(ins) && Regular(ins, tb)
    ensures MangleAll(FRESH, ins, tb) == ins
  {
    RegularFits(ins, tb);
    FitsLaw(ins, tb);
    forall i | 0 <= i < |ins| ensures MangleAll(FRESH, ins, tb)[i] == ins[i] {
      FollowsRegular(ins, MangleAll(FRESH, ins, tb), tb, i);
    }
  }

  // ----- Frames without a timestamp -----------------------------------------

  function Present(ptss: seq<int>): seq<int> {
    if ptss == [] then []
    else
      var pts := ptss[|ptss| - 1];
      Present(ptss[..|ptss| - 1]) + if pts == AV_NOPTS_VALUE then [] else [pts]
  }

  lemma PresentAppend(ptss: seq<int>, pts: int)
    ensures Present(ptss + [pts]) == Present(ptss) + if pts == AV_NOPTS_VALUE then [] else [pts]
  {
    assert (ptss + [pts])[..|ptss|] == ptss;
  }

  lemma MangleAppend(st: Repair, ptss: seq<int>, pts: int, tb: Rational)
    ensures MangleAll(st, ptss + [pts], tb) == MangleAll(st, ptss, tb) + [Mangle(After(st, ptss, tb), pts, tb).1]
    ensures After(st, ptss + [pts], tb) == Mangle(After(st, ptss, tb), pts, tb).0
  {
    assert (ptss + [pts])[..|ptss|] == ptss;
  }

  lemma {:induction false} PresentArePts(ptss: seq<int>)
    requires AllI64(ptss)
    ensures AllPts(Present(ptss))
    decreases |ptss|
  {
    if ptss != [] {
      PresentArePts(ptss[..|ptss| - 1]);
    }
  }

  /** A frame that has a timestamp keeps having one. */
  lemma PresentStaysPresent(ptss: seq<int>, pts: int, tb: Rational)
    requires AllPts(ptss + [pts]) && RunAdvances(ptss + [pts], tb)
    ensures Mangle(After(FRESH, ptss, tb), pts, tb).1 != AV_NOPTS_VALUE
  {
    hide Mangle, After, RunAdvances;
    var longer := ptss + [pts];
    PresentIncreasesIff(longer, tb);
    MangleAppend(FRESH, ptss, pts, tb);
  }

  /** A frame has a timestamp after the repair exactly if it had one before. */
  ghost predicate KeepsTimestamps(ins: seq<int>, outs: seq<int>) {
    |outs| == |ins| && forall i | 0 <= i < |ins| :: outs[i] == AV_NOPTS_VALUE <==> ins[i] == AV_NOPTS_VALUE
  }

  ghost predicate PassesThrough(ptss: seq<int>, tb: Rational) {
    && After(FRESH, ptss, tb) == After(FRESH, Present(ptss), tb)
    && Present(MangleAll(FRESH, ptss, tb)) == MangleAll(FRESH, Present(ptss), tb)
    && KeepsTimestamps(ptss, MangleAll(FRESH, ptss, tb))
  }

  lemma MangleAbsent(st: Repair, tb: Rational)
    ensures Mangle(st, AV_NOPTS_VALUE, tb) == (st, AV_NOPTS_VALUE)
  {}

  lemma AbsentStep(init: seq<int>, pts: int, tb: Rational)
    requires PassesThrough(init, tb)
    requires pts != AV_NOPTS_VALUE ==> Mangle(After(FRESH, Present(init), tb), pts, tb).1 != AV_NOPTS_VALUE
    ensures PassesThrough(init + [pts], tb)
  {
    hide Mangle, After, MangleAll, Present;
    var st := After(FRESH, init, tb);
    MangleAppend(FRESH, init, pts, tb);
    PresentAppend(init, pts);
    PresentAppend(MangleAll(FRESH, init, tb), Mangle(st, pts, tb).1);
    if pts == AV_NOPTS_VALUE {
      MangleAbsent(st, tb);
      assert Present(init) + [] == Present(init);
      assert Present(MangleAll(FRESH, init, tb)) + [] == Present(MangleAll(FRESH, init, tb));
    } else {
      MangleAppend(FRESH, Present(init), pts, tb);
    }
    forall i | 0 <= i < |init| + 1
      ensures MangleAll(FRESH, init + [pts], tb)[i] == AV_NOPTS_VALUE <==> (init + [pts])[i] == AV_NOPTS_VALUE
    {
      assert i < |init| ==> (MangleAll(FRESH, init, tb)[i] == AV_NOPTS_VALUE <==> init[i] == AV_NOPTS_VALUE);
    }
  }

  lemma PassesThroughInit(tb: Rational)
    ensures PassesThrough([], tb)
  {}

  /** Frames without a timestamp pass through and leave the repair of the others alone. */
  lemma {:induction false} AbsentPassThrough(ptss: seq<int>, tb: Rational)
    requires RunAdvances(Present(ptss), tb) && AllI64(ptss)
    ensures PassesThrough(ptss, tb)
    decreases |ptss|
  {
    hide Mangle, After, MangleAll, PassesThrough, RunAdvances, AllPts, Representable;
    if ptss == [] {
      PassesThroughInit(tb);
    } else {
      var init, pts := ptss[..|ptss| - 1], ptss[|ptss| - 1];
      PresentArePts(ptss);
      assert ptss == init + [pts];
      PresentAppend(init, pts);
      if pts != AV_NOPTS_VALUE {
        PresentStaysPresent(Present(init), pts, tb);
        AdvancesPrefix(Present(init), pts, tb);
      } else {
        assert Present(ptss) == Present(init);
      }
      AbsentPassThrough(init, tb);
      AbsentStep(init, pts, tb);
    }
  }

  lemma AdvancesPrefix(init: seq<int>, pts: int, tb: Rational)
    requires RunAdvances(init + [pts], tb)
    ensures RunAdvances(init, tb)
  {
    if init != [] {
      AdvancesAppend(init, pts, tb);
    }
  }

  /** If every frame keeps its timestamp, absent ones do not influence the others. */
  lemma {:induction false} KeptPassesThrough(ptss: seq<int>, tb: Rational)
    requires KeepsTimestamps(ptss, MangleAll(FRESH, ptss, tb))
    ensures PassesThrough(ptss, tb)
    decreases |ptss|
  {
    hide Mangle, After, MangleAll, PassesThrough;
    if ptss == [] {
      PassesThroughInit(tb);
    } else {
      var init, pts := ptss[..|ptss| - 1], ptss[|ptss| - 1];
      assert ptss == init + [pts];
      MangleAppend(FRESH, init, pts, tb);
      var outs := MangleAll(FRESH, ptss, tb);
      forall i | 0 <= i < |init|
        ensures MangleAll(FRESH, init, tb)[i] == AV_NOPTS_VALUE <==> init[i] == AV_NOPTS_VALUE
      {
        assert outs[i] == MangleAll(FRESH, init, tb)[i] && ptss[i] == init[i];
      }
      assert outs[|init|] == AV_NOPTS_VALUE <==> ptss[|init|] == AV_NOPTS_VALUE;
      KeptPassesThrough(init, tb);
      SameEntry(init, tb);
      AbsentStep(init, pts, tb);
    }
  }

  lemma SameEntry(ptss: seq<int>, tb: Rational)
    requires PassesThrough(ptss, tb)
    ensures After(FRESH, ptss, tb) == After(FRESH, Present(ptss), tb)
  {}

  /** Over whole runs, whatever timestamps come and whichever are absent: every frame keeps its
      timestamp and those present strictly increase, if and only if every step between present
      timestamps can represent a later tick. */
  lemma TimelineIncreasesIff(ptss: seq<int>, tb: Rational)
    requires AllI64(ptss)
    ensures var outs := MangleAll(FRESH, ptss, tb);
            KeepsTimestamps(ptss, outs) && StrictlyIncreasing(Present(outs)) <==> RunAdvances(Present(ptss), tb)
  {
    hide Mangle, After, MangleAll, RunAdvances, AllPts, KeepsTimestamps, Present, StrictlyIncreasing;
    PresentArePts(ptss);
    PresentIncreasesIff(Present(ptss), tb);
    if RunAdvances(Present(ptss), tb) {
      AbsentPassThrough(ptss, tb);
    }
    if KeepsTimestamps(ptss, MangleAll(FRESH, ptss, tb)) {
      KeptPassesThrough(ptss, tb);
    }
  }

  lemma {:induction false} PresentOfAll(ins: seq<int>)
    requires AllPts(ins)
    ensures Present(ins) == ins
    decreases |ins|
  {
    if ins != [] {
      PresentOfAll(ins[..|ins| - 1]);
    }
  }
}
