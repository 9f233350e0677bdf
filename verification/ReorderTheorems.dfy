/** What the reorder buffer does to whole runs, for every way of breaking ties. */
module ReorderTheorems {
  import opened Wrappers
  import opened Reorder

  // ----- Runs -------------------------------------------------------------

  /** The states between the calls of a run and what each call returned. */
  datatype Run = Run(heaps: seq<multiset<Frame>>, nexts: seq<Option<int>>, outs: seq<seq<Frame>>)

  /** `run` is a possible history of a fresh buffer that was pushed `frames`. */
  ghost predicate IsRun(frames: seq<Frame>, run: Run) {
    && |run.heaps| == |frames| + 1 && |run.nexts| == |frames| + 1 && |run.outs| == |frames|
    && run.heaps[0] == multiset{} && run.nexts[0] == None
    && forall i: nat | i < |frames| :: StepAt(frames, run, i)
  }

  ghost predicate StepAt(frames: seq<Frame>, run: Run, i: nat)
    requires i < |frames| && |run.heaps| == |run.nexts| == |frames| + 1 && |run.outs| == |frames|
  {
    PushStep(run.heaps[i], run.nexts[i], frames[i], run.outs[i], run.heaps[i + 1], run.nexts[i + 1])
  }

  ghost function Flat(outs: seq<seq<Frame>>): seq<Frame> {
    if outs == [] then [] else Flat(outs[..|outs| - 1]) + outs[|outs| - 1]
  }

  lemma FlatStep(outs: seq<seq<Frame>>, n: nat)
    requires 0 < n <= |outs|
    ensures Flat(outs[..n]) == Flat(outs[..n - 1]) + outs[n - 1]
  {
    assert outs[..n][..n - 1] == outs[..n - 1];
  }

  // ----- Counting ---------------------------------------------------------

  lemma {:induction false} CountFromMultiset(s: seq<Frame>, h: multiset<Frame>, p: int)
    requires h <= multiset(s) && AllFrom(h, p)
    ensures CountFrom(s, p) >= |h|
    decreases |s|
  {
    if s != [] {
      var last := s[|s| - 1];
      assert s == s[..|s| - 1] + [last];
      if last in h {
        CountFromMultiset(s[..|s| - 1], h - multiset{last}, p);
      } else {
        CountFromMultiset(s[..|s| - 1], h, p);
      }
    }
  }

  lemma {:induction false} CountFromAntitone(s: seq<Frame>, p: int, q: int)
    requires p <= q
    ensures CountFrom(s, p) >= CountFrom(s, q)
    decreases |s|
  {
    if s != [] {
      CountFromAntitone(s[..|s| - 1], p, q);
    }
  }

  // ----- Bounded disorder is repaired -------------------------------------

  /** Everything emitted is in order, below everything buffered, and was backed
      by more than `MIN_BUFFER_DEPTH` frames that are not earlier. */
  ghost predicate Repaired(pushed: seq<Frame>, emitted: seq<Frame>, heap: multiset<Frame>) {
    && multiset(pushed) == multiset(emitted) + heap
    && Sorted(emitted)
    && forall i | 0 <= i < |emitted| :: Backed(pushed, heap, emitted[i].pts)
  }

  ghost predicate Backed(pushed: seq<Frame>, heap: multiset<Frame>, p: int) {
    AllFrom(heap, p) && CountFrom(pushed, p) > MIN_BUFFER_DEPTH
  }

  lemma ArriveRepaired(pushed: seq<Frame>, emitted: seq<Frame>, heap: multiset<Frame>, f: Frame)
    requires Repaired(pushed, emitted, heap)
    requires CountFrom(pushed, f.pts + 1) <= MIN_BUFFER_DEPTH
    ensures Repaired(pushed + [f], emitted, heap + multiset{f})
  {
    assert (pushed + [f])[..|pushed|] == pushed;
    forall i | 0 <= i < |emitted|
      ensures Backed(pushed + [f], heap + multiset{f}, emitted[i].pts)
    {
      assert Backed(pushed, heap, emitted[i].pts);
      if f.pts < emitted[i].pts {
        CountFromAntitone(pushed, f.pts + 1, emitted[i].pts);
      }
    }
  }

  lemma EmitRepaired(pushed: seq<Frame>, emitted: seq<Frame>, heap: multiset<Frame>, m: Frame)
    requires Repaired(pushed, emitted, heap)
    requires IsMin(m, heap) && |heap| > MIN_BUFFER_DEPTH
    ensures Repaired(pushed, emitted + [m], heap - multiset{m})
  {
    var longer, rest := emitted + [m], heap - multiset{m};
    assert CountFrom(pushed, m.pts) > MIN_BUFFER_DEPTH by {
      assert heap <= multiset(pushed);
      CountFromMultiset(pushed, heap, m.pts);
    }
    forall i | 0 <= i < |longer|
      ensures longer[i].pts <= m.pts && Backed(pushed, rest, longer[i].pts)
    {
      assert i < |emitted| ==> Backed(pushed, heap, emitted[i].pts);
    }
    hide CountFrom, Backed;
    assert multiset(longer) == multiset(emitted) + multiset{m};
  }

  lemma {:induction false} EmitAllRepaired(pushed: seq<Frame>, emitted: seq<Frame>, all: multiset<Frame>,
                                           next: Option<int>, out: seq<Frame>, k: nat)
    requires Repaired(pushed, emitted, all) && EmitsInOrder(all, next, out) && k <= |out|
    ensures Repaired(pushed, emitted + out[..k], all - multiset(out[..k]))
    decreases k
  {
    hide Repaired, Sorted;
    if k == 0 {
      assert emitted + out[..0] == emitted && all - multiset(out[..0]) == all;
    } else {
      EmitAllRepaired(pushed, emitted, all, next, out, k - 1);
      assert EmitAt(all, next, out, k - 1);
      var left := all - multiset(out[..k - 1]);
      EmitRepaired(pushed, emitted + out[..k - 1], left, out[k - 1]);
      assert out[..k] == out[..k - 1] + [out[k - 1]];
      assert emitted + out[..k] == emitted + out[..k - 1] + [out[k - 1]];
      assert all - multiset(out[..k]) == left - multiset{out[k - 1]};
    }
  }

  lemma PushRepaired(pushed: seq<Frame>, emitted: seq<Frame>, heap: multiset<Frame>, next: Option<int>,
                     f: Frame, out: seq<Frame>, heap': multiset<Frame>, next': Option<int>)
    requires Repaired(pushed, emitted, heap) && PushStep(heap, next, f, out, heap', next')
    requires CountFrom(pushed, f.pts + 1) <= MIN_BUFFER_DEPTH
    ensures Repaired(pushed + [f], emitted + out, heap')
  {
    var all := heap + multiset{f};
    ArriveRepaired(pushed, emitted, heap, f);
    if EmitsInOrder(all, next, out) {
      EmitAllRepaired(pushed + [f], emitted, all, next, out, |out|);
      assert out[..|out|] == out;
    } else {
      assert out == [out[0]];
      EmitRepaired(pushed + [f], emitted, all, out[0]);
    }
  }

  lemma StepRepaired(frames: seq<Frame>, n: nat, emitted: seq<Frame>, heap: multiset<Frame>, next: Option<int>,
                     out: seq<Frame>, heap': multiset<Frame>, next': Option<int>)
    requires n < |frames| && Disorder(frames, n) <= MIN_BUFFER_DEPTH
    requires Repaired(frames[..n], emitted, heap)
    requires PushStep(heap, next, frames[n], out, heap', next')
    ensures Repaired(frames[..n + 1], emitted + out, heap')
  {
    hide Repaired, PushStep, CountFrom;
    PushRepaired(frames[..n], emitted, heap, next, frames[n], out, heap', next');
    assert frames[..n + 1] == frames[..n] + [frames[n]];
  }

  lemma {:induction false} RunRepaired(frames: seq<Frame>, run: Run, n: nat)
    requires IsRun(frames, run) && n <= |frames|
    requires BoundedDisorder(frames, MIN_BUFFER_DEPTH)
    ensures Repaired(frames[..n], Flat(run.outs[..n]), run.heaps[n])
    decreases n
  {
    if n == 0 {
      hide PushStep, Disorder;
      assert run.outs[..0] == [] && frames[..0] == [] && run.heaps[0] == multiset{};
    } else {
      hide Repaired, PushStep, Sorted, Flat, Disorder;
      RunRepaired(frames, run, n - 1);
      assert StepAt(frames, run, n - 1);
      StepRepaired(frames, n - 1, Flat(run.outs[..n - 1]), run.heaps[n - 1], run.nexts[n - 1],
                   run.outs[n - 1], run.heaps[n], run.nexts[n]);
      FlatStep(run.outs, n);
    }
  }

  /** If no frame is preceded by more than four frames of later timestamps, then what
      all pushes emit, followed by the flush, is the whole input in presentation order. */
  lemma BoundedDisorderIsRepaired(frames: seq<Frame>, run: Run, tail: seq<Frame>)
    requires IsRun(frames, run) && DrainsTo(run.heaps[|frames|], tail)
    requires BoundedDisorder(frames, MIN_BUFFER_DEPTH)
    ensures multiset(Flat(run.outs) + tail) == multiset(frames)
    ensures Sorted(Flat(run.outs) + tail)
  {
    RunRepaired(frames, run, |frames|);
    assert frames[..|frames|] == frames && run.outs[..|frames|] == run.outs;
    forall i | 0 <= i < |tail|
      ensures tail[i] in run.heaps[|frames|]
    {
      assert tail[i] in multiset(tail);
    }
  }

  // ----- Conservation and bounded memory, for any input ---------------------

  lemma {:induction false} EmittedWithin(all: multiset<Frame>, next: Option<int>, out: seq<Frame>, k: nat)
    requires EmitsInOrder(all, next, out) && k <= |out|
    ensures multiset(out[..k]) <= all
    decreases k
  {
    if k > 0 {
      EmittedWithin(all, next, out, k - 1);
      assert EmitAt(all, next, out, k - 1);
      assert out[..k] == out[..k - 1] + [out[k - 1]];
    }
  }

  lemma PushConserves(heap: multiset<Frame>, next: Option<int>, f: Frame, out: seq<Frame>,
                      heap': multiset<Frame>, next': Option<int>)
    requires PushStep(heap, next, f, out, heap', next')
    ensures heap + multiset{f} == multiset(out) + heap'
    ensures |heap| <= FRAME_REORDER_BUFFER_SIZE ==> |heap'| <= FRAME_REORDER_BUFFER_SIZE
  {
    var all := heap + multiset{f};
    if EmitsInOrder(all, next, out) {
      EmittedWithin(all, next, out, |out|);
      assert out[..|out|] == out;
    } else {
      assert out == [out[0]];
    }
  }

  /** Whatever arrives: nothing is lost, invented or kept beyond sixteen frames. */
  lemma {:induction false} RunConserves(frames: seq<Frame>, run: Run, n: nat)
    requires IsRun(frames, run) && n <= |frames|
    ensures multiset(frames[..n]) == multiset(Flat(run.outs[..n])) + run.heaps[n]
    ensures |run.heaps[n]| <= FRAME_REORDER_BUFFER_SIZE
    decreases n
  {
    if n == 0 {
      assert run.outs[..0] == [] && frames[..0] == [];
    } else {
      hide PushStep, Flat;
      RunConserves(frames, run, n - 1);
      assert StepAt(frames, run, n - 1);
      PushConserves(run.heaps[n - 1], run.nexts[n - 1], frames[n - 1], run.outs[n - 1], run.heaps[n], run.nexts[n]);
      assert frames[..n] == frames[..n - 1] + [frames[n - 1]];
      FlatStep(run.outs, n);
    }
  }

  // ----- When a push lets something go ----------------------------------------

  /** The buffer expects what follows the last frame that has left. */
  lemma {:induction false} ExpectsNext(frames: seq<Frame>, run: Run, n: nat)
    requires IsRun(frames, run) && n <= |frames|
    ensures run.nexts[n] == NextAfter(None, Flat(run.outs[..n]))
    decreases n
  {
    hide PushStep, Flat;
    if n == 0 {
      NothingFlat(run.outs);
    } else {
      ExpectsNext(frames, run, n - 1);
      FlatStep(run.outs, n);
      assert StepAt(frames, run, n - 1);
      StepExpects(run.heaps[n - 1], run.nexts[n - 1], frames[n - 1], run.outs[n - 1], run.heaps[n], run.nexts[n]);
    }
  }

  lemma NothingFlat(outs: seq<seq<Frame>>)
    ensures Flat(outs[..0]) == []
  {}

  lemma StepExpects(h: multiset<Frame>, next: Option<int>, f: Frame, out: seq<Frame>,
                    h': multiset<Frame>, next': Option<int>)
    requires PushStep(h, next, f, out, h', next')
    ensures next' == NextAfter(next, out)
  {}

  /** Some frame of `h` is due once `gone` has left: nothing left before, or the frame starts no
      later than the last one ended. */
  ghost predicate IsDue(gone: seq<Frame>, h: multiset<Frame>) {
    gone == [] || exists g | g in h :: g.pts <= gone[|gone| - 1].pts + gone[|gone| - 1].duration
  }

  /** For any input, a push lets something go if and only if more than four frames are buffered and
      one is due, or the buffer is over its limit; and except in the latter case it goes on until
      that is no longer so. */
  lemma PushReleasesIff(frames: seq<Frame>, run: Run, n: nat)
    requires IsRun(frames, run) && n < |frames|
    ensures var all := run.heaps[n] + multiset{frames[n]};
            run.outs[n] != [] <==>
              || (|all| > MIN_BUFFER_DEPTH && IsDue(Flat(run.outs[..n]), all)) || |all| > FRAME_REORDER_BUFFER_SIZE
    ensures var all := run.heaps[n] + multiset{frames[n]};
            |all| <= FRAME_REORDER_BUFFER_SIZE || IsDue(Flat(run.outs[..n]), all) ==>
              |run.heaps[n + 1]| <= MIN_BUFFER_DEPTH || !IsDue(Flat(run.outs[..n + 1]), run.heaps[n + 1])
  {
    hide EmitsInOrder, IsMin, Flat;
    ExpectsNext(frames, run, n);
    ExpectsNext(frames, run, n + 1);
    assert StepAt(frames, run, n);
    var all := run.heaps[n] + multiset{frames[n]};
    if run.outs[n] != [] && EmitsInOrder(all, run.nexts[n], run.outs[n]) {
      FirstEmission(all, run.nexts[n], run.outs[n]);
    }
    if run.outs[n] == [] {
      assert run.heaps[n + 1] == all;
    }
  }

  // ----- Constant latency on gap-free video ---------------------------------

  /** Every frame lasts exactly until the next one is presented. */
  ghost predicate GapFree(s: seq<Frame>) {
    && (forall i | 0 <= i < |s| :: s[i].duration > 0)
    && forall i | 0 <= i < |s| - 1 :: s[i + 1].pts == s[i].pts + s[i].duration
  }

  lemma {:induction false} GapFreeIsSorted(s: seq<Frame>, i: nat, j: nat)
    requires GapFree(s) && i < j < |s|
    ensures s[i].pts < s[j].pts
    decreases j - i
  {
    assert s[j].pts == s[j - 1].pts + s[j - 1].duration;
    if i < j - 1 {
      GapFreeIsSorted(s, i, j - 1);
    }
  }

  lemma GapFreeIsStrict(s: seq<Frame>)
    requires GapFree(s)
    ensures StrictlySorted(s)
  {
    forall i, j | 0 <= i < j < |s| ensures s[i].pts < s[j].pts {
      GapFreeIsSorted(s, i, j);
    }
  }

  lemma {:induction false} StrictMultiplicity(s: seq<Frame>, g: Frame)
    requires StrictlySorted(s)
    ensures multiset(s)[g] <= 1
    decreases |s|
  {
    if s != [] {
      var init := s[..|s| - 1];
      assert s == init + [s[|s| - 1]];
      StrictMultiplicity(init, g);
      assert forall i | 0 <= i < |init| :: init[i] == s[i] && s[i].pts < s[|s| - 1].pts;
      assert s[|s| - 1] !in init;
    }
  }

  /** Number of frames that have left the buffer after `n` pushes. */
  function Released(n: nat): nat {
    if n < MIN_BUFFER_DEPTH then 0 else n - MIN_BUFFER_DEPTH
  }

  /** After `n` pushes exactly the first `Released(n)` frames of the show `s` have left. */
  ghost predicate Steady(s: seq<Frame>, frames: seq<Frame>, n: nat, heap: multiset<Frame>, next: Option<int>)
    requires n <= |frames| == |s|
  {
    var k := Released(n);
    && multiset(s[..k]) + heap == multiset(frames[..n])
    && next == if k == 0 then None else Some(s[k - 1].pts + s[k - 1].duration)
  }

  /** A buffered frame is one of the show that has not left yet. */
  lemma BufferedIsPending(s: seq<Frame>, frames: seq<Frame>, n: nat, all: multiset<Frame>, k: nat, g: Frame)
    requires StrictlySorted(s) && multiset(s) == multiset(frames)
    requires n <= |frames| && k <= |s| && multiset(s[..k]) + all == multiset(frames[..n])
    requires g in all
    ensures exists j :: k <= j < |s| && s[j] == g
  {
    assert frames == frames[..n] + frames[n..];
    assert g in multiset(frames);
    assert g in multiset(s);
    var j :| 0 <= j < |s| && s[j] == g;
    if j < k {
      assert s[..k][j] == g;
      assert multiset(s[..k])[g] >= 1;
      StrictMultiplicity(s, g);
    }
  }

  lemma AlreadyGone(s: seq<Frame>, k: nat)
    requires StrictlySorted(s) && k < |s|
    ensures s[k] !in multiset(s[..k])
  {
    assert forall i | 0 <= i < k :: s[i].pts < s[k].pts;
  }

  /** A frame of the show that has neither left nor is buffered arrives later. */
  lemma StillToCome(s: seq<Frame>, frames: seq<Frame>, n: nat, all: multiset<Frame>, k: nat) returns (m: nat)
    requires StrictlySorted(s) && multiset(s) == multiset(frames)
    requires n <= |frames| && k < |s| && multiset(s[..k]) + all == multiset(frames[..n])
    requires s[k] !in all
    ensures n <= m < |frames| && frames[m] == s[k]
  {
    assert s[k] in multiset(frames);
    m :| 0 <= m < |frames| && frames[m] == s[k];
    AlreadyGone(s, k);
    assert s[k] !in multiset(s[..k]) + all;
    assert forall j | 0 <= j < n :: frames[..n][j] == frames[j] && frames[j] in multiset(frames[..n]);
  }

  /** Everything buffered is then presented after it. */
  lemma BufferedIsLater(s: seq<Frame>, frames: seq<Frame>, n: nat, all: multiset<Frame>, k: nat, g: Frame)
    requires StrictlySorted(s) && multiset(s) == multiset(frames)
    requires n <= |frames| && k < |s| && multiset(s[..k]) + all == multiset(frames[..n])
    requires s[k] !in all && g in all
    ensures s[k].pts + 1 <= g.pts
  {
    BufferedIsPending(s, frames, n, all, k, g);
  }

  lemma DisorderAt(frames: seq<Frame>, bound: nat, m: nat)
    requires BoundedDisorder(frames, bound) && m < |frames|
    ensures CountFrom(frames[..m], frames[m].pts + 1) <= bound
  {
    assert Disorder(frames, m) <= bound;
  }

  /** With more frames buffered than the disorder allows, the next frame of the show is among them. */
  lemma NextIsBuffered(s: seq<Frame>, frames: seq<Frame>, n: nat, all: multiset<Frame>, k: nat, bound: nat)
    requires StrictlySorted(s) && multiset(s) == multiset(frames)
    requires BoundedDisorder(frames, bound)
    requires n <= |frames| && k < |s| && multiset(s[..k]) + all == multiset(frames[..n])
    requires |all| > bound
    ensures s[k] in all
  {
    hide StrictlySorted, CountFrom, BoundedDisorder, Disorder;
    if s[k] !in all {
      var m := StillToCome(s, frames, n, all, k);
      forall g | g in all ensures s[k].pts + 1 <= g.pts { BufferedIsLater(s, frames, n, all, k, g); }
      assert frames[..m] == frames[..n] + frames[n..m];
      CountFromMultiset(frames[..m], all, s[k].pts + 1);
      DisorderAt(frames, bound, m);
    }
  }

  lemma NextIsMin(s: seq<Frame>, frames: seq<Frame>, n: nat, all: multiset<Frame>, k: nat, g: Frame)
    requires StrictlySorted(s) && multiset(s) == multiset(frames)
    requires n <= |frames| && k < |s| && multiset(s[..k]) + all == multiset(frames[..n])
    requires s[k] in all && IsMin(g, all)
    ensures g == s[k]
  {
    BufferedIsPending(s, frames, n, all, k, g);
  }

  lemma FirstEmission(all: multiset<Frame>, next: Option<int>, out: seq<Frame>)
    requires EmitsInOrder(all, next, out) && |out| > 0
    ensures GateOpen(all, next) && IsMin(out[0], all)
  {
    assert EmitAt(all, next, out, 0);
    assert out[..0] == [] && all - multiset(out[..0]) == all;
  }

  lemma SecondEmission(all: multiset<Frame>, next: Option<int>, out: seq<Frame>)
    requires EmitsInOrder(all, next, out) && |out| > 1
    ensures |all| > MIN_BUFFER_DEPTH + 1
  {
    FirstEmission(all, next, out);
    assert EmitAt(all, next, out, 1);
    assert out[..1] == [out[0]];
    assert |all - multiset{out[0]}| == |all| - 1;
  }

  /** Five buffered frames of which the least is the next of the show: exactly that one leaves. */
  lemma ReleaseOne(all: multiset<Frame>, next: Option<int>, m: Frame, out: seq<Frame>,
                   heap: multiset<Frame>, f: Frame, heap': multiset<Frame>, next': Option<int>)
    requires all == heap + multiset{f} && |all| == MIN_BUFFER_DEPTH + 1
    requires PushStep(heap, next, f, out, heap', next')
    requires m in all && (forall g | IsMin(g, all) :: g == m)
    requires next.None? || m.pts <= next.value
    ensures out == [m]
  {
    assert GateOpen(all, next);
    assert EmitsInOrder(all, next, out);
    assert out == [] ==> all - multiset(out) == all;
    if |out| > 1 {
      SecondEmission(all, next, out);
    } else {
      FirstEmission(all, next, out);
    }
  }

  lemma QuietPush(all: multiset<Frame>, next: Option<int>, out: seq<Frame>,
                  heap: multiset<Frame>, f: Frame, heap': multiset<Frame>, next': Option<int>)
    requires all == heap + multiset{f} && |all| <= MIN_BUFFER_DEPTH
    requires PushStep(heap, next, f, out, heap', next')
    ensures out == []
  {
    assert EmitsInOrder(all, next, out);
    if out != [] {
      FirstEmission(all, next, out);
    }
  }

  lemma SteadyArrival(s: seq<Frame>, frames: seq<Frame>, n: nat, heap: multiset<Frame>, next: Option<int>)
    requires n < |frames| == |s| && Steady(s, frames, n, heap, next)
    ensures multiset(s[..Released(n)]) + (heap + multiset{frames[n]}) == multiset(frames[..n + 1])
    ensures |heap + multiset{frames[n]}| == n + 1 - Released(n)
  {
    assert frames[..n + 1] == frames[..n] + [frames[n]];
    SteadySize(s, frames, n, heap, next);
  }

  lemma SteadyDeparture(s: seq<Frame>, frames: seq<Frame>, n: nat, all: multiset<Frame>, next: Option<int>,
                        out: seq<Frame>)
    requires n < |frames| == |s| && multiset(s[..Released(n)]) + all == multiset(frames[..n + 1])
    requires next == if Released(n) == 0 then None else Some(s[Released(n) - 1].pts + s[Released(n) - 1].duration)
    requires out == s[Released(n)..Released(n + 1)] && multiset(out) <= all
    ensures Steady(s, frames, n + 1, all - multiset(out), NextAfter(next, out))
  {
    assert s[..Released(n + 1)] == s[..Released(n)] + out;
  }

  lemma SteadyPush(s: seq<Frame>, frames: seq<Frame>, n: nat, heap: multiset<Frame>, next: Option<int>,
                   out: seq<Frame>, heap': multiset<Frame>, next': Option<int>)
    requires GapFree(s) && StrictlySorted(s) && multiset(s) == multiset(frames)
    requires BoundedDisorder(frames, MIN_BUFFER_DEPTH)
    requires n < |frames| == |s| && Steady(s, frames, n, heap, next)
    requires PushStep(heap, next, frames[n], out, heap', next')
    ensures Steady(s, frames, n + 1, heap', next')
    ensures out == s[Released(n)..Released(n + 1)]
  {
    var k, all := Released(n), heap + multiset{frames[n]};
    SteadyArrival(s, frames, n, heap, next);
    if n < MIN_BUFFER_DEPTH {
      QuietPush(all, next, out, heap, frames[n], heap', next');
    } else {
      SteadyRelease(s, frames, n, all, next);
      ReleaseOne(all, next, s[k], out, heap, frames[n], heap', next');
    }
    assert out == s[k..Released(n + 1)];
    SteadyDeparture(s, frames, n, all, next, out);
  }

  lemma SteadyRelease(s: seq<Frame>, frames: seq<Frame>, n: nat, all: multiset<Frame>, next: Option<int>)
    requires GapFree(s) && StrictlySorted(s) && multiset(s) == multiset(frames)
    requires BoundedDisorder(frames, MIN_BUFFER_DEPTH)
    requires MIN_BUFFER_DEPTH <= n < |frames| == |s| && |all| > MIN_BUFFER_DEPTH
    requires multiset(s[..Released(n)]) + all == multiset(frames[..n + 1])
    requires next == if Released(n) == 0 then None else Some(s[Released(n) - 1].pts + s[Released(n) - 1].duration)
    ensures var m := s[Released(n)];
            m in all && (next.None? || m.pts <= next.value) && (forall g | IsMin(g, all) :: g == m)
  {
    NextIsBuffered(s, frames, n + 1, all, Released(n), MIN_BUFFER_DEPTH);
    forall g | IsMin(g, all) ensures g == s[Released(n)] {
      NextIsMin(s, frames, n + 1, all, Released(n), g);
    }
  }

  lemma SteadySize(s: seq<Frame>, frames: seq<Frame>, n: nat, heap: multiset<Frame>, next: Option<int>)
    requires n <= |frames| == |s| && Steady(s, frames, n, heap, next)
    ensures |heap| == n - Released(n)
  {
    assert |multiset(s[..Released(n)])| + |heap| == |multiset(frames[..n])|;
  }

  lemma SteadyInit(s: seq<Frame>, frames: seq<Frame>)
    requires |frames| == |s|
    ensures Steady(s, frames, 0, multiset{}, None)
  {
    assert s[..0] == frames[..0] == [];
  }

  lemma {:induction false} SteadyRun(s: seq<Frame>, frames: seq<Frame>, run: Run, n: nat)
    requires GapFree(s) && multiset(s) == multiset(frames)
    requires BoundedDisorder(frames, MIN_BUFFER_DEPTH)
    requires IsRun(frames, run) && n <= |frames| == |s|
    ensures Steady(s, frames, n, run.heaps[n], run.nexts[n])
    ensures n > 0 ==> run.outs[n - 1] == s[Released(n - 1)..Released(n)]
    decreases n
  {
    hide PushStep, GapFree, StrictlySorted, BoundedDisorder, Steady;
    if n == 0 {
      SteadyInit(s, frames);
    } else {
      SteadyRun(s, frames, run, n - 1);
      assert StepAt(frames, run, n - 1);
      GapFreeIsStrict(s);
      SteadyPush(s, frames, n - 1, run.heaps[n - 1], run.nexts[n - 1], run.outs[n - 1], run.heaps[n], run.nexts[n]);
    }
  }

  /** Gap-free video that arrives with at most four frames of disorder is released one frame
      per push with a lag of exactly four: after `n` pushes the buffer holds min(n, 4) frames
      and the emitted frames are the first n - 4 of the show. */
  lemma {:induction false} ConstantLatency(s: seq<Frame>, frames: seq<Frame>, run: Run, n: nat)
    requires GapFree(s) && multiset(s) == multiset(frames)
    requires BoundedDisorder(frames, MIN_BUFFER_DEPTH)
    requires IsRun(frames, run) && n <= |frames| == |s|
    ensures Flat(run.outs[..n]) == s[..Released(n)]
    ensures |run.heaps[n]| == if n < MIN_BUFFER_DEPTH then n else MIN_BUFFER_DEPTH
    decreases n
  {
    hide PushStep, GapFree, StrictlySorted, BoundedDisorder, Steady;
    SteadyRun(s, frames, run, n);
    SteadySize(s, frames, n, run.heaps[n], run.nexts[n]);
    if n == 0 {
      assert run.outs[..0] == [];
    } else {
      ConstantLatency(s, frames, run, n - 1);
      FlatStep(run.outs, n);
    }
  }

  // ----- Sorted permutations of a strict order ------------------------------

  lemma SameLast(s: seq<Frame>, t: seq<Frame>)
    requires StrictlySorted(s) && Sorted(t) && multiset(s) == multiset(t)
    requires |s| == |t| > 0
    ensures s[|s| - 1] == t[|t| - 1]
  {
    var n := |s| - 1;
    assert s[n] in multiset(t) && t[n] in multiset(s);
    var i :| 0 <= i <= n && s[i] == t[n];
    var j :| 0 <= j <= n && t[j] == s[n];
    assert t[j].pts <= t[n].pts;
  }

  lemma DropLast(s: seq<Frame>)
    requires s != []
    ensures s == s[..|s| - 1] + [s[|s| - 1]]
    ensures multiset(s[..|s| - 1]) == multiset(s) - multiset{s[|s| - 1]}
    ensures Sorted(s) ==> Sorted(s[..|s| - 1])
    ensures StrictlySorted(s) ==> StrictlySorted(s[..|s| - 1])
  {
    assert s == s[..|s| - 1] + [s[|s| - 1]];
  }

  lemma {:induction false} StrictOrderIsUnique(s: seq<Frame>, t: seq<Frame>)
    requires StrictlySorted(s) && Sorted(t) && multiset(s) == multiset(t)
    ensures s == t
    decreases |s|
  {
    hide Sorted, StrictlySorted;
    assert |s| == |multiset(s)| == |multiset(t)| == |t|;
    if s != [] {
      SameLast(s, t);
      DropLast(s);
      DropLast(t);
      StrictOrderIsUnique(s[..|s| - 1], t[..|t| - 1]);
    }
  }
}
