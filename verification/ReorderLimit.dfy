/** How much disorder the reorder buffer really repairs on gap-free video: the gate waits for the
    frame that is due, so the limit is the size of the buffer, not the depth it releases at. */
module ReorderLimit {
  import opened Wrappers
  import opened Reorder
  import opened ReorderTheorems

  /** The timestamp expected once the first `k` frames of the show have left. */
  function Due(s: seq<Frame>, k: nat): Option<int>
    requires k <= |s|
  {
    if k == 0 then None else Some(s[k - 1].pts + s[k - 1].duration)
  }

  /** `all` is what has arrived of the show and has not left. */
  ghost predicate Left(s: seq<Frame>, frames: seq<Frame>, n: nat, k: nat, all: multiset<Frame>) {
    && GapFree(s) && multiset(s) == multiset(frames) && n <= |frames| && k <= |s|
    && multiset(s[..k]) + all == multiset(frames[..n])
  }

  // ----- The buffer keeps the order -------------------------------------------

  /** The least buffered frame, if it is due, is the next one of the show. */
  lemma DueIsNext(s: seq<Frame>, frames: seq<Frame>, n: nat, k: nat, all: multiset<Frame>, f: Frame)
    requires k <= |s| && Left(s, frames, n, k, all) && IsMin(f, all)
    requires GateOpen(all, Due(s, k)) && (k == 0 ==> s != [] && s[0] in all)
    ensures k < |s| && f == s[k]
  {
    GapFreeIsStrict(s);
    BufferedIsPending(s, frames, n, all, k, f);
    if k > 0 {
      assert s[k].pts == s[k - 1].pts + s[k - 1].duration;
    }
  }

  lemma LeftLess(s: seq<Frame>, frames: seq<Frame>, n: nat, k: nat, j: nat, all: multiset<Frame>)
    requires Left(s, frames, n, k, all) && k + j <= |s| && multiset(s[k..k + j]) <= all
    ensures Left(s, frames, n, k + j, all - multiset(s[k..k + j]))
  {
    assert s[..k + j] == s[..k] + s[k..k + j];
  }

  /** What the gated loop emits continues the show. */
  lemma {:induction false} EmitsShow(s: seq<Frame>, frames: seq<Frame>, n: nat, k: nat, all: multiset<Frame>,
                                     out: seq<Frame>, j: nat)
    requires k <= |s| && Left(s, frames, n, k, all) && EmitsInOrder(all, Due(s, k), out) && j <= |out|
    requires k == 0 && out != [] ==> s != [] && s[0] in all
    ensures k + j <= |s| && out[..j] == s[k..k + j]
    decreases j
  {
    hide GateOpen, IsMin, Left, GapFree, EmitsInOrder;
    if j > 0 {
      EmitsShow(s, frames, n, k, all, out, j - 1);
      EmittedWithin(all, Due(s, k), out, j - 1);
      LeftLess(s, frames, n, k, j - 1, all);
      EmitNext(s, frames, n, k, all, out, j - 1);
      assert out[..j] == out[..j - 1] + [out[j - 1]];
      assert s[k..k + j] == s[k..k + j - 1] + [s[k + j - 1]];
    }
  }

  lemma EmitNext(s: seq<Frame>, frames: seq<Frame>, n: nat, k: nat, all: multiset<Frame>, out: seq<Frame>, i: nat)
    requires k + i <= |s| && i < |out| && out[..i] == s[k..k + i] && EmitsInOrder(all, Due(s, k), out)
    requires Left(s, frames, n, k + i, all - multiset(out[..i]))
    requires k == 0 ==> s != [] && s[0] in all
    ensures k + i < |s| && out[i] == s[k + i]
  {
    hide GateOpen, IsMin, Left;
    assert EmitAt(all, Due(s, k), out, i);
    assert NextAfter(Due(s, k), out[..i]) == Due(s, k + i);
    assert i == 0 ==> all - multiset(out[..i]) == all;
    DueIsNext(s, frames, n, k + i, all - multiset(out[..i]), out[i]);
  }

  /** A full buffer that holds the frame that is due never uses the safety valve. */
  lemma GateIsOpen(s: seq<Frame>, frames: seq<Frame>, n: nat, k: nat, all: multiset<Frame>)
    requires k <= |s| && Left(s, frames, n, k, all) && BoundedDisorder(frames, FRAME_REORDER_BUFFER_SIZE)
    requires |all| > FRAME_REORDER_BUFFER_SIZE
    ensures GateOpen(all, Due(s, k))
  {
    hide BoundedDisorder;
    GapFreeIsStrict(s);
    assert |multiset(s[..k])| + |all| == |multiset(frames[..n])|;
    assert |multiset(s)| == |multiset(frames)|;
    NextIsBuffered(s, frames, n, all, k, FRAME_REORDER_BUFFER_SIZE);
    assert k > 0 ==> s[k].pts == s[k - 1].pts + s[k - 1].duration;
  }

  /** No push of such a run uses the valve. */
  lemma PushIsGated(s: seq<Frame>, frames: seq<Frame>, n: nat, k: nat, heap: multiset<Frame>, f: Frame, out: seq<Frame>,
                    heap': multiset<Frame>, next': Option<int>)
    requires k <= |s| && Left(s, frames, n, k, heap + multiset{f})
    requires BoundedDisorder(frames, FRAME_REORDER_BUFFER_SIZE)
    requires PushStep(heap, Due(s, k), f, out, heap', next')
    ensures EmitsInOrder(heap + multiset{f}, Due(s, k), out)
    ensures heap' == heap + multiset{f} - multiset(out) && next' == NextAfter(Due(s, k), out)
  {
    hide BoundedDisorder, Left, GateOpen, IsMin, EmitsInOrder;
    var all := heap + multiset{f};
    if |all| > FRAME_REORDER_BUFFER_SIZE {
      GateIsOpen(s, frames, n, k, all);
    }
  }

  lemma PushContinues(s: seq<Frame>, frames: seq<Frame>, n: nat, k: nat, all: multiset<Frame>, out: seq<Frame>)
    requires k <= |s| && Left(s, frames, n, k, all) && EmitsInOrder(all, Due(s, k), out)
    requires k == 0 && |all| > MIN_BUFFER_DEPTH ==> s != [] && s[0] in all
    ensures k + |out| <= |s| && out == s[k..k + |out|]
    ensures Left(s, frames, n, k + |out|, all - multiset(out)) && NextAfter(Due(s, k), out) == Due(s, k + |out|)
  {
    hide Left, IsMin, EmitsInOrder;
    if out != [] {
      FirstEmission(all, Due(s, k), out);
    }
    EmitsShow(s, frames, n, k, all, out, |out|);
    EmittedWithin(all, Due(s, k), out, |out|);
    assert out[..|out|] == out;
    LeftLess(s, frames, n, k, |out|, all);
  }

  /** The run lets go of the show frame by frame. */
  lemma {:induction false} RunKeepsOrder(s: seq<Frame>, frames: seq<Frame>, run: Run, n: nat) returns (k: nat)
    requires GapFree(s) && multiset(s) == multiset(frames) && IsRun(frames, run) && n <= |frames|
    requires BoundedDisorder(frames, FRAME_REORDER_BUFFER_SIZE)
    requires |frames| > MIN_BUFFER_DEPTH ==> s != [] && s[0] in frames[..MIN_BUFFER_DEPTH + 1]
    ensures k <= |s| && Left(s, frames, n, k, run.heaps[n])
    ensures Flat(run.outs[..n]) == s[..k] && run.nexts[n] == Due(s, k)
    decreases n
  {
    hide PushStep, BoundedDisorder, GapFree, Left;
    if n == 0 {
      k := 0;
      assert run.outs[..0] == [];
      NothingLeft(s, frames);
    } else {
      var k' := RunKeepsOrder(s, frames, run, n - 1);
      assert StepAt(frames, run, n - 1);
      var out := run.outs[n - 1];
      LeftArrives(s, frames, n - 1, k', run.heaps[n - 1]);
      var all := run.heaps[n - 1] + multiset{frames[n - 1]};
      if k' == 0 && |all| > MIN_BUFFER_DEPTH {
        FirstHasArrived(s, frames, n, all);
      }
      PushIsGated(s, frames, n, k', run.heaps[n - 1], frames[n - 1], out, run.heaps[n], run.nexts[n]);
      PushContinues(s, frames, n, k', all, out);
      k := k' + |out|;
      FlatStep(run.outs, n);
      assert s[..k] == s[..k'] + s[k'..k];
    }
  }

  lemma NothingLeft(s: seq<Frame>, frames: seq<Frame>)
    requires GapFree(s) && multiset(s) == multiset(frames)
    ensures Left(s, frames, 0, 0, multiset{})
  {
    assert s[..0] == [] && frames[..0] == [];
  }

  lemma LeftArrives(s: seq<Frame>, frames: seq<Frame>, n: nat, k: nat, heap: multiset<Frame>)
    requires Left(s, frames, n, k, heap) && n < |frames|
    ensures Left(s, frames, n + 1, k, heap + multiset{frames[n]})
  {
    assert frames[..n + 1] == frames[..n] + [frames[n]];
  }

  lemma FirstHasArrived(s: seq<Frame>, frames: seq<Frame>, n: nat, all: multiset<Frame>)
    requires Left(s, frames, n, 0, all) && |all| > MIN_BUFFER_DEPTH
    requires |frames| > MIN_BUFFER_DEPTH ==> s != [] && s[0] in frames[..MIN_BUFFER_DEPTH + 1]
    ensures s != [] && s[0] in all
  {
    assert s[..0] == [];
    assert |multiset(frames[..n])| == n;
    assert frames[..n] == frames[..MIN_BUFFER_DEPTH + 1] + frames[MIN_BUFFER_DEPTH + 1..n];
    assert s[0] in multiset(frames[..n]);
  }

  lemma TailContinues(s: seq<Frame>, frames: seq<Frame>, k: nat, heap: multiset<Frame>, tail: seq<Frame>)
    requires Left(s, frames, |frames|, k, heap) && DrainsTo(heap, tail)
    ensures Sorted(s[..k] + tail)
  {
    GapFreeIsStrict(s);
    forall i | 0 <= i < |tail| ensures exists j :: k <= j < |s| && s[j] == tail[i] {
      assert tail[i] in multiset(tail);
      BufferedIsPending(s, frames, |frames|, heap, k, tail[i]);
    }
  }

  // ----- Sorted output needs it ---------------------------------------------------

  /** Only frames from `p` on count. */
  lemma {:induction false} CountFromRest(t: seq<Frame>, rest: multiset<Frame>, p: int)
    requires forall f: Frame | f in multiset(t) && f.pts >= p :: multiset(t)[f] <= rest[f]
    ensures CountFrom(t, p) <= |rest|
    decreases |t|
  {
    if t != [] {
      var init, last := t[..|t| - 1], t[|t| - 1];
      assert t == init + [last];
      assert multiset(t) == multiset(init) + multiset{last};
      CountFromRest(init, if last.pts >= p then rest - multiset{last} else rest, p);
    }
  }

  lemma {:induction false} FlatPrefix(outs: seq<seq<Frame>>, n: nat, m: nat)
    requires n <= m <= |outs|
    ensures Flat(outs[..n]) <= Flat(outs[..m])
    decreases m
  {
    if n < m {
      FlatPrefix(outs, n, m - 1);
      FlatStep(outs, m);
    }
  }

  /** A frame of the show that is yet to come is presented after all that have left. */
  lemma LeftIsEarlier(s: seq<Frame>, frames: seq<Frame>, i: nat, k: nat, heap: multiset<Frame>)
    requires Left(s, frames, i, k, heap) && i < |frames|
    ensures forall g | g in multiset(s[..k]) :: g.pts < frames[i].pts
  {
    GapFreeIsStrict(s);
    assert frames[i] in multiset(s);
    var j :| 0 <= j < |s| && s[j] == frames[i];
    assert frames == frames[..i] + frames[i..] && frames[i] in multiset(frames[i..]);
    StrictMultiplicity(s, s[j]);
    assert s[j] !in multiset(frames[..i]);
    assert forall m | 0 <= m < k :: s[..k][m] == s[m] && s[m] in multiset(s[..k]);
  }

  lemma SortedNeedsRoom(s: seq<Frame>, frames: seq<Frame>, run: Run, i: nat)
    requires GapFree(s) && multiset(s) == multiset(frames) && IsRun(frames, run) && i < |frames|
    requires Flat(run.outs) <= s
    ensures Disorder(frames, i) <= FRAME_REORDER_BUFFER_SIZE
  {
    hide GapFree, PushStep, CountFrom, Flat;
    var k := PrefixLeft(s, frames, run, i);
    LeftIsEarlier(s, frames, i, k, run.heaps[i]);
    RunConserves(frames, run, i);
    CountFromRest(frames[..i], run.heaps[i], frames[i].pts + 1);
  }

  lemma PrefixLeft(s: seq<Frame>, frames: seq<Frame>, run: Run, n: nat) returns (k: nat)
    requires GapFree(s) && multiset(s) == multiset(frames) && IsRun(frames, run) && n <= |frames|
    requires Flat(run.outs) <= s
    ensures k <= |s| && Left(s, frames, n, k, run.heaps[n]) && k == |Flat(run.outs[..n])|
            && Flat(run.outs[..n]) == s[..k]
  {
    hide GapFree, PushStep, Flat;
    RunConserves(frames, run, n);
    FlatPrefix(run.outs, n, |frames|);
    assert run.outs[..|frames|] == run.outs;
    k := |Flat(run.outs[..n])|;
    assert Flat(run.outs[..n]) <= s;
    assert s[..k] == Flat(run.outs[..n]);
  }

  lemma {:induction false} NothingDue(frames: seq<Frame>, run: Run, n: nat)
    requires IsRun(frames, run) && n <= |frames| && Flat(run.outs[..n]) == []
    ensures run.nexts[n] == None
    decreases n
  {
    hide GateOpen, EmitsInOrder, IsMin;
    if n > 0 {
      FlatStep(run.outs, n);
      NothingDue(frames, run, n - 1);
      assert StepAt(frames, run, n - 1);
    }
  }

  /** The fifth push lets something go. */
  lemma FifthPushReleases(frames: seq<Frame>, run: Run)
    requires IsRun(frames, run) && |frames| > MIN_BUFFER_DEPTH
    ensures Flat(run.outs[..MIN_BUFFER_DEPTH + 1]) != []
  {
    var n := MIN_BUFFER_DEPTH + 1;
    RunConserves(frames, run, n);
    if Flat(run.outs[..n]) == [] {
      NothingDue(frames, run, n);
      assert StepAt(frames, run, n - 1);
      assert run.heaps[n] == multiset(frames[..n]);
      FlatStep(run.outs, n);
      assert GateOpen(run.heaps[n], run.nexts[n]);
    }
  }

  // ----- The exact limit --------------------------------------------------------------

  /** On gap-free video the output is in order if and only if no frame is preceded by more than
      sixteen later ones and the first frame of the show is among the first five to arrive. */
  lemma DisorderLimit(s: seq<Frame>, frames: seq<Frame>, run: Run, tail: seq<Frame>)
    requires GapFree(s) && multiset(s) == multiset(frames)
    requires IsRun(frames, run) && DrainsTo(run.heaps[|frames|], tail)
    ensures Sorted(Flat(run.outs) + tail)
       <==> && BoundedDisorder(frames, FRAME_REORDER_BUFFER_SIZE)
            && (|frames| <= MIN_BUFFER_DEPTH || s[0] in frames[..MIN_BUFFER_DEPTH + 1])
  {
    hide GapFree, PushStep, Flat, CountFrom, Disorder;
    var n := |frames|;
    assert run.outs[..n] == run.outs && frames[..n] == frames;
    if Sorted(Flat(run.outs) + tail) {
      RunConserves(frames, run, n);
      GapFreeIsStrict(s);
      StrictOrderIsUnique(s, Flat(run.outs) + tail);
      forall i | 0 <= i < n ensures Disorder(frames, i) <= FRAME_REORDER_BUFFER_SIZE {
        SortedNeedsRoom(s, frames, run, i);
      }
      if n > MIN_BUFFER_DEPTH {
        FirstInFive(s, frames, run);
      }
    }
    if BoundedDisorder(frames, FRAME_REORDER_BUFFER_SIZE)
       && (n <= MIN_BUFFER_DEPTH || s[0] in frames[..MIN_BUFFER_DEPTH + 1])
    {
      var k := RunKeepsOrder(s, frames, run, n);
      TailContinues(s, frames, k, run.heaps[n], tail);
    }
  }

  lemma FirstInFive(s: seq<Frame>, frames: seq<Frame>, run: Run)
    requires GapFree(s) && multiset(s) == multiset(frames) && IsRun(frames, run) && |frames| > MIN_BUFFER_DEPTH
    requires Flat(run.outs) <= s
    ensures s != [] && s[0] in frames[..MIN_BUFFER_DEPTH + 1]
  {
    hide GapFree, PushStep, Flat;
    var k := PrefixLeft(s, frames, run, MIN_BUFFER_DEPTH + 1);
    FifthPushReleases(frames, run);
    assert s[..k][0] == s[0] && s[0] in multiset(s[..k]);
    assert s[0] in multiset(frames[..MIN_BUFFER_DEPTH + 1]);
  }

  /** Five frames of disorder can be too many: if the first frame of six arrives last, a later
      one has left before it. */
  lemma FiveFramesOfDisorderAreNotRepaired(frames: seq<Frame>, run: Run, tail: seq<Frame>)
    requires |frames| == 6 && forall i | 0 <= i < 6 :: frames[i] == Frame((i + 1) % 6, 1, 0)
    requires IsRun(frames, run) && DrainsTo(run.heaps[6], tail)
    ensures BoundedDisorder(frames, MIN_BUFFER_DEPTH + 1)
    ensures !Sorted(Flat(run.outs) + tail)
  {
    forall i: nat | i < 6 ensures Disorder(frames, i) <= 5 {
      CountAtMostLength(frames[..i], frames[i].pts + 1);
    }
    hide IsRun, DrainsTo, Flat, BoundedDisorder, Disorder;
    var s := [frames[5]] + frames[..5];
    assert frames == frames[..5] + [frames[5]];
    DisorderLimit(s, frames, run, tail);
  }

  lemma {:induction false} CountAtMostLength(s: seq<Frame>, p: int)
    ensures CountFrom(s, p) <= |s|
    decreases |s|
  {
    if s != [] {
      CountAtMostLength(s[..|s| - 1], p);
    }
  }
}
