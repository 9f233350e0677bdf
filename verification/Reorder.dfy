/** The presentation-order buffer that sits between decoder and encoder
    (crates/core/src/reorder.rs).

    The source keeps a binary heap ordered by presentation timestamp.  Which of
    several equal timestamps a heap pops first is not specified, so here the
    heap is a multiset and a pop removes *some* minimum; every theorem below
    therefore holds however ties are broken.  Since the frames that came out
    determine what is left, a call of `Push` is specified by the relation
    `PushStep`, and whole runs by folding that relation. */
module Reorder {
  import opened Wrappers

  const FRAME_REORDER_BUFFER_SIZE := 16
  const MIN_BUFFER_DEPTH := 4

  /** A decoded frame: timestamps in ticks, the picture itself is opaque. */
  datatype Frame = Frame(pts: int, duration: int, image: nat)

  // ----- Vocabulary -------------------------------------------------------

  ghost predicate IsMin(f: Frame, h: multiset<Frame>) {
    f in h && forall g | g in h :: f.pts <= g.pts
  }

  ghost predicate AllFrom(h: multiset<Frame>, p: int) {
    forall g | g in h :: p <= g.pts
  }

  ghost predicate Sorted(s: seq<Frame>) {
    forall i, j | 0 <= i < j < |s| :: s[i].pts <= s[j].pts
  }

  ghost predicate StrictlySorted(s: seq<Frame>) {
    forall i, j | 0 <= i < j < |s| :: s[i].pts < s[j].pts
  }

  /** How many frames of `s` have a timestamp of at least `p`. */
  function CountFrom(s: seq<Frame>, p: int): nat {
    if s == [] then 0
    else CountFrom(s[..|s| - 1], p) + if p <= s[|s| - 1].pts then 1 else 0
  }

  /** How many earlier frames are presented strictly after frame `i`. */
  function Disorder(s: seq<Frame>, i: nat): nat
    requires i < |s|
  {
    CountFrom(s[..i], s[i].pts + 1)
  }

  ghost predicate BoundedDisorder(s: seq<Frame>, bound: nat) {
    forall i | 0 <= i < |s| :: Disorder(s, i) <= bound
  }

  // ----- Specification of one call ---------------------------------------

  /** The timestamp the buffer expects next once `out` was emitted. */
  function NextAfter(next: Option<int>, out: seq<Frame>): Option<int> {
    if out == [] then next else Some(out[|out| - 1].pts + out[|out| - 1].duration)
  }

  /** May the emitting loop pop another frame? */
  ghost predicate GateOpen(h: multiset<Frame>, next: Option<int>) {
    |h| > MIN_BUFFER_DEPTH && (next.None? || exists f | f in h :: f.pts <= next.value)
  }

  /** The k-th emitted frame was a minimum and the gate was open for it. */
  ghost predicate EmitAt(h: multiset<Frame>, next: Option<int>, out: seq<Frame>, k: nat)
    requires k < |out|
  {
    && GateOpen(h - multiset(out[..k]), NextAfter(next, out[..k]))
    && IsMin(out[k], h - multiset(out[..k]))
  }

  ghost predicate EmitsInOrder(h: multiset<Frame>, next: Option<int>, out: seq<Frame>) {
    forall k: nat | k < |out| :: EmitAt(h, next, out, k)
  }

  /** One call of `Push`: either the gated loop ran until it closed, or it never
      opened and the full buffer gave up exactly its oldest frame. */
  ghost predicate PushStep(h: multiset<Frame>, next: Option<int>, f: Frame, out: seq<Frame>,
                           h': multiset<Frame>, next': Option<int>) {
    var all := h + multiset{f};
    && h' == all - multiset(out)
    && next' == NextAfter(next, out)
    && (|| (EmitsInOrder(all, next, out) && !GateOpen(h', next') && |h'| <= FRAME_REORDER_BUFFER_SIZE)
        || (!GateOpen(all, next) && |all| > FRAME_REORDER_BUFFER_SIZE && |out| == 1 && IsMin(out[0], all)))
  }

  /** `out` is the content of `h` in presentation order. */
  ghost predicate DrainsTo(h: multiset<Frame>, out: seq<Frame>) {
    multiset(out) == h && Sorted(out)
  }

  // ----- The buffer -------------------------------------------------------

  class FrameReorderBuffer {
    var heap: multiset<Frame>
    var nextPts: Option<int>

    ghost predicate Valid()
      reads this
    {
      |heap| <= FRAME_REORDER_BUFFER_SIZE
    }

    constructor ()
      ensures Valid() && heap == multiset{} && nextPts == None
    {
      heap, nextPts := multiset{}, None;
    }

    /** `BinaryHeap::pop` on a non-empty heap. */
    method Pop() returns (f: Frame)
      requires |heap| > 0
      modifies this`heap
      ensures IsMin(f, old(heap)) && heap == old(heap) - multiset{f}
    {
      MinExists(heap);
      f :| f in heap && forall g | g in heap :: f.pts <= g.pts;
      heap := heap - multiset{f};
    }

    /** The gated loop of `Push`. */
    method EmitReady() returns (out: seq<Frame>)
      modifies this
      ensures Emitted(old(heap), old(nextPts), out, heap, nextPts) && !GateOpen(heap, nextPts)
    {
      out := [];
      ghost var all, next := heap, nextPts;
      assert multiset(out) == multiset{};
      while |heap| > MIN_BUFFER_DEPTH && (nextPts.None? || exists g | g in heap :: g.pts <= nextPts.value)
        invariant Emitted(all, next, out, heap, nextPts)
        decreases |heap|
      {
        ghost var left, expected := heap, nextPts;
        var ordered := Pop();
        EmitAppend(all, next, out, left, expected, ordered);
        nextPts := Some(ordered.pts + ordered.duration);
        out := out + [ordered];
      }
    }

    /** The safety valve of `Push`; the buffer is at most one frame over its limit. */
    method ForceOldest() returns (out: seq<Frame>)
      requires |heap| <= FRAME_REORDER_BUFFER_SIZE + 1
      modifies this
      ensures heap == old(heap) - multiset(out) && nextPts == NextAfter(old(nextPts), out)
      ensures Valid()
      ensures if old(|heap|) <= FRAME_REORDER_BUFFER_SIZE then out == []
              else |out| == 1 && IsMin(out[0], old(heap))
    {
      out := [];
      while |heap| > FRAME_REORDER_BUFFER_SIZE
        invariant out == [] ==> heap == old(heap) && nextPts == old(nextPts)
        invariant out != [] ==> && |out| == 1 && IsMin(out[0], old(heap)) && old(|heap|) > FRAME_REORDER_BUFFER_SIZE
                                && heap == old(heap) - multiset{out[0]} && |heap| <= FRAME_REORDER_BUFFER_SIZE
                                && nextPts == Some(out[0].pts + out[0].duration)
        decreases |heap|
      {
        var ordered := Pop();
        nextPts := Some(ordered.pts + ordered.duration);
        out := out + [ordered];
      }
      assert out != [] ==> out == [out[0]];
    }

    method Push(f: Frame) returns (out: seq<Frame>)
      requires Valid()
      modifies this
      ensures Valid()
      ensures PushStep(old(heap), old(nextPts), f, out, heap, nextPts)
    {
      hide GateOpen, EmitsInOrder, PushStep, IsMin, Emitted;
      ghost var before, next := heap, nextPts;
      heap := heap + multiset{f};
      if |heap| < MIN_BUFFER_DEPTH {
        out := [];
        PushWaits(before, next, f);
        return;
      }
      out := EmitReady();
      ghost var ready, expected := heap, nextPts;
      EmittedSize(before + multiset{f}, next, out, ready, expected);
      var forced := ForceOldest();
      PushEnds(before, next, f, out, ready, expected, forced, heap, nextPts);
      out := out + forced;
    }

    method Flush() returns (out: seq<Frame>)
      modifies this
      ensures DrainsTo(old(heap), out)
      ensures heap == multiset{} && nextPts == None && Valid()
    {
      hide Sorted, AllBefore, IsMin;
      out := [];
      NothingDrained(heap);
      while |heap| > 0
        invariant multiset(out) + heap == old(heap)
        invariant Sorted(out) && AllBefore(out, heap)
        decreases |heap|
      {
        ghost var before := heap;
        var ordered := Pop();
        DrainOne(out, before, ordered);
        out := out + [ordered];
      }
      nextPts := None;
    }
  }

  /** Nothing in `out` is presented after anything in `h`. */
  ghost predicate AllBefore(out: seq<Frame>, h: multiset<Frame>) {
    forall e, b | e in out && b in h :: e.pts <= b.pts
  }

  lemma NothingDrained(h: multiset<Frame>)
    ensures Sorted([]) && AllBefore([], h)
  {}

  lemma DrainOne(out: seq<Frame>, h: multiset<Frame>, f: Frame)
    requires Sorted(out) && AllBefore(out, h) && IsMin(f, h)
    ensures Sorted(out + [f]) && AllBefore(out + [f], h - multiset{f})
  {
    assert forall e | e in out + [f] :: e in out || e == f;
  }

  lemma MinExists(h: multiset<Frame>)
    requires |h| > 0
    ensures exists f :: IsMin(f, h)
    decreases |h|
  {
    var f :| f in h;
    var rest := h - multiset{f};
    if |rest| == 0 {
      assert forall g | g in h :: g in rest || g == f;
      assert IsMin(f, h);
    } else {
      MinExists(rest);
      var m :| IsMin(m, rest);
      assert forall g | g in h :: g in rest || g == f;
      assert IsMin(if m.pts <= f.pts then m else f, h);
    }
  }

  /** `heap`, `nextPts` are what is left of `h`, `next` after the gated loop emitted `out`. */
  ghost predicate Emitted(h: multiset<Frame>, next: Option<int>, out: seq<Frame>,
                          heap: multiset<Frame>, nextPts: Option<int>) {
    && multiset(out) <= h
    && heap == h - multiset(out)
    && nextPts == NextAfter(next, out)
    && EmitsInOrder(h, next, out)
  }

  lemma EmitAppend(h: multiset<Frame>, next: Option<int>, out: seq<Frame>,
                   heap: multiset<Frame>, nextPts: Option<int>, f: Frame)
    requires Emitted(h, next, out, heap, nextPts)
    requires GateOpen(heap, nextPts) && IsMin(f, heap)
    ensures Emitted(h, next, out + [f], heap - multiset{f}, Some(f.pts + f.duration))
  {
    var longer := out + [f];
    forall k: nat | k < |longer|
      ensures EmitAt(h, next, longer, k)
    {
      if k < |out| {
        assert longer[..k] == out[..k];
        assert EmitAt(h, next, out, k);
      } else {
        assert longer[..k] == out;
      }
    }
  }

  /** Below the minimum depth nothing leaves. */
  lemma PushWaits(h: multiset<Frame>, next: Option<int>, f: Frame)
    requires |h + multiset{f}| < MIN_BUFFER_DEPTH
    ensures PushStep(h, next, f, [], h + multiset{f}, next)
  {}

  /** After the gated loop the safety valve runs: it finds too many frames only if the loop
      emitted none. */
  lemma PushEnds(h: multiset<Frame>, next: Option<int>, f: Frame, out: seq<Frame>, ready: multiset<Frame>,
                 expected: Option<int>, forced: seq<Frame>, heap: multiset<Frame>, nextPts: Option<int>)
    requires |h| <= FRAME_REORDER_BUFFER_SIZE && |ready| == |h + multiset{f}| - |out|
    requires Emitted(h + multiset{f}, next, out, ready, expected) && !GateOpen(ready, expected)
    requires if |ready| <= FRAME_REORDER_BUFFER_SIZE then forced == [] else |forced| == 1 && IsMin(forced[0], ready)
    requires heap == ready - multiset(forced) && nextPts == NextAfter(expected, forced)
    ensures PushStep(h, next, f, out + forced, heap, nextPts)
  {
    hide GateOpen, EmitsInOrder, IsMin;
    if |ready| <= FRAME_REORDER_BUFFER_SIZE {
      assert out + forced == out && heap == ready;
    } else {
      assert out == [] && out + forced == forced;
      assert ready == h + multiset{f};
    }
  }

  lemma EmittedSize(h: multiset<Frame>, next: Option<int>, out: seq<Frame>,
                    heap: multiset<Frame>, nextPts: Option<int>)
    requires Emitted(h, next, out, heap, nextPts)
    ensures |heap| == |h| - |out|
  {}
}
