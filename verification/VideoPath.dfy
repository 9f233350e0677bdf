/** The video path of the runner (crates/core/src/pipeline/runner.rs, `process_frame` and
    `flush`): decoded frames go through the reorder buffer of their source stream and then
    through the timestamp repair of that stream.  A frame's time base is the one of its
    source stream, so it is a parameter here. */
module VideoPath {
  import opened Wrappers
  import opened Reorder
  import opened Timestamps

  function Pts(frames: seq<Frame>): (ptss: seq<int>)
    ensures |ptss| == |frames|
  {
    seq(|frames|, i requires 0 <= i < |frames| => frames[i].pts)
  }

  /** The frames with new timestamps. */
  function Retime(frames: seq<Frame>, ptss: seq<int>): (out: seq<Frame>)
    requires |frames| == |ptss|
    ensures |out| == |frames|
  {
    seq(|frames|, i requires 0 <= i < |frames| => frames[i].(pts := ptss[i]))
  }

  /** The first `i` frames of a batch after their repair. */
  ghost function MangledPrefix(frames: seq<Frame>, i: nat, st: Repair, tb: Rational): seq<Frame>
    requires i <= |frames|
  {
    Retime(frames[..i], MangleAll(st, Pts(frames)[..i], tb))
  }

  lemma MangledInit(frames: seq<Frame>, st: Repair, tb: Rational)
    ensures MangledPrefix(frames, 0, st, tb) == [] && After(st, Pts(frames)[..0], tb) == st
    ensures MangledPrefix(frames, |frames|, st, tb) == Retime(frames, MangleAll(st, Pts(frames), tb))
    ensures Pts(frames)[..|frames|] == Pts(frames)
  {
    assert frames[..|frames|] == frames && Pts(frames)[..|frames|] == Pts(frames);
  }

  lemma MangledStep(frames: seq<Frame>, i: nat, st: Repair, tb: Rational)
    requires i < |frames|
    ensures var (st', pts) := Mangle(After(st, Pts(frames)[..i], tb), frames[i].pts, tb);
            && MangledPrefix(frames, i + 1, st, tb) == MangledPrefix(frames, i, st, tb) + [frames[i].(pts := pts)]
            && After(st, Pts(frames)[..i + 1], tb) == st'
  {
    hide Mangle, After, MangleAll;
    MangleAppend(st, Pts(frames)[..i], frames[i].pts, tb);
    assert Pts(frames)[..i + 1] == Pts(frames)[..i] + [frames[i].pts];
  }

  class PipelineRunner {
    var frameReorderBuffers: map<nat, FrameReorderBuffer>
    var ptsOffsets: map<nat, Repair>

    ghost predicate Valid()
      reads this, frameReorderBuffers.Values
    {
      && (forall i | i in frameReorderBuffers :: frameReorderBuffers[i].Valid())
      && forall i, j | i in frameReorderBuffers && j in frameReorderBuffers && i != j ::
           frameReorderBuffers[i] != frameReorderBuffers[j]
    }

    ghost function HeapOf(i: nat): multiset<Frame>
      reads this, frameReorderBuffers.Values
    {
      if i in frameReorderBuffers then frameReorderBuffers[i].heap else multiset{}
    }

    ghost function NextOf(i: nat): Option<int>
      reads this, frameReorderBuffers.Values
    {
      if i in frameReorderBuffers then frameReorderBuffers[i].nextPts else None
    }

    function RepairOf(i: nat): Repair
      reads this`ptsOffsets
    {
      if i in ptsOffsets then ptsOffsets[i] else FRESH
    }

    constructor ()
      ensures Valid() && frameReorderBuffers == map[] && ptsOffsets == map[]
    {
      frameReorderBuffers, ptsOffsets := map[], map[];
    }

    method MangleFramePts(streamIdx: nat, frame: Frame, tb: Rational) returns (fixed: Frame)
      modifies this`ptsOffsets
      ensures var (st, pts) := Mangle(old(RepairOf(streamIdx)), frame.pts, tb);
              ptsOffsets == old(ptsOffsets)[streamIdx := st] && fixed == frame.(pts := pts)
    {
      hide Saturate, Wrap;
      var st := if streamIdx in ptsOffsets then ptsOffsets[streamIdx] else FRESH;
      var lastPts, offset := st.lastPts, st.offset;
      fixed := frame;
      if fixed.pts != AV_NOPTS_VALUE {
        var adjustedPts := Saturate(fixed.pts + offset);
        if lastPts != I64_MIN && adjustedPts <= lastPts {
          var additionalOffset := Wrap(lastPts + 1 - adjustedPts);
          offset := Saturate(offset + additionalOffset);
        }
        fixed := fixed.(pts := Saturate(fixed.pts + offset));
        if lastPts != I64_MIN && fixed.pts > lastPts {
          if Wrap(fixed.pts - lastPts) * tb.num > MAX_PTS_JUMP_SECS * tb.den {
            offset := Saturate(offset - Wrap(fixed.pts - lastPts - 1));
            fixed := fixed.(pts := Wrap(lastPts + 1));
          }
        }
        lastPts := fixed.pts;
      }
      ptsOffsets := ptsOffsets[streamIdx := Repair(lastPts, offset)];
    }

    /** Repair a batch that left the reorder buffer of one stream. */
    method MangleFrames(streamIdx: nat, frames: seq<Frame>, tb: Rational) returns (out: seq<Frame>)
      modifies this`ptsOffsets
      ensures out == Retime(frames, MangleAll(old(RepairOf(streamIdx)), Pts(frames), tb))
      ensures RepairOf(streamIdx) == After(old(RepairOf(streamIdx)), Pts(frames), tb)
      ensures forall j | j != streamIdx :: RepairOf(j) == old(RepairOf(j))
    {
      hide Mangle, After, MangleAll, Retime, Pts;
      out := [];
      ghost var st := RepairOf(streamIdx);
      MangledInit(frames, st, tb);
      for i := 0 to |frames|
        invariant out == MangledPrefix(frames, i, st, tb)
        invariant RepairOf(streamIdx) == After(st, Pts(frames)[..i], tb)
        invariant forall j | j != streamIdx :: RepairOf(j) == old(RepairOf(j))
      {
        MangledStep(frames, i, st, tb);
        var fixed := MangleFramePts(streamIdx, frames[i], tb);
        out := out + [fixed];
      }
      MangledInit(frames, st, tb);
    }

    /** Get or create the reorder buffer of a stream. */
    method BufferFor(streamIndex: nat) returns (buffer: FrameReorderBuffer)
      requires Valid()
      modifies this`frameReorderBuffers
      ensures Valid() && streamIndex in frameReorderBuffers && buffer == frameReorderBuffers[streamIndex]
      ensures fresh(frameReorderBuffers.Values - old(frameReorderBuffers.Values))
      ensures forall j :: HeapOf(j) == old(HeapOf(j)) && NextOf(j) == old(NextOf(j))
    {
      if streamIndex !in frameReorderBuffers {
        var created := new FrameReorderBuffer();
        frameReorderBuffers := frameReorderBuffers[streamIndex := created];
      }
      buffer := frameReorderBuffers[streamIndex];
    }

    /** Push a frame into the reorder buffer of its stream. */
    method PushInto(streamIndex: nat, frame: Frame) returns (frames: seq<Frame>)
      requires Valid()
      modifies this`frameReorderBuffers, frameReorderBuffers.Values
      ensures Valid() && fresh(frameReorderBuffers.Values - old(frameReorderBuffers.Values))
      ensures PushStep(old(HeapOf(streamIndex)), old(NextOf(streamIndex)), frame, frames,
                       HeapOf(streamIndex), NextOf(streamIndex))
      ensures forall j | j != streamIndex :: HeapOf(j) == old(HeapOf(j)) && NextOf(j) == old(NextOf(j))
    {
      hide PushStep;
      var buffer := BufferFor(streamIndex);
      frames := buffer.Push(frame);
    }

    /** A decoded frame arrives; returns the batch for the variants of its stream. */
    method ProcessFrame(streamIndex: nat, frame: Frame, isVideo: bool, tb: Rational)
      returns (encode: seq<Frame>, ghost raw: seq<Frame>)
      requires Valid()
      modifies this, frameReorderBuffers.Values
      ensures Valid() && fresh(frameReorderBuffers.Values - old(frameReorderBuffers.Values))
      ensures !isVideo ==> encode == [frame] && HeapOf(streamIndex) == old(HeapOf(streamIndex))
                           && NextOf(streamIndex) == old(NextOf(streamIndex))
                           && RepairOf(streamIndex) == old(RepairOf(streamIndex))
      ensures isVideo ==>
                && PushStep(old(HeapOf(streamIndex)), old(NextOf(streamIndex)), frame, raw,
                            HeapOf(streamIndex), NextOf(streamIndex))
                && encode == Retime(raw, MangleAll(old(RepairOf(streamIndex)), Pts(raw), tb))
                && RepairOf(streamIndex) == After(old(RepairOf(streamIndex)), Pts(raw), tb)
      ensures forall j | j != streamIndex ::
                HeapOf(j) == old(HeapOf(j)) && NextOf(j) == old(NextOf(j)) && RepairOf(j) == old(RepairOf(j))
    {
      hide PushStep, Mangle, After, MangleAll, Retime, Pts;
      encode, raw := [frame], [];
      if isVideo {
        var frames := PushInto(streamIndex, frame);
        raw := frames;
        encode := MangleFrames(streamIndex, frames, tb);
      }
    }

    lemma HeapsAre()
      ensures forall i | i in frameReorderBuffers :: HeapOf(i) == frameReorderBuffers[i].heap
    {}

    /** End of stream: the buffers are taken and drained, stream by stream. */
    method FlushBuffers(timeBase: nat -> Rational)
      returns (encode: map<nat, seq<Frame>>, ghost raw: map<nat, seq<Frame>>)
      requires Valid()
      modifies this, frameReorderBuffers.Values
      ensures Valid() && frameReorderBuffers == map[]
      ensures encode.Keys == raw.Keys == old(frameReorderBuffers.Keys)
      ensures forall i | i in encode :: Drained(old(HeapOf(i)), old(RepairOf(i)), timeBase(i), raw[i], encode[i])
    {
      hide Drained, PipelineRunner.RepairOf, PipelineRunner.HeapOf;
      var buffers := frameReorderBuffers;
      HeapsAre();
      frameReorderBuffers := map[];
      encode, raw := map[], map[];
      var todo := buffers.Keys;
      while todo != {}
        invariant todo <= buffers.Keys && encode.Keys == raw.Keys == buffers.Keys - todo
        invariant frameReorderBuffers == map[]
        invariant forall i | i in todo :: buffers[i].heap == old(HeapOf(i)) && RepairOf(i) == old(RepairOf(i))
        invariant forall i | i in encode :: Drained(old(HeapOf(i)), old(RepairOf(i)), timeBase(i), raw[i], encode[i])
        decreases todo
      {
        var streamIndex :| streamIndex in todo;
        var fixed, frames := FlushBuffer(buffers[streamIndex], streamIndex, timeBase(streamIndex));
        encode, raw := encode[streamIndex := fixed], raw[streamIndex := frames];
        todo := todo - {streamIndex};
      }
    }

    method FlushBuffer(buffer: FrameReorderBuffer, streamIndex: nat, tb: Rational)
      returns (encode: seq<Frame>, ghost raw: seq<Frame>)
      modifies this`ptsOffsets, buffer
      ensures Drained(old(buffer.heap), old(RepairOf(streamIndex)), tb, raw, encode)
      ensures forall j | j != streamIndex :: RepairOf(j) == old(RepairOf(j))
    {
      hide DrainsTo, Mangle, After, MangleAll, Retime, Pts;
      var frames := buffer.Flush();
      raw := frames;
      encode := MangleFrames(streamIndex, frames, tb);
    }
  }

  /** `raw` is the content of a buffer in order, `encode` the same frames repaired. */
  ghost predicate Drained(heap: multiset<Frame>, st: Repair, tb: Rational, raw: seq<Frame>, encode: seq<Frame>) {
    DrainsTo(heap, raw) && encode == Retime(raw, MangleAll(st, Pts(raw), tb))
  }
}
