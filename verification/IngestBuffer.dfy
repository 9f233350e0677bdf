/** The byte buffer between a network ingress and the demuxer
    (crates/core/src/ingress/pipeline.rs): a queue that drops its oldest bytes when full. */
module IngestBuffer {
  import opened Arith

  type Byte = bv8

  /** What became of a byte that has left the buffer. */
  datatype Fate = Read(value: Byte) | Dropped(value: Byte)

  /** The buffer with its history: everything ever written, and every byte gone, in order. */
  datatype Ledger = Ledger(buf: seq<Byte>, written: seq<Byte>, gone: seq<Fate>)

  datatype Call = Add(data: seq<Byte>) | Take(n: nat)

  const EMPTY := Ledger([], [], [])

  function AllRead(bytes: seq<Byte>): (r: seq<Fate>)
    ensures |r| == |bytes| && forall i | 0 <= i < |r| :: r[i] == Read(bytes[i])
  {
    seq(|bytes|, i requires 0 <= i < |bytes| => Read(bytes[i]))
  }

  function AllDropped(bytes: seq<Byte>): (r: seq<Fate>)
    ensures |r| == |bytes| && forall i | 0 <= i < |r| :: r[i] == Dropped(bytes[i])
  {
    seq(|bytes|, i requires 0 <= i < |bytes| => Dropped(bytes[i]))
  }

  function Overflow(have: nat, more: nat, max: nat): nat {
    if have + more > max then have + more - max else 0
  }

  /** A chunk longer than the whole limit cannot be buffered: draining that much panics. */
  function Apply(max: nat, b: Ledger, call: Call): Ledger {
    match call
    case Add(data) =>
      if |data| > max then b
      else
        var over := Overflow(|b.buf|, |data|, max);
        Ledger(b.buf[over..] + data, b.written + data, b.gone + AllDropped(b.buf[..over]))
    case Take(n) =>
      var k := Min(n, |b.buf|);
      b.(buf := b.buf[k..], gone := b.gone + AllRead(b.buf[..k]))
  }

  class BufferedReader {
    const maxBufferSize: nat
    var buf: seq<Byte>
    ghost var written: seq<Byte>
    ghost var gone: seq<Fate>

    ghost function State(): Ledger
      reads this
    {
      Ledger(buf, written, gone)
    }

    constructor (maxBufferSize: nat)
      ensures this.maxBufferSize == maxBufferSize && State() == EMPTY
    {
      this.maxBufferSize := maxBufferSize;
      buf, written, gone := [], [], [];
    }

    method AddData(data: seq<Byte>) returns (panicked: bool)
      requires |buf| <= maxBufferSize
      modifies this
      ensures panicked <==> |data| > maxBufferSize
      ensures State() == Apply(maxBufferSize, old(State()), Add(data))
    {
      if |buf| + |data| > maxBufferSize {
        var bytesToDrop := |buf| + |data| - maxBufferSize;
        if bytesToDrop > |buf| { return true; }
        gone := gone + AllDropped(buf[..bytesToDrop]);
        buf := buf[bytesToDrop..];
      } else {
        assert buf[0..] == buf && gone + AllDropped(buf[..0]) == gone;
      }
      buf := buf + data;
      written := written + data;
      panicked := false;
    }

    /** Fills the front of the caller's slice and leaves its rest alone. */
    method ReadBuffered(target: array<Byte>) returns (n: nat)
      modifies this, target
      ensures n == Min(target.Length, |old(buf)|)
      ensures target[..n] == old(buf)[..n] && target[n..] == old(target[n..])
      ensures State() == Apply(maxBufferSize, old(State()), Take(target.Length))
    {
      n := Min(target.Length, |buf|);
      if n > 0 {
        forall i | 0 <= i < n {
          target[i] := buf[i];
        }
        gone := gone + AllRead(buf[..n]);
        buf := buf[n..];
      } else {
        assert buf[0..] == buf && gone + AllRead(buf[..0]) == gone;
      }
    }
  }

  // ----- Every mix of writes and reads ------------------------------------------------

  function Run(max: nat, calls: seq<Call>): Ledger {
    if calls == [] then EMPTY else Apply(max, Run(max, calls[..|calls| - 1]), calls[|calls| - 1])
  }

  predicate Fits(max: nat, calls: seq<Call>) {
    forall i | 0 <= i < |calls| :: calls[i].Add? ==> |calls[i].data| <= max
  }

  /** The bytes that readers got, in the order they got them. */
  function Reads(gone: seq<Fate>): seq<Byte> {
    if gone == [] then []
    else Reads(gone[..|gone| - 1]) + if gone[|gone| - 1].Read? then [gone[|gone| - 1].value] else []
  }

  function Values(gone: seq<Fate>): (r: seq<Byte>)
    ensures |r| == |gone| && forall i | 0 <= i < |r| :: r[i] == gone[i].value
  {
    seq(|gone|, i requires 0 <= i < |gone| => gone[i].value)
  }

  function Writes(calls: seq<Call>): seq<Byte> {
    if calls == [] then []
    else Writes(calls[..|calls| - 1]) + if calls[|calls| - 1].Add? then calls[|calls| - 1].data else []
  }

  predicate Lossless(gone: seq<Fate>) { forall i | 0 <= i < |gone| :: gone[i].Read? }

  /** Every byte written is gone or still in the buffer, in the order of writing, and the buffer
      never exceeds its limit: it is a suffix of all that was written. */
  predicate Exact(max: nat, b: Ledger) {
    b.written == Values(b.gone) + b.buf && |b.buf| <= max
  }

  lemma ExactStep(max: nat, b: Ledger, call: Call)
    requires Exact(max, b)
    ensures Exact(max, Apply(max, b, call))
  {
    match call
    case Add(data) =>
      var over := Overflow(|b.buf|, |data|, max);
      if |data| <= max {
        assert Values(b.gone + AllDropped(b.buf[..over])) == Values(b.gone) + b.buf[..over];
        assert b.buf[..over] + b.buf[over..] == b.buf;
        assert Values(b.gone) + b.buf + data == Values(b.gone) + b.buf[..over] + (b.buf[over..] + data);
      }
    case Take(n) =>
      var k := Min(n, |b.buf|);
      assert Values(b.gone + AllRead(b.buf[..k])) == Values(b.gone) + b.buf[..k];
      assert b.buf[..k] + b.buf[k..] == b.buf;
  }

  lemma {:induction false} AlwaysExact(max: nat, calls: seq<Call>)
    requires Fits(max, calls)
    ensures Exact(max, Run(max, calls)) && Run(max, calls).written == Writes(calls)
    decreases |calls|
  {
    hide Exact;
    if calls == [] {
      assert Exact(max, EMPTY) by { StartsExact(max); }
    } else {
      var init := calls[..|calls| - 1];
      AlwaysExact(max, init);
      ExactStep(max, Run(max, init), calls[|calls| - 1]);
      WrittenStep(max, Run(max, init), calls[|calls| - 1]);
    }
  }

  lemma StartsExact(max: nat)
    ensures Exact(max, EMPTY)
  {}

  lemma WrittenStep(max: nat, b: Ledger, call: Call)
    requires Exact(max, b) && (call.Add? ==> |call.data| <= max)
    ensures Apply(max, b, call).written == b.written + if call.Add? then call.data else []
  {}

  lemma {:induction false} LosslessReads(gone: seq<Fate>)
    requires Lossless(gone)
    ensures Reads(gone) == Values(gone)
    decreases |gone|
  {
    if gone != [] {
      LosslessReads(gone[..|gone| - 1]);
    }
  }

  /** While nothing has been dropped, what was read followed by what is buffered is exactly what
      was written. */
  lemma LosslessQueue(max: nat, calls: seq<Call>)
    requires Fits(max, calls) && Lossless(Run(max, calls).gone)
    ensures Reads(Run(max, calls).gone) + Run(max, calls).buf == Writes(calls)
  {
    AlwaysExact(max, calls);
    LosslessReads(Run(max, calls).gone);
  }

  /** Bytes are lost exactly if some write found too little room. */
  lemma {:induction false} LosslessIff(max: nat, calls: seq<Call>)
    requires Fits(max, calls)
    ensures Lossless(Run(max, calls).gone)
       <==> forall i | 0 <= i < |calls| && calls[i].Add? :: Room(max, calls, i)
    decreases |calls|
  {
    if calls != [] {
      var m := |calls| - 1;
      var init, last := calls[..m], calls[m];
      LosslessIff(max, init);
      AlwaysExact(max, init);
      forall i | 0 <= i < m
        ensures init[i] == calls[i] && (init[i].Add? ==> Room(max, init, i) == Room(max, calls, i))
      {
        assert init[..i] == calls[..i];
      }
      LosslessStep(max, Run(max, init), last);
      assert last.Add? ==> Room(max, calls, m) == (|Run(max, init).buf| + |last.data| <= max);
    }
  }

  predicate Room(max: nat, calls: seq<Call>, i: nat)
    requires i < |calls| && calls[i].Add?
  {
    |Run(max, calls[..i]).buf| + |calls[i].data| <= max
  }

  /** A write drops bytes only if they do not fit, and then leaves the buffer exactly full. */
  lemma LosslessStep(max: nat, b: Ledger, call: Call)
    requires Exact(max, b) && (call.Add? ==> |call.data| <= max)
    ensures call.Add? && |b.buf| + |call.data| > max ==> |Apply(max, b, call).buf| == max
    ensures Lossless(Apply(max, b, call).gone) <==> Lossless(b.gone) && (call.Add? ==> |b.buf| + |call.data| <= max)
  {
    var gone := Apply(max, b, call).gone;
    assert b.gone == gone[..|b.gone|];
    if call.Add? && |b.buf| + |call.data| > max {
      assert gone[|b.gone|].Dropped?;
    }
  }
}
