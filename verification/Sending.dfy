/** What the workers of each variant receive of the video that the runner delivers
    (crates/core/src/pipeline/runner.rs, `send_work`, `process_frame`, `flush`).

    A send fails if the worker has given up. A failed send while frames are processed abandons the
    rest of the batch for every variant and ends the loop of the runner; the shutdown then still
    processes what the decoder holds, up to the next failure, and drains the reorder buffers,
    ignoring failures. */
module Sending {
  import opened Wrappers
  import opened Reorder
  import opened ReorderTheorems
  import opened Timestamps
  import opened VideoPath
  import opened VideoTheorems

  /** A variant of the configuration and the source stream it is fed from. */
  datatype Route = Route(id: nat, src: nat)

  predicate Distinct(routes: seq<Route>) {
    forall i, j | 0 <= i < j < |routes| :: routes[i].id != routes[j].id
  }

  // ----- Subsequences -----------------------------------------------------------

  function Filter(s: seq<Frame>, kept: seq<bool>): seq<Frame>
    requires |kept| == |s|
  {
    if s == [] then []
    else Filter(s[..|s| - 1], kept[..|s| - 1]) + if kept[|s| - 1] then [s[|s| - 1]] else []
  }

  /** `got` is `s` with some frames left out. */
  ghost predicate Thinned(got: seq<Frame>, s: seq<Frame>) {
    exists kept: seq<bool> :: |kept| == |s| && got == Filter(s, kept)
  }

  lemma {:induction false} FilterConcat(a: seq<Frame>, k: seq<bool>, b: seq<Frame>, l: seq<bool>)
    requires |k| == |a| && |l| == |b|
    ensures Filter(a + b, k + l) == Filter(a, k) + Filter(b, l)
    decreases |b|
  {
    if b == [] {
      assert a + b == a && k + l == k;
    } else {
      FilterConcat(a, k, b[..|b| - 1], l[..|b| - 1]);
      assert (a + b)[..|a + b| - 1] == a + b[..|b| - 1] && (k + l)[..|a + b| - 1] == k + l[..|b| - 1];
    }
  }

  lemma ThinnedConcat(g: seq<Frame>, a: seq<Frame>, h: seq<Frame>, b: seq<Frame>)
    requires Thinned(g, a) && Thinned(h, b)
    ensures Thinned(g + h, a + b)
  {
    var k :| |k| == |a| && g == Filter(a, k);
    var l :| |l| == |b| && h == Filter(b, l);
    FilterConcat(a, k, b, l);
    assert |k + l| == |a + b|;
  }

  lemma {:induction false} ThinnedPrefix(s: seq<Frame>, n: nat)
    requires n <= |s|
    ensures Thinned(s[..n], s)
    decreases |s|
  {
    if n == |s| {
      FilterAll(s);
      assert s[..n] == s;
    } else {
      var init, last := s[..|s| - 1], [s[|s| - 1]];
      ThinnedPrefix(init, n);
      assert Filter(last, [false]) == [];
      ThinnedConcat(s[..n], init, [], last);
      assert init + last == s && init[..n] + [] == s[..n];
    }
  }

  lemma {:induction false} FilterAll(s: seq<Frame>)
    ensures Filter(s, seq(|s|, i => true)) == s
    decreases |s|
  {
    if s != [] {
      FilterAll(s[..|s| - 1]);
      assert seq(|s|, i => true)[..|s| - 1] == seq(|s| - 1, i => true);
    }
  }

  /** Leaving out frames shortens. */
  lemma {:induction false} FilterShorter(s: seq<Frame>, kept: seq<bool>)
    requires |kept| == |s|
    ensures |Filter(s, kept)| <= |s| && (|Filter(s, kept)| == |s| ==> Filter(s, kept) == s)
    decreases |s|
  {
    if s != [] {
      FilterShorter(s[..|s| - 1], kept[..|s| - 1]);
    }
  }

  lemma ThinnedShorter(got: seq<Frame>, s: seq<Frame>)
    requires Thinned(got, s)
    ensures |got| <= |s| && (|got| == |s| ==> got == s)
  {
    var kept :| |kept| == |s| && got == Filter(s, kept);
    FilterShorter(s, kept);
  }

  lemma PresentPts(init: seq<Frame>, f: Frame)
    ensures Present(Pts(init + [f])) == Present(Pts(init)) + if f.pts == AV_NOPTS_VALUE then [] else [f.pts]
  {
    assert Pts(init + [f]) == Pts(init) + [f.pts];
    PresentAppend(Pts(init), f.pts);
  }

  lemma {:induction false} FilterIncreases(s: seq<Frame>, kept: seq<bool>)
    requires |kept| == |s| && StrictlyIncreasing(Present(Pts(s)))
    ensures StrictlyIncreasing(Present(Pts(Filter(s, kept))))
    ensures forall x | x in Present(Pts(Filter(s, kept))) :: x in Present(Pts(s))
    decreases |s|
  {
    hide StrictlyIncreasing, Present, Pts;
    if s != [] {
      var init, f, m := s[..|s| - 1], s[|s| - 1], |s| - 1;
      assert s == init + [f];
      PresentPts(init, f);
      IncreasingAppend(Present(Pts(init)), f.pts);
      assert Present(Pts(init)) + [] == Present(Pts(init));
      FilterIncreases(init, kept[..m]);
      var rest := Filter(init, kept[..m]);
      if kept[m] {
        PresentPts(rest, f);
        LastIsLargest(Present(Pts(init)));
        IncreasingAppend(Present(Pts(rest)), f.pts);
        assert Filter(s, kept) == rest + [f] && Present(Pts(rest)) + [] == Present(Pts(rest));
        var r := Present(Pts(rest));
        assert r != [] ==> r[|r| - 1] in r;
      } else {
        assert rest + [] == rest;
      }
    }
  }

  lemma LastIsLargest(s: seq<int>)
    requires StrictlyIncreasing(s)
    ensures forall x | x in s :: x <= s[|s| - 1]
  {}

  /** Whatever a variant misses, the timestamps it does see still strictly increase. */
  lemma ThinnedIncreases(got: seq<Frame>, s: seq<Frame>)
    requires Thinned(got, s) && StrictlyIncreasing(Present(Pts(s)))
    ensures StrictlyIncreasing(Present(Pts(got)))
  {
    var kept :| |kept| == |s| && got == Filter(s, kept);
    FilterIncreases(s, kept);
  }

  // ----- Channels -----------------------------------------------------------------

  /** The channels to all workers. `accepts(k)` tells whether the k-th send succeeds. */
  class Workers {
    const accepts: nat -> bool
    var attempts: nat
    var received: map<nat, seq<Frame>>

    constructor (accepts: nat -> bool)
      ensures this.accepts == accepts && attempts == 0 && received == map[]
    {
      this.accepts := accepts;
      attempts, received := 0, map[];
    }

    /** Did all sends numbered `from` to `to - 1` succeed? */
    predicate AllAccepted(from: nat, to: nat) { forall k | from <= k < to :: accepts(k) }

    method SendWork(id: nat, frame: Frame) returns (ok: bool)
      modifies this
      ensures attempts == old(attempts) + 1 && ok == accepts(old(attempts))
      ensures received == if ok then Given(old(received), id, frame) else old(received)
    {
      ok := accepts(attempts);
      attempts := attempts + 1;
      if ok {
        received := received[id := Got(received, id) + [frame]];
      }
    }

    /** The send loop of a batch. If the send of frame `stop.0` to route `stop.1` fails, that
        route and the later ones miss this frame, and all miss the frames behind it. */
    method SendBatch(routes: seq<Route>, stream: nat, frames: seq<Frame>) returns (stop: Option<(nat, nat)>)
      requires Distinct(routes)
      modifies this
      ensures Stops(routes, stream, frames, stop)
      ensures forall m | 0 <= m < |routes| ::
                Got(received, routes[m].id) == Got(old(received), routes[m].id) + Share(routes, stream, frames, stop, m)
      ensures attempts >= old(attempts) && (stop.None? <==> AllAccepted(old(attempts), attempts))
    {
      hide SentTo, Distinct, Given;
      NothingSent(received, routes, stream, frames);
      for i := 0 to |frames|
        invariant SentTo(old(received), received, routes, stream, frames, i, 0)
        invariant attempts >= old(attempts) && AllAccepted(old(attempts), attempts)
      {
        for j := 0 to |routes|
          invariant SentTo(old(received), received, routes, stream, frames, i, j)
          invariant attempts >= old(attempts) && AllAccepted(old(attempts), attempts)
        {
          SentStep(old(received), received, routes, stream, frames, i, j);
          if routes[j].src == stream {
            var ok := SendWork(routes[j].id, frames[i]);
            if !ok {
              SentStops(old(received), received, routes, stream, frames, i, j);
              return Some((i, j));
            }
          }
        }
        RowSent(old(received), received, routes, stream, frames, i);
      }
      AllSent(old(received), received, routes, stream, frames);
      stop := None;
    }

    /** One frame of the flush to all variants of its stream: failures are only logged. */
    method SendAnyway(routes: seq<Route>, stream: nat, frame: Frame) returns (missed: set<nat>)
      requires Distinct(routes)
      modifies this
      ensures Spread(old(received), received, routes, stream, frame, missed, |routes|)
      ensures attempts >= old(attempts) && (missed == {} <==> AllAccepted(old(attempts), attempts))
    {
      hide Spread, Distinct, Given;
      missed := {};
      NothingSpread(received, routes, stream, frame);
      for j := 0 to |routes|
        invariant Spread(old(received), received, routes, stream, frame, missed, j)
        invariant attempts >= old(attempts) && (missed == {} <==> AllAccepted(old(attempts), attempts))
      {
        SpreadStep(old(received), received, routes, stream, frame, missed, j);
        if routes[j].src == stream {
          var ok := SendWork(routes[j].id, frame);
          if !ok {
            missed := missed + {routes[j].id};
          }
        }
      }
    }

    /** The send loop of the flush for one stream; `parts[m]` is what route `m` gets. */
    method SendRest(routes: seq<Route>, stream: nat, frames: seq<Frame>)
        returns (missed: set<nat>, ghost parts: seq<seq<Frame>>)
      requires Distinct(routes)
      modifies this
      ensures Parts(routes, stream, frames, missed, parts)
      ensures forall m | 0 <= m < |routes| :: Got(received, routes[m].id) == Got(old(received), routes[m].id) + parts[m]
      ensures attempts >= old(attempts) && (missed == {} <==> AllAccepted(old(attempts), attempts))
    {
      hide Parts, Spread, Distinct, Adds;
      missed, parts := {}, seq(|routes|, m => []);
      NoParts(received, routes, stream, frames, parts);
      for i := 0 to |frames|
        invariant Parts(routes, stream, frames[..i], missed, parts) && Adds(old(received), received, routes, parts)
        invariant attempts >= old(attempts) && (missed == {} <==> AllAccepted(old(attempts), attempts))
      {
        ghost var before := received;
        var now := SendAnyway(routes, stream, frames[i]);
        assert frames[..i + 1] == frames[..i] + [frames[i]];
        parts := MoreParts(old(received), before, received, routes, stream, frames[..i], missed, parts, frames[i], now);
        missed := missed + now;
      }
      assert frames[..|frames|] == frames;
      AddsIs(old(received), received, routes, parts);
    }
  }

  // ----- Steps of the send loops ------------------------------------------------------

  function Got(received: map<nat, seq<Frame>>, id: nat): seq<Frame> {
    if id in received then received[id] else []
  }

  function Given(received: map<nat, seq<Frame>>, id: nat, frame: Frame): map<nat, seq<Frame>> {
    received[id := Got(received, id) + [frame]]
  }

  /** What route `m` has got when the loop is at frame `i` and route `j`. */
  function Sent(routes: seq<Route>, stream: nat, frames: seq<Frame>, i: nat, j: nat, m: nat): seq<Frame>
    requires m < |routes| && i <= |frames| && (i == |frames| ==> j == 0)
  {
    if routes[m].src != stream then [] else if m < j then frames[..i + 1] else frames[..i]
  }

  ghost predicate SentTo(r: map<nat, seq<Frame>>, r': map<nat, seq<Frame>>, routes: seq<Route>, stream: nat,
                         frames: seq<Frame>, i: nat, j: nat)
    requires i <= |frames| && (i == |frames| ==> j == 0)
  {
    forall m | 0 <= m < |routes| ::
      Got(r', routes[m].id) == Got(r, routes[m].id) + Sent(routes, stream, frames, i, j, m)
  }

  lemma NothingSent(r: map<nat, seq<Frame>>, routes: seq<Route>, stream: nat, frames: seq<Frame>)
    ensures SentTo(r, r, routes, stream, frames, 0, 0)
  {
    assert frames[..0] == [];
  }

  /** A send that succeeds, or is not due, moves the loop to the next route. */
  lemma SentStep(r: map<nat, seq<Frame>>, r': map<nat, seq<Frame>>, routes: seq<Route>, stream: nat, frames: seq<Frame>,
                 i: nat, j: nat)
    requires Distinct(routes) && i < |frames| && j < |routes| && SentTo(r, r', routes, stream, frames, i, j)
    ensures SentTo(r, if routes[j].src == stream then Given(r', routes[j].id, frames[i]) else r',
                   routes, stream, frames, i, j + 1)
  {
    hide Given, Got;
    assert frames[..i + 1] == frames[..i] + [frames[i]];
    var r'' := if routes[j].src == stream then Given(r', routes[j].id, frames[i]) else r';
    forall m | 0 <= m < |routes|
      ensures Got(r'', routes[m].id) == Got(r, routes[m].id) + Sent(routes, stream, frames, i, j + 1, m)
    {
      GotGiven(r', routes[j].id, frames[i], routes[m].id);
      assert Got(r', routes[m].id) == Got(r, routes[m].id) + Sent(routes, stream, frames, i, j, m);
      assert m != j ==> routes[m].id != routes[j].id;
    }
  }

  lemma GotGiven(r: map<nat, seq<Frame>>, id: nat, frame: Frame, other: nat)
    ensures Got(Given(r, id, frame), other) == Got(r, other) + if other == id then [frame] else []
  {}

  lemma RowSent(r: map<nat, seq<Frame>>, r': map<nat, seq<Frame>>, routes: seq<Route>, stream: nat, frames: seq<Frame>,
                i: nat)
    requires i < |frames| && SentTo(r, r', routes, stream, frames, i, |routes|)
    ensures SentTo(r, r', routes, stream, frames, i + 1, 0)
  {
    forall m | 0 <= m < |routes|
      ensures Got(r', routes[m].id) == Got(r, routes[m].id) + Sent(routes, stream, frames, i + 1, 0, m)
    {
      assert Sent(routes, stream, frames, i, |routes|, m) == Sent(routes, stream, frames, i + 1, 0, m);
    }
  }

  lemma SentStops(r: map<nat, seq<Frame>>, r': map<nat, seq<Frame>>, routes: seq<Route>, stream: nat,
                  frames: seq<Frame>, i: nat, j: nat)
    requires i < |frames| && j < |routes| && SentTo(r, r', routes, stream, frames, i, j)
    ensures forall m | 0 <= m < |routes| ::
              Got(r', routes[m].id) == Got(r, routes[m].id) + Share(routes, stream, frames, Some((i, j)), m)
  {
    assert forall m | 0 <= m < |routes| ::
             Sent(routes, stream, frames, i, j, m) == Share(routes, stream, frames, Some((i, j)), m);
  }

  lemma AllSent(r: map<nat, seq<Frame>>, r': map<nat, seq<Frame>>, routes: seq<Route>, stream: nat, frames: seq<Frame>)
    requires SentTo(r, r', routes, stream, frames, |frames|, 0)
    ensures forall m | 0 <= m < |routes| ::
              Got(r', routes[m].id) == Got(r, routes[m].id) + Share(routes, stream, frames, None, m)
  {
    assert frames[..|frames|] == frames;
    assert forall m | 0 <= m < |routes| ::
             Sent(routes, stream, frames, |frames|, 0, m) == Share(routes, stream, frames, None, m);
  }

  ghost predicate Fed(routes: seq<Route>, stream: nat, id: nat) {
    exists j :: 0 <= j < |routes| && routes[j] == Route(id, stream)
  }

  /** The first `j` routes have been offered the frame; those in `missed` did not take it. */
  ghost predicate Spread(r: map<nat, seq<Frame>>, r': map<nat, seq<Frame>>, routes: seq<Route>, stream: nat,
                         frame: Frame, missed: set<nat>, j: nat)
    requires j <= |routes|
  {
    && (forall m | 0 <= m < |routes| ::
          Got(r', routes[m].id) == Got(r, routes[m].id) +
            (if m < j && routes[m].src == stream && routes[m].id !in missed then [frame] else []))
    && forall id | id in missed :: exists m :: 0 <= m < j && routes[m] == Route(id, stream)
  }

  lemma NothingSpread(r: map<nat, seq<Frame>>, routes: seq<Route>, stream: nat, frame: Frame)
    ensures Spread(r, r, routes, stream, frame, {}, 0)
  {}

  lemma SpreadStep(r: map<nat, seq<Frame>>, r': map<nat, seq<Frame>>, routes: seq<Route>, stream: nat, frame: Frame,
                   missed: set<nat>, j: nat)
    requires Distinct(routes) && j < |routes| && Spread(r, r', routes, stream, frame, missed, j)
    ensures if routes[j].src == stream then
              && Spread(r, Given(r', routes[j].id, frame), routes, stream, frame, missed, j + 1)
              && Spread(r, r', routes, stream, frame, missed + {routes[j].id}, j + 1)
            else Spread(r, r', routes, stream, frame, missed, j + 1)
  {
    hide Spread, Given;
    if routes[j].src == stream {
      SpreadTaken(r, r', routes, stream, frame, missed, j);
      SpreadMissed(r, r', routes, stream, frame, missed, j);
    } else {
      SpreadOther(r, r', routes, stream, frame, missed, j);
    }
  }

  lemma SpreadTaken(r: map<nat, seq<Frame>>, r': map<nat, seq<Frame>>, routes: seq<Route>, stream: nat, frame: Frame,
                    missed: set<nat>, j: nat)
    requires Distinct(routes) && j < |routes| && Spread(r, r', routes, stream, frame, missed, j)
             && routes[j].src == stream
    ensures Spread(r, Given(r', routes[j].id, frame), routes, stream, frame, missed, j + 1)
  {
    hide Given, Got;
    var r'' := Given(r', routes[j].id, frame);
    assert routes[j].id !in missed;
    forall m | 0 <= m < |routes|
      ensures Got(r'', routes[m].id) == Got(r, routes[m].id) +
                (if m < j + 1 && routes[m].src == stream && routes[m].id !in missed then [frame] else [])
    {
      GotGiven(r', routes[j].id, frame, routes[m].id);
      assert m != j ==> routes[m].id != routes[j].id;
    }
  }

  lemma SpreadMissed(r: map<nat, seq<Frame>>, r': map<nat, seq<Frame>>, routes: seq<Route>, stream: nat, frame: Frame,
                     missed: set<nat>, j: nat)
    requires Distinct(routes) && j < |routes| && Spread(r, r', routes, stream, frame, missed, j)
             && routes[j].src == stream
    ensures Spread(r, r', routes, stream, frame, missed + {routes[j].id}, j + 1)
  {
    assert forall m | 0 <= m < |routes| && m != j :: routes[m].id != routes[j].id;
    assert routes[j] == Route(routes[j].id, stream);
  }

  lemma SpreadOther(r: map<nat, seq<Frame>>, r': map<nat, seq<Frame>>, routes: seq<Route>, stream: nat, frame: Frame,
                    missed: set<nat>, j: nat)
    requires j < |routes| && Spread(r, r', routes, stream, frame, missed, j) && routes[j].src != stream
    ensures Spread(r, r', routes, stream, frame, missed, j + 1)
  {}

  predicate Stops(routes: seq<Route>, stream: nat, frames: seq<Frame>, stop: Option<(nat, nat)>) {
    stop.Some? ==> stop.value.0 < |frames| && stop.value.1 < |routes| && routes[stop.value.1].src == stream
  }

  /** Each route of the stream gets the frames with some left out, all of them iff it missed none. */
  ghost predicate Parts(routes: seq<Route>, stream: nat, frames: seq<Frame>, missed: set<nat>, parts: seq<seq<Frame>>) {
    && |parts| == |routes|
    && (forall m | 0 <= m < |routes| :: PartOk(routes[m], stream, frames, missed, parts[m]))
    && forall id | id in missed :: Fed(routes, stream, id)
  }

  ghost predicate PartOk(route: Route, stream: nat, frames: seq<Frame>, missed: set<nat>, part: seq<Frame>) {
    if route.src == stream then Thinned(part, frames) && (part == frames <==> route.id !in missed) else part == []
  }

  ghost predicate Adds(r: map<nat, seq<Frame>>, r': map<nat, seq<Frame>>, routes: seq<Route>, parts: seq<seq<Frame>>) {
    |parts| == |routes| && forall m | 0 <= m < |routes| :: Got(r', routes[m].id) == Got(r, routes[m].id) + parts[m]
  }

  lemma AddsIs(r: map<nat, seq<Frame>>, r': map<nat, seq<Frame>>, routes: seq<Route>, parts: seq<seq<Frame>>)
    requires Adds(r, r', routes, parts)
    ensures |parts| == |routes| && forall m | 0 <= m < |routes| ::
              Got(r', routes[m].id) == Got(r, routes[m].id) + parts[m]
  {}

  lemma NoParts(r: map<nat, seq<Frame>>, routes: seq<Route>, stream: nat, frames: seq<Frame>, parts: seq<seq<Frame>>)
    requires parts == seq(|routes|, m => [])
    ensures Parts(routes, stream, frames[..0], {}, parts) && Adds(r, r, routes, parts)
  {
    assert frames[..0] == [];
    ThinnedPrefix([], 0);
  }

  /** What the routes have after another frame that those in `now` did not take. */
  function PartsAfter(routes: seq<Route>, stream: nat, parts: seq<seq<Frame>>, frame: Frame,
                      now: set<nat>): seq<seq<Frame>>
    requires |parts| == |routes|
  {
    seq(|routes|, m requires 0 <= m < |routes| =>
      parts[m] + (if routes[m].src == stream && routes[m].id !in now then [frame] else []))
  }

  lemma MoreParts(r: map<nat, seq<Frame>>, r': map<nat, seq<Frame>>, r'': map<nat, seq<Frame>>, routes: seq<Route>,
                  stream: nat, frames: seq<Frame>, missed: set<nat>, parts: seq<seq<Frame>>, frame: Frame,
                  now: set<nat>)
    returns (parts': seq<seq<Frame>>)
    requires Parts(routes, stream, frames, missed, parts) && Adds(r, r', routes, parts)
    requires Spread(r', r'', routes, stream, frame, now, |routes|)
    ensures Parts(routes, stream, frames + [frame], missed + now, parts') && Adds(r, r'', routes, parts')
  {
    hide Thinned, Got;
    parts' := PartsAfter(routes, stream, parts, frame, now);
    forall m | 0 <= m < |routes| ensures PartOk(routes[m], stream, frames + [frame], missed + now, parts'[m]) {
      PartGrows(routes[m], stream, frames, missed, parts[m], frame, now);
    }
    MoreAdds(r, r', r'', routes, stream, parts, frame, now);
  }

  lemma PartGrows(route: Route, stream: nat, frames: seq<Frame>, missed: set<nat>, part: seq<Frame>, frame: Frame,
                  now: set<nat>)
    requires PartOk(route, stream, frames, missed, part)
    ensures PartOk(route, stream, frames + [frame], missed + now,
                   part + if route.src == stream && route.id !in now then [frame] else [])
  {
    hide Thinned;
    if route.src == stream {
      OneMoreFrame(part, frames, frame, route.id !in now);
    }
  }

  lemma MoreAdds(r: map<nat, seq<Frame>>, r': map<nat, seq<Frame>>, r'': map<nat, seq<Frame>>, routes: seq<Route>,
                 stream: nat, parts: seq<seq<Frame>>, frame: Frame, now: set<nat>)
    requires Adds(r, r', routes, parts) && Spread(r', r'', routes, stream, frame, now, |routes|)
    ensures Adds(r, r'', routes, PartsAfter(routes, stream, parts, frame, now))
  {
    hide Got;
    var parts' := PartsAfter(routes, stream, parts, frame, now);
    forall m | 0 <= m < |routes| ensures Got(r'', routes[m].id) == Got(r, routes[m].id) + parts'[m] {
      assert Got(r', routes[m].id) == Got(r, routes[m].id) + parts[m];
    }
  }

  lemma OneMoreFrame(part: seq<Frame>, frames: seq<Frame>, frame: Frame, sent: bool)
    requires Thinned(part, frames)
    ensures var more := part + (if sent then [frame] else []);
            Thinned(more, frames + [frame]) && (more == frames + [frame] <==> part == frames && sent)
  {
    assert Filter([frame], [sent]) == (if sent then [frame] else []);
    assert |[sent]| == |[frame]|;
    ThinnedConcat(part, frames, if sent then [frame] else [], [frame]);
    ThinnedShorter(part, frames);
    if sent && part + [frame] == frames + [frame] {
      assert (part + [frame])[..|part|] == part && (frames + [frame])[..|frames|] == frames;
    }
  }

  /** What route `j` gets of a batch. */
  function Share(routes: seq<Route>, stream: nat, frames: seq<Frame>, stop: Option<(nat, nat)>, j: nat): seq<Frame>
    requires j < |routes| && (stop.Some? ==> stop.value.0 < |frames|)
  {
    if routes[j].src != stream then []
    else if stop.None? then frames
    else if j < stop.value.1 then frames[..stop.value.0 + 1]
    else frames[..stop.value.0]
  }
}
