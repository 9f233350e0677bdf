/** A whole connection with failing workers: what every variant receives from the first frame to
    the end of the flush (crates/core/src/pipeline/runner.rs). */
module Connection {
  import opened Wrappers
  import opened Reorder
  import opened ReorderTheorems
  import opened Timestamps
  import opened VideoPath
  import opened VideoTheorems
  import opened Sending

  /** A route got the frames of its stream with some left out, all of them iff it is not `short`. */
  ghost predicate RouteOk(got: seq<Frame>, out: seq<Frame>, short: bool) {
    Thinned(got, out) && (got == out <==> !short)
  }

  ghost predicate Informed(received: map<nat, seq<Frame>>, routes: seq<Route>, out: map<nat, seq<Frame>>,
                           short: set<nat>) {
    forall m | 0 <= m < |routes| ::
      RouteOk(Got(received, routes[m].id), OutOf(out, routes[m].src), routes[m].id in short)
  }

  lemma NobodyInformed(routes: seq<Route>)
    ensures Informed(map[], routes, map[], {})
  {
    ThinnedPrefix([], 0);
  }

  lemma RouteGrows(got: seq<Frame>, out: seq<Frame>, short: bool, part: seq<Frame>, batch: seq<Frame>)
    requires RouteOk(got, out, short) && Thinned(part, batch)
    ensures RouteOk(got + part, out + batch, short || part != batch)
  {
    ThinnedConcat(got, out, part, batch);
    ThinnedShorter(got, out);
    ThinnedShorter(part, batch);
    if got + part == out + batch {
      assert |got| == |out|;
      assert (got + part)[|got|..] == part && (out + batch)[|out|..] == batch;
    }
  }

  /** The routes that miss something of a batch. */
  function MissedBy(routes: seq<Route>, stream: nat, batch: seq<Frame>, stop: Option<(nat, nat)>): set<nat>
    requires stop.Some? ==> stop.value.0 < |batch|
  {
    set m | 0 <= m < |routes| && routes[m].src == stream && Share(routes, stream, batch, stop, m) != batch ::
      routes[m].id
  }

  lemma SomebodyMisses(routes: seq<Route>, stream: nat, batch: seq<Frame>, stop: Option<(nat, nat)>)
    requires Stops(routes, stream, batch, stop)
    ensures MissedBy(routes, stream, batch, stop) == {} <==> stop.None?
  {
    if stop.Some? {
      var j := stop.value.1;
      assert |Share(routes, stream, batch, stop, j)| < |batch|;
      assert routes[j].id in MissedBy(routes, stream, batch, stop);
    }
  }

  lemma BatchInforms(r: map<nat, seq<Frame>>, r': map<nat, seq<Frame>>, routes: seq<Route>, out: map<nat, seq<Frame>>,
                     short: set<nat>, stream: nat, batch: seq<Frame>, stop: Option<(nat, nat)>)
    requires Distinct(routes) && Informed(r, routes, out, short) && Stops(routes, stream, batch, stop)
    requires forall m | 0 <= m < |routes| ::
               Got(r', routes[m].id) == Got(r, routes[m].id) + Share(routes, stream, batch, stop, m)
    ensures Informed(r', routes, out[stream := OutOf(out, stream) + batch],
                     short + MissedBy(routes, stream, batch, stop))
  {
    hide RouteOk, Share, MissedBy;
    forall m | 0 <= m < |routes|
      ensures RouteOk(Got(r', routes[m].id), OutOf(out[stream := OutOf(out, stream) + batch], routes[m].src),
                      routes[m].id in short + MissedBy(routes, stream, batch, stop))
    {
      RouteInformed(routes, stream, batch, stop, m, Got(r, routes[m].id), OutOf(out, routes[m].src),
                    routes[m].id in short);
    }
  }

  lemma RouteInformed(routes: seq<Route>, stream: nat, batch: seq<Frame>, stop: Option<(nat, nat)>, m: nat,
                      got: seq<Frame>, out: seq<Frame>, short: bool)
    requires Distinct(routes) && m < |routes| && (stop.Some? ==> stop.value.0 < |batch|) && RouteOk(got, out, short)
    ensures RouteOk(got + Share(routes, stream, batch, stop, m), if routes[m].src == stream then out + batch else out,
                    short || routes[m].id in MissedBy(routes, stream, batch, stop))
  {
    hide Thinned;
    var part, missed := Share(routes, stream, batch, stop, m), MissedBy(routes, stream, batch, stop);
    if routes[m].src == stream {
      SharePrefix(routes, stream, batch, stop, m);
      RouteGrows(got, out, short, part, batch);
      assert routes[m].id in missed <==> part != batch;
    } else {
      assert got + [] == got;
      assert routes[m].id !in missed;
    }
  }

  lemma SharePrefix(routes: seq<Route>, stream: nat, batch: seq<Frame>, stop: Option<(nat, nat)>, m: nat)
    requires m < |routes| && routes[m].src == stream && (stop.Some? ==> stop.value.0 < |batch|)
    ensures Thinned(Share(routes, stream, batch, stop, m), batch)
  {
    var n := |Share(routes, stream, batch, stop, m)|;
    assert Share(routes, stream, batch, stop, m) == batch[..n];
    ThinnedPrefix(batch, n);
  }

  lemma FlushInforms(r: map<nat, seq<Frame>>, r': map<nat, seq<Frame>>, routes: seq<Route>, out: map<nat, seq<Frame>>,
                     short: set<nat>, stream: nat, rest: seq<Frame>, missed: set<nat>, parts: seq<seq<Frame>>)
    requires Distinct(routes) && Informed(r, routes, out, short) && Parts(routes, stream, rest, missed, parts)
    requires forall m | 0 <= m < |routes| :: Got(r', routes[m].id) == Got(r, routes[m].id) + parts[m]
    ensures Informed(r', routes, out[stream := OutOf(out, stream) + rest], short + missed)
  {
    hide Thinned;
    forall m | 0 <= m < |routes|
      ensures RouteOk(Got(r', routes[m].id), OutOf(out[stream := OutOf(out, stream) + rest], routes[m].src),
                      routes[m].id in short + missed)
    {
      assert PartOk(routes[m], stream, rest, missed, parts[m]);
      if routes[m].src == stream {
        RouteGrows(Got(r, routes[m].id), OutOf(out, stream), routes[m].id in short, parts[m], rest);
      } else {
        assert Got(r, routes[m].id) + [] == Got(r, routes[m].id);
        NotFedElsewhere(routes, stream, m);
      }
    }
  }

  lemma NotFedElsewhere(routes: seq<Route>, stream: nat, m: nat)
    requires Distinct(routes) && m < |routes| && routes[m].src != stream
    ensures !Fed(routes, stream, routes[m].id)
  {}

  /** Frames one by one through reorder buffer, repair and send loop, up to the first send that
      fails. */
  method RunArrivals(runner: PipelineRunner, workers: Workers, routes: seq<Route>, ghost before: seq<Arrival>,
                     arrivals: seq<Arrival>, timeBase: nat -> Rational, ghost runs: map<nat, Run>,
                     out: map<nat, seq<Frame>>, ghost short: set<nat>)
    returns (n: nat, ghost runs': map<nat, Run>, out': map<nat, seq<Frame>>, ghost short': set<nat>)
    requires Distinct(routes) && runner.Valid() && Explained(runner, before, timeBase, runs, out)
    requires Informed(workers.received, routes, out, short)
    modifies runner, runner.frameReorderBuffers.Values, workers
    ensures n <= |arrivals| && runner.Valid() && Explained(runner, before + arrivals[..n], timeBase, runs', out')
    ensures fresh(runner.frameReorderBuffers.Values - old(runner.frameReorderBuffers.Values))
    ensures Informed(workers.received, routes, out', short') && short <= short'
    ensures workers.attempts >= old(workers.attempts)
    ensures if workers.AllAccepted(old(workers.attempts), workers.attempts) then n == |arrivals| && short' == short
            else n > 0 && short' != {}
  {
    hide Explained, Informed, Distinct, MissedBy, Stops, Share;
    n, runs', out', short' := 0, runs, out, short;
    assert before + arrivals[..0] == before;
    while n < |arrivals|
      invariant n <= |arrivals| && runner.Valid() && Explained(runner, before + arrivals[..n], timeBase, runs', out')
      invariant fresh(runner.frameReorderBuffers.Values - old(runner.frameReorderBuffers.Values))
      invariant Informed(workers.received, routes, out', short') && short' == short
      invariant workers.attempts >= old(workers.attempts)
                && workers.AllAccepted(old(workers.attempts), workers.attempts)
    {
      var a, batch := arrivals[n], [];
      assert before + arrivals[..n + 1] == before + arrivals[..n] + [a];
      ghost var outBefore, received := out', workers.received;
      runs', out', batch := ProcessArrival(runner, before + arrivals[..n], a, timeBase, runs', out');
      n := n + 1;
      var stop := workers.SendBatch(routes, a.stream, batch);
      StopsInside(routes, a.stream, batch, stop);
      BatchInforms(received, workers.received, routes, outBefore, short', a.stream, batch, stop);
      SomebodyMisses(routes, a.stream, batch, stop);
      short' := short' + MissedBy(routes, a.stream, batch, stop);
      if stop.Some? { return; }
    }
  }

  lemma StopsInside(routes: seq<Route>, stream: nat, frames: seq<Frame>, stop: Option<(nat, nat)>)
    requires Stops(routes, stream, frames, stop)
    ensures stop.Some? ==> stop.value.0 < |frames|
  {}

  /** What the flush sends: every stream in turn. */
  method SendFlushed(workers: Workers, routes: seq<Route>, out: map<nat, seq<Frame>>, rest: map<nat, seq<Frame>>,
                     ghost short: set<nat>)
    returns (out': map<nat, seq<Frame>>, ghost short': set<nat>)
    requires Distinct(routes) && Informed(workers.received, routes, out, short)
    modifies workers
    ensures Informed(workers.received, routes, out', short') && short <= short'
    ensures forall i: nat :: OutOf(out', i) == OutOf(out, i) + OutOf(rest, i)
    ensures workers.attempts >= old(workers.attempts)
    ensures if workers.AllAccepted(old(workers.attempts), workers.attempts) then short' == short else short' != {}
  {
    hide Informed, Distinct, Parts;
    out', short' := out, short;
    ghost var clean := true;
    var todo := rest.Keys;
    while todo != {}
      invariant todo <= rest.Keys && Informed(workers.received, routes, out', short') && short <= short'
      invariant forall i: nat :: OutOf(out', i) == OutOf(out, i) + if i in todo then [] else OutOf(rest, i)
      invariant workers.attempts >= old(workers.attempts)
      invariant if workers.AllAccepted(old(workers.attempts), workers.attempts) then short' == short else short' != {}
      decreases todo
    {
      var i :| i in todo;
      ghost var received, outBefore := workers.received, out';
      var missed, parts := workers.SendRest(routes, i, rest[i]);
      PartsAreAll(routes, i, rest[i], missed, parts);
      FlushInforms(received, workers.received, routes, outBefore, short', i, rest[i], missed, parts);
      out' := out'[i := OutOf(out', i) + rest[i]];
      short' := short' + missed;
      todo := todo - {i};
    }
  }

  lemma PartsAreAll(routes: seq<Route>, stream: nat, frames: seq<Frame>, missed: set<nat>, parts: seq<seq<Frame>>)
    requires Parts(routes, stream, frames, missed, parts)
    ensures |parts| == |routes|
  {}

  /** A connection from its first frame to the end of the flush. `delayed` are the frames the
      decoder still holds at the end, `n` and `m` tell how far processing got. Every variant gets
      what its stream delivered, in order, with frames left out exactly if it is in `short`; that
      needs a send that failed, and without one everything is processed and delivered. */
  method RunConnection(workers: Workers, routes: seq<Route>, arrivals: seq<Arrival>, delayed: seq<Arrival>,
                       timeBase: nat -> Rational)
    returns (n: nat, m: nat, out: map<nat, seq<Frame>>, ghost runs: map<nat, Run>, ghost tails: map<nat, seq<Frame>>,
             ghost short: set<nat>)
    requires Distinct(routes) && workers.received == map[]
    modifies workers
    ensures n <= |arrivals| && m <= |delayed|
    ensures forall i: nat ::
              Delivered(FramesOf(arrivals[..n] + delayed[..m], i), timeBase(i),
                        RunOf(runs, i), OutOf(tails, i), OutOf(out, i))
    ensures Informed(workers.received, routes, out, short)
    ensures if workers.AllAccepted(old(workers.attempts), workers.attempts)
            then short == {} && n == |arrivals| && m == |delayed| else short != {}
  {
    hide Explained, Informed, Delivered, Distinct;
    var runner := new PipelineRunner();
    NobodyInformed(routes);
    NothingExplained(runner, timeBase);
    assert [] + arrivals[..0] == [];
    n, runs, out, short := RunArrivals(runner, workers, routes, [], arrivals, timeBase, map[], map[], {});
    assert [] + arrivals[..n] == arrivals[..n];
    m, runs, out, short := RunArrivals(runner, workers, routes, arrivals[..n], delayed, timeBase, runs, out, short);
    ghost var sent := out;
    var rest;
    rest, tails := FlushVideo(runner, arrivals[..n] + delayed[..m], timeBase, runs, out);
    out, short := SendFlushed(workers, routes, out, rest, short);
    forall i: nat
      ensures Delivered(FramesOf(arrivals[..n] + delayed[..m], i), timeBase(i),
                        RunOf(runs, i), OutOf(tails, i), OutOf(out, i))
    {
      assert OutOf(out, i) == OutOf(sent, i) + OutOf(rest, i);
    }
  }

  lemma NothingExplained(runner: PipelineRunner, timeBase: nat -> Rational)
    requires runner.Valid() && runner.frameReorderBuffers == map[] && runner.ptsOffsets == map[]
    ensures Explained(runner, [], timeBase, map[], map[])
  {
    forall i: nat ensures StreamExplained(runner, [], timeBase, map[], map[], i) {
      HistoryInit(timeBase(i));
    }
  }

  /** What any variant receives has strictly increasing timestamps, whatever it misses and whichever
      frames have none, if every step of the repair of its stream can represent a later tick. */
  lemma EveryVariantSeesIncreasingTime(routes: seq<Route>, received: map<nat, seq<Frame>>, out: map<nat, seq<Frame>>,
                                       short: set<nat>, m: nat, frames: seq<Frame>, tb: Rational, run: Run,
                                       tail: seq<Frame>)
    requires Informed(received, routes, out, short) && m < |routes|
    requires Delivered(frames, tb, run, tail, OutOf(out, routes[m].src)) && Stamped(frames)
    requires RunAdvances(Present(Pts(Flat(run.outs) + tail)), tb)
    ensures StrictlyIncreasing(Present(Pts(Got(received, routes[m].id))))
  {
    hide Delivered, RunAdvances, Stamped, Thinned, Flat, Present;
    EncodersSeeIncreasingTimeIff(frames, tb, run, tail, OutOf(out, routes[m].src));
    assert RouteOk(Got(received, routes[m].id), OutOf(out, routes[m].src), routes[m].id in short);
    ThinnedIncreases(Got(received, routes[m].id), OutOf(out, routes[m].src));
  }
}
