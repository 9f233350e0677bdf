/** Which Blossom servers a stream uploads to (crates/core-nostr/src/n94.rs): a server that
    fails three times in a row is not used again. */
module Blossom {
  import opened Arith
  import opened Failures
  import opened Wrappers

  const MAX_FAILURE_COUNT := 3

  type Url = string

  datatype Upload = Upload(server: Url, ok: bool)

  // ----- Counting ----------------------------------------------------------------

  function Count(counts: map<Url, nat>, server: Url): nat {
    if server in counts then counts[server] else 0
  }

  predicate Disabled(counts: map<Url, nat>, server: Url) { Count(counts, server) >= MAX_FAILURE_COUNT }

  function Marked(counts: map<Url, nat>, u: Upload): map<Url, nat> {
    if u.ok then counts - {u.server} else counts[u.server := Count(counts, u.server) + 1]
  }

  function MarkedAll(counts: map<Url, nat>, log: seq<Upload>): map<Url, nat> {
    if log == [] then counts else Marked(MarkedAll(counts, log[..|log| - 1]), log[|log| - 1])
  }

  /** The outcomes of one server, in order. */
  function OutcomesOf(log: seq<Upload>, server: Url): seq<bool> {
    if log == [] then []
    else
      var last := log[|log| - 1];
      OutcomesOf(log[..|log| - 1], server) + if last.server == server then [last.ok] else []
  }

  lemma MarkedCount(counts: map<Url, nat>, u: Upload, server: Url)
    ensures Count(Marked(counts, u), server)
         == if u.server != server then Count(counts, server) else if u.ok then 0 else Count(counts, server) + 1
  {}

  /** The counter is the number of failures since the last success. */
  lemma {:induction false} CountIsTrailing(log: seq<Upload>, server: Url)
    ensures Count(MarkedAll(map[], log), server) == Trailing(OutcomesOf(log, server))
    decreases |log|
  {
    hide Count, Marked, Trailing;
    if log == [] {
      NothingCounted(server);
    } else {
      var init, last := log[..|log| - 1], log[|log| - 1];
      CountIsTrailing(init, server);
      MarkedCount(MarkedAll(map[], init), last, server);
      TrailingPush(OutcomesOf(init, server), last.ok);
      assert OutcomesOf(init, server) + [] == OutcomesOf(init, server);
    }
  }

  lemma NothingCounted(server: Url)
    ensures Count(map[], server) == 0 == Trailing([])
  {}

  predicate LastFailed(outcomes: seq<bool>, n: nat) {
    |outcomes| >= n && AllFailed(outcomes[|outcomes| - n..])
  }

  /** Disabled means exactly that the last three attempts failed. */
  lemma DisabledIff(log: seq<Upload>, server: Url)
    ensures Disabled(MarkedAll(map[], log), server) <==> LastFailed(OutcomesOf(log, server), MAX_FAILURE_COUNT)
  {
    var outcomes := OutcomesOf(log, server);
    CountIsTrailing(log, server);
    if Trailing(outcomes) >= MAX_FAILURE_COUNT {
      TrailingFailed(outcomes, MAX_FAILURE_COUNT);
    } else if LastFailed(outcomes, MAX_FAILURE_COUNT) {
      FailuresTrail(outcomes, MAX_FAILURE_COUNT);
    }
  }

  // ----- The publisher -------------------------------------------------------------

  predicate Distinct(servers: seq<Url>) {
    forall i, j | 0 <= i < j < |servers| :: servers[i] != servers[j]
  }

  function Available(servers: seq<Url>, counts: map<Url, nat>): seq<Url> {
    if servers == [] then []
    else
      var last := servers[|servers| - 1];
      Available(servers[..|servers| - 1], counts) + if Disabled(counts, last) then [] else [last]
  }

  /** A choice that shuffling and cutting off the available servers can lead to. */
  ghost predicate Selection(servers: seq<Url>, counts: map<Url, nat>, max: nat, chosen: seq<Url>) {
    exists shuffled: seq<Url> ::
      multiset(shuffled) == multiset(Available(servers, counts)) && chosen == shuffled[..Min(max, |shuffled|)]
  }

  /** What one segment adds to the log. */
  function Uploads(chosen: seq<Url>, outcomes: map<Url, bool>): (log: seq<Upload>)
    ensures |log| == |chosen|
    ensures forall i | 0 <= i < |chosen| ::
      log[i] == Upload(chosen[i], chosen[i] in outcomes && outcomes[chosen[i]])
  {
    seq(|chosen|, i requires 0 <= i < |chosen| => Upload(chosen[i], chosen[i] in outcomes && outcomes[chosen[i]]))
  }

  /** Random swaps from the back; `draws` are the random numbers. */
  method Shuffle(servers: seq<Url>, draws: seq<nat>) returns (shuffled: seq<Url>)
    ensures multiset(shuffled) == multiset(servers)
  {
    shuffled := servers;
    var i := |servers|;
    while i > 1
      invariant i <= |shuffled| == |servers| && multiset(shuffled) == multiset(servers)
    {
      i := i - 1;
      var j := if i < |draws| then draws[i] % (i + 1) else i;
      shuffled := shuffled[i := shuffled[j]][j := shuffled[i]];
    }
  }

  /** A segment in the upload queue: whether the stream is published and a signer at hand, the
      random numbers, and how each server would answer. */
  datatype Segment = Segment(ready: bool, draws: seq<nat>, outcomes: map<Url, bool>)

  class N94Publisher {
    const servers: seq<Url>
    const maxServers: nat
    var disabledServers: map<Url, nat>

    constructor (servers: seq<Url>, maxServers: nat)
      ensures this.servers == servers && this.maxServers == maxServers && disabledServers == map[]
    {
      this.servers, this.maxServers := servers, maxServers;
      disabledServers := map[];
    }

    method MarkServerFailure(server: Url)
      modifies this
      ensures disabledServers == Marked(old(disabledServers), Upload(server, false))
    {
      if server !in disabledServers {
        disabledServers := disabledServers[server := 0];
      }
      disabledServers := disabledServers[server := disabledServers[server] + 1];
    }

    method MarkServerSuccess(server: Url)
      modifies this
      ensures disabledServers == Marked(old(disabledServers), Upload(server, true))
    {
      disabledServers := disabledServers - {server};
    }

    method SelectServersForUpload(draws: seq<nat>) returns (chosen: seq<Url>)
      ensures Selection(servers, disabledServers, maxServers, chosen)
    {
      var available: seq<Url> := [];
      for i := 0 to |servers|
        invariant available == Available(servers[..i], disabledServers)
      {
        assert servers[..i + 1][..i] == servers[..i];
        if !Disabled(disabledServers, servers[i]) {
          available := available + [servers[i]];
        }
      }
      assert servers[..|servers|] == servers;
      var shuffled := Shuffle(available, draws);
      chosen := shuffled[..Min(maxServers, |shuffled|)];
    }

    /** Selects, uploads to all selected servers, then counts. */
    method UploadSegment(seg: Segment) returns (log: seq<Upload>)
      modifies this
      ensures disabledServers == MarkedAll(old(disabledServers), log)
      ensures exists chosen ::
                Selection(servers, old(disabledServers), maxServers, chosen) && log == Uploads(chosen, seg.outcomes)
    {
      var chosen := SelectServersForUpload(seg.draws);
      log := Uploads(chosen, seg.outcomes);
      for i := 0 to |log|
        invariant disabledServers == MarkedAll(old(disabledServers), log[..i])
      {
        assert log[..i + 1][..i] == log[..i];
        if log[i].ok {
          MarkServerSuccess(log[i].server);
        } else {
          MarkServerFailure(log[i].server);
        }
      }
      assert log[..|log|] == log;
    }

    /** Works the queue off in order; returns what was uploaded for each segment. */
    method UploadWorker(queue: seq<Segment>) returns (batches: seq<seq<Upload>>)
      requires disabledServers == map[]
      modifies this
      ensures |batches| == |queue| && Selected(servers, maxServers, queue, batches)
      ensures disabledServers == MarkedAll(map[], Concat(batches))
    {
      hide Selected, Batch, Selection, Uploads, MarkedAll, Concat;
      batches := [];
      NothingSelected(servers, maxServers);
      for i := 0 to |queue|
        invariant |batches| == i && Selected(servers, maxServers, queue[..i], batches)
        invariant disabledServers == MarkedAll(map[], Concat(batches))
      {
        var log: seq<Upload> := [];
        ghost var counts := disabledServers;
        if queue[i].ready {
          log := UploadSegment(queue[i]);
        }
        BatchDone(servers, maxServers, counts, queue[i], log, disabledServers);
        MarkedConcat(map[], Concat(batches), log);
        assert queue[..i + 1] == queue[..i] + [queue[i]];
        SelectedMore(servers, maxServers, queue[..i], batches, queue[i], log);
        batches := batches + [log];
      }
      assert queue[..|queue|] == queue;
    }
  }

  // ----- Every run of segments --------------------------------------------------------

  function Concat(batches: seq<seq<Upload>>): seq<Upload> {
    if batches == [] then [] else Concat(batches[..|batches| - 1]) + batches[|batches| - 1]
  }

  /** The uploads of one segment: none if it is skipped, else to a selection made with the counts so
      far, with the answers of those servers. */
  ghost predicate Batch(servers: seq<Url>, max: nat, counts: map<Url, nat>, seg: Segment, log: seq<Upload>) {
    if !seg.ready then log == []
    else exists chosen :: Selection(servers, counts, max, chosen) && log == Uploads(chosen, seg.outcomes)
  }

  ghost predicate Selected(servers: seq<Url>, max: nat, queue: seq<Segment>, batches: seq<seq<Upload>>) {
    && |queue| == |batches|
    && forall i | 0 <= i < |batches| ::
         Batch(servers, max, MarkedAll(map[], Concat(batches[..i])), queue[i], batches[i])
  }

  lemma NothingSelected(servers: seq<Url>, max: nat)
    ensures Selected(servers, max, [], []) && MarkedAll(map[], Concat([])) == map[]
  {}

  lemma BatchDone(servers: seq<Url>, max: nat, counts: map<Url, nat>, seg: Segment, log: seq<Upload>,
                  after: map<Url, nat>)
    requires seg.ready ==> after == MarkedAll(counts, log)
                           && (exists chosen ::
                                 Selection(servers, counts, max, chosen) && log == Uploads(chosen, seg.outcomes))
    requires !seg.ready ==> log == [] && after == counts
    ensures Batch(servers, max, counts, seg, log) && after == MarkedAll(counts, log)
  {}

  lemma SelectedMore(servers: seq<Url>, max: nat, queue: seq<Segment>, batches: seq<seq<Upload>>, seg: Segment,
                     log: seq<Upload>)
    requires Selected(servers, max, queue, batches)
    requires Batch(servers, max, MarkedAll(map[], Concat(batches)), seg, log)
    ensures Selected(servers, max, queue + [seg], batches + [log]) && Concat(batches + [log]) == Concat(batches) + log
  {
    var more := batches + [log];
    assert more[..|batches|] == batches;
    forall i | 0 <= i < |more|
      ensures Batch(servers, max, MarkedAll(map[], Concat(more[..i])), (queue + [seg])[i], more[i])
    {
      if i < |batches| {
        assert more[..i] == batches[..i];
        assert Batch(servers, max, MarkedAll(map[], Concat(batches[..i])), queue[i], batches[i]);
      }
    }
  }

  lemma {:induction false} MarkedConcat(counts: map<Url, nat>, a: seq<Upload>, b: seq<Upload>)
    ensures MarkedAll(counts, a + b) == MarkedAll(MarkedAll(counts, a), b)
    decreases |b|
  {
    if b == [] {
      assert a + b == a;
    } else {
      MarkedConcat(counts, a, b[..|b| - 1]);
      assert (a + b)[..|a + b| - 1] == a + b[..|b| - 1];
    }
  }

  lemma {:induction false} AvailableIs(servers: seq<Url>, counts: map<Url, nat>)
    requires Distinct(servers)
    ensures forall s :: s in Available(servers, counts) <==> s in servers && !Disabled(counts, s)
    ensures forall s :: multiset(Available(servers, counts))[s] <= 1
    decreases |servers|
  {
    if servers != [] {
      var init, last := servers[..|servers| - 1], servers[|servers| - 1];
      AvailableIs(init, counts);
      assert servers == init + [last] && last !in init;
    }
  }

  /** Uploads go to different, enabled servers, and to no more than allowed. */
  lemma SelectionIs(servers: seq<Url>, counts: map<Url, nat>, max: nat, chosen: seq<Url>)
    requires Distinct(servers) && Selection(servers, counts, max, chosen)
    ensures |chosen| <= max && Distinct(chosen)
    ensures forall s | s in chosen :: s in servers && !Disabled(counts, s)
    ensures |chosen| < max ==> forall s | s in servers && !Disabled(counts, s) :: s in chosen
  {
    var shuffled: seq<Url> :|
      multiset(shuffled) == multiset(Available(servers, counts)) && chosen == shuffled[..Min(max, |shuffled|)];
    AvailableIs(servers, counts);
    forall s ensures s in shuffled <==> s in Available(servers, counts) {
      assert s in multiset(shuffled) <==> s in multiset(Available(servers, counts));
    }
    forall i, j | 0 <= i < j < |shuffled| ensures shuffled[i] != shuffled[j] {
      if shuffled[i] == shuffled[j] { TwiceCounts(shuffled, i, j); }
    }
  }

  lemma TwiceCounts(s: seq<Url>, i: nat, j: nat)
    requires i < j < |s| && s[i] == s[j]
    ensures multiset(s)[s[i]] >= 2
  {
    assert s == s[..j] + s[j..] && s[i] in multiset(s[..j]) && s[j] in multiset(s[j..]);
  }

  /** One batch changes the count of a server by its single outcome, if it is in the batch. */
  lemma {:induction false} BatchCounts(counts: map<Url, nat>, log: seq<Upload>, server: Url)
    requires forall i, j | 0 <= i < j < |log| :: log[i].server != log[j].server
    ensures Count(MarkedAll(counts, log), server) <= Count(counts, server) + 1
    ensures (forall i | 0 <= i < |log| :: log[i].server != server)
            ==> Count(MarkedAll(counts, log), server) == Count(counts, server)
    decreases |log|
  {
    if log != [] {
      BatchCounts(counts, log[..|log| - 1], server);
      if log[|log| - 1].server == server {
        assert forall i | 0 <= i < |log| - 1 :: log[i].server != server;
      }
    }
  }

  /** Does the server take the segment? */
  predicate Answers(seg: Segment, server: Url) { server in seg.outcomes && seg.outcomes[server] }

  ghost predicate Uploaded(log: seq<Upload>, server: Url) { exists i | 0 <= i < |log| :: log[i].server == server }

  lemma BatchIs(servers: seq<Url>, max: nat, counts: map<Url, nat>, seg: Segment, log: seq<Upload>)
    requires Distinct(servers) && Batch(servers, max, counts, seg, log)
    ensures |log| <= max
    ensures forall i, j | 0 <= i < j < |log| :: log[i].server != log[j].server
    ensures forall i | 0 <= i < |log| :: log[i].server in servers && !Disabled(counts, log[i].server)
    ensures forall i | 0 <= i < |log| :: log[i].ok <==> Answers(seg, log[i].server)
    ensures if seg.ready
            then |log| < max ==> forall s | s in servers && !Disabled(counts, s) :: Uploaded(log, s)
            else log == []
  {
    hide Selection, Distinct, Disabled, Uploads, Answers, Uploaded;
    if seg.ready {
      var chosen :| Selection(servers, counts, max, chosen) && log == Uploads(chosen, seg.outcomes);
      SelectionIs(servers, counts, max, chosen);
      UploadsAre(seg, chosen);
    }
  }

  lemma UploadsAre(seg: Segment, chosen: seq<Url>)
    requires Distinct(chosen)
    ensures var log := Uploads(chosen, seg.outcomes);
            && |log| == |chosen|
            && (forall i, j | 0 <= i < j < |log| :: log[i].server != log[j].server)
            && (forall i | 0 <= i < |log| ::
                  log[i].server in chosen && (log[i].ok <==> Answers(seg, log[i].server)))
            && forall s | s in chosen :: Uploaded(log, s)
  {
    var log := Uploads(chosen, seg.outcomes);
    forall s | s in chosen ensures Uploaded(log, s) {
      var i :| 0 <= i < |chosen| && chosen[i] == s;
      assert log[i].server == s;
    }
  }

  lemma SelectedPrefix(servers: seq<Url>, max: nat, queue: seq<Segment>, batches: seq<seq<Upload>>, n: nat)
    requires Selected(servers, max, queue, batches) && n <= |batches|
    ensures Selected(servers, max, queue[..n], batches[..n])
  {
    forall i | 0 <= i < n
      ensures Batch(servers, max, MarkedAll(map[], Concat(batches[..n][..i])), queue[..n][i], batches[..n][i])
    {
      assert batches[..n][..i] == batches[..i];
      assert Batch(servers, max, MarkedAll(map[], Concat(batches[..i])), queue[i], batches[i]);
    }
  }

  /** What the last segment does to one server. */
  lemma LastBatch(servers: seq<Url>, max: nat, queue: seq<Segment>, batches: seq<seq<Upload>>, server: Url)
    requires Distinct(servers) && Selected(servers, max, queue, batches) && batches != []
    ensures var init, last := batches[..|batches| - 1], batches[|batches| - 1];
            var before, after := MarkedAll(map[], Concat(init)), MarkedAll(map[], Concat(batches));
            && Selected(servers, max, queue[..|queue| - 1], init)
            && Count(after, server) <= Count(before, server) + 1
            && (Disabled(before, server) ==>
                  Count(after, server) == Count(before, server)
                    && forall j | 0 <= j < |last| :: last[j].server != server)
  {
    hide Batch, MarkedAll;
    var init, last := batches[..|batches| - 1], batches[|batches| - 1];
    var before := MarkedAll(map[], Concat(init));
    SelectedPrefix(servers, max, queue, batches, |batches| - 1);
    assert Batch(servers, max, before, queue[|queue| - 1], last);
    BatchIs(servers, max, before, queue[|queue| - 1], last);
    BatchCounts(before, last, server);
    MarkedConcat(map[], Concat(init), last);
  }

  /** No counter passes three. */
  lemma {:induction false} CountsStayBelow(servers: seq<Url>, max: nat, queue: seq<Segment>, batches: seq<seq<Upload>>,
                                           server: Url)
    requires Distinct(servers) && Selected(servers, max, queue, batches)
    ensures Count(MarkedAll(map[], Concat(batches)), server) <= MAX_FAILURE_COUNT
    decreases |batches|
  {
    hide Batch;
    if batches == [] {
      NothingCounted(server);
    } else {
      LastBatch(servers, max, queue, batches, server);
      CountsStayBelow(servers, max, queue[..|queue| - 1], batches[..|batches| - 1], server);
    }
  }

  /** A server that has been disabled stays disabled and is never uploaded to again. */
  lemma {:induction false} DisablingIsAbsorbing(servers: seq<Url>, max: nat, queue: seq<Segment>,
                                                batches: seq<seq<Upload>>, n: nat, server: Url)
    requires Distinct(servers) && Selected(servers, max, queue, batches) && n <= |batches|
    requires Disabled(MarkedAll(map[], Concat(batches[..n])), server)
    ensures Disabled(MarkedAll(map[], Concat(batches)), server)
    ensures forall i, j | n <= i < |batches| && 0 <= j < |batches[i]| :: batches[i][j].server != server
    decreases |batches|
  {
    hide Batch, MarkedAll, Concat, Count;
    if n == |batches| {
      assert batches[..n] == batches;
    } else {
      var m := |batches| - 1;
      LastBatch(servers, max, queue, batches, server);
      assert batches[..m][..n] == batches[..n];
      DisablingIsAbsorbing(servers, max, queue[..m], batches[..m], n, server);
      assert forall i | 0 <= i < m :: batches[..m][i] == batches[i];
    }
  }

  /** A segment that is not skipped goes to `max` different enabled servers, or to all of them if
      there are fewer, and what is counted is whether they took it. */
  lemma EverySegmentIsServed(servers: seq<Url>, max: nat, queue: seq<Segment>, batches: seq<seq<Upload>>, i: nat)
    requires Distinct(servers) && Selected(servers, max, queue, batches) && i < |batches|
    ensures |batches[i]| <= max
    ensures forall j, k | 0 <= j < k < |batches[i]| :: batches[i][j].server != batches[i][k].server
    ensures forall j | 0 <= j < |batches[i]| :: !Disabled(MarkedAll(map[], Concat(batches[..i])), batches[i][j].server)
    ensures forall j | 0 <= j < |batches[i]| :: batches[i][j].ok <==> Answers(queue[i], batches[i][j].server)
    ensures if queue[i].ready then
              |batches[i]| < max ==>
                forall s | s in servers && !Disabled(MarkedAll(map[], Concat(batches[..i])), s) ::
                  Uploaded(batches[i], s)
            else batches[i] == []
  {
    BatchIs(servers, max, MarkedAll(map[], Concat(batches[..i])), queue[i], batches[i]);
  }
}
