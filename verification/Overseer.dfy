/** What the self-hosted overseer does with finished segments
    (crates/zap-stream/src/overseer.rs): charge for them, start at most one automatic top-up
    a user, and warn once when the balance falls below a threshold. */
module Overseer {
  import opened Wrappers
  import opened Arith
  import opened Ledger
  import opened LedgerTheorems
  import opened Billing

  datatype Segment = Segment(duration: real, audioOnly: bool)

  const NWC_TOPUP_AMOUNT := 1000_000

  function VideoSeconds(segments: seq<Segment>): real {
    if segments == [] then 0.0
    else
      var last := segments[|segments| - 1];
      VideoSeconds(segments[..|segments| - 1]) + if last.audioOnly then 0.0 else last.duration
  }

  /** Duration and price of a batch. */
  function GetCost(rate: nat, segments: seq<Segment>): (real, nat) {
    var duration := VideoSeconds(segments);
    (MaxReal(duration, 0.0), CostForDuration(rate, duration))
  }

  function VideoOnly(segments: seq<Segment>): seq<Segment> {
    if segments == [] then []
    else
      var last := segments[|segments| - 1];
      VideoOnly(segments[..|segments| - 1]) + if last.audioOnly then [] else [last]
  }

  /** Shared audio renditions are free: leaving them out changes neither duration nor price. */
  lemma {:induction false} AudioIsFree(rate: nat, segments: seq<Segment>)
    ensures GetCost(rate, segments) == GetCost(rate, VideoOnly(segments))
    ensures forall s | s in VideoOnly(segments) :: s in segments && !s.audioOnly
  {
    VideoOnlySeconds(segments);
  }

  lemma {:induction false} VideoOnlySeconds(segments: seq<Segment>)
    ensures VideoSeconds(VideoOnly(segments)) == VideoSeconds(segments)
    ensures forall s | s in VideoOnly(segments) :: s in segments && !s.audioOnly
    decreases |segments|
  {
    if segments != [] {
      var init, last := segments[..|segments| - 1], segments[|segments| - 1];
      VideoOnlySeconds(init);
      assert (VideoOnly(init) + [last])[..|VideoOnly(init)|] == VideoOnly(init);
      assert last.audioOnly ==> VideoOnly(segments) == VideoOnly(init);
    }
  }

  /** The charged time is the sum of the durations of the video segments. */
  lemma {:induction false} VideoSecondsConcat(a: seq<Segment>, b: seq<Segment>)
    ensures VideoSeconds(a + b) == VideoSeconds(a) + VideoSeconds(b)
    decreases |b|
  {
    if b == [] {
      assert a + b == a;
    } else {
      VideoSecondsConcat(a, b[..|b| - 1]);
      assert (a + b)[..|a + b| - 1] == a + b[..|b| - 1];
    }
  }

  lemma OneSegment(s: Segment)
    ensures VideoSeconds([s]) == if s.audioOnly then 0.0 else s.duration
    ensures VideoSeconds([]) == 0.0
  {
    assert [s][..0] == [];
  }

  /** The price of a batch is within half a unit of its video minutes at the rate. */
  lemma BatchPrice(rate: nat, segments: seq<Segment>)
    requires Fits(rate, VideoSeconds(segments))
    ensures var (duration, cost) := GetCost(rate, segments);
            && duration == VideoSeconds(segments)
            && -30.0 <= Gap(rate, cost, VideoSeconds(segments)) <= 30.0
  {
    ChargeNear(rate, VideoSeconds(segments));
  }

  function Flatten(batches: seq<seq<Segment>>): seq<Segment> {
    if batches == [] then [] else Flatten(batches[..|batches| - 1]) + batches[|batches| - 1]
  }

  function BatchCost(rate: nat, batches: seq<seq<Segment>>): nat {
    if batches == [] then 0
    else BatchCost(rate, batches[..|batches| - 1]) + GetCost(rate, batches[|batches| - 1]).1
  }

  /** Over any number of batches what is charged is within half a unit a batch of the price of all
      their video time, however the segments are cut into batches. */
  lemma {:induction false} BatchesAgree(rate: nat, batches: seq<seq<Segment>>)
    requires forall i | 0 <= i < |batches| :: Fits(rate, VideoSeconds(batches[i]))
    ensures -(30.0 * |batches| as real) <= Gap(rate, BatchCost(rate, batches), VideoSeconds(Flatten(batches)))
                                        <= 30.0 * |batches| as real
    decreases |batches|
  {
    hide GetCost, Fits, Gap, VideoSeconds, Flatten, BatchCost;
    if batches == [] {
      NoBatches();
      GapAdds(rate, 0, 0.0, 0, 0.0);
    } else {
      var init, last := batches[..|batches| - 1], batches[|batches| - 1];
      BatchesAgree(rate, init);
      BatchPrice(rate, last);
      OneMoreBatch(rate, batches);
      GapAdds(rate, BatchCost(rate, init), VideoSeconds(Flatten(init)), GetCost(rate, last).1, VideoSeconds(last));
    }
  }

  lemma NoBatches()
    ensures VideoSeconds(Flatten([])) == 0.0 && forall rate :: BatchCost(rate, []) == 0
  {}

  lemma OneMoreBatch(rate: nat, batches: seq<seq<Segment>>)
    requires batches != []
    ensures var init, last := batches[..|batches| - 1], batches[|batches| - 1];
            && VideoSeconds(Flatten(batches)) == VideoSeconds(Flatten(init)) + VideoSeconds(last)
            && BatchCost(rate, batches) == BatchCost(rate, init) + GetCost(rate, last).1
  {
    VideoSecondsConcat(Flatten(batches[..|batches| - 1]), batches[|batches| - 1]);
  }

  /** The wallet address may not parse, the top-up or its invoice may be missing, the payment may fail. */
  datatype TopupOutcome = BadUri | NoTopup | NoInvoice | Paid | PaymentFailed

  /** `cost` is what a batch is worth, to within half a unit. */
  predicate Charged(rate: nat, added: seq<Segment>, cost: int) {
    Fits(rate, VideoSeconds(added)) ==> -30.0 <= Gap(rate, cost, VideoSeconds(added)) <= 30.0
  }

  lemma BatchIsCharged(rate: nat, added: seq<Segment>)
    ensures Charged(rate, added, GetCost(rate, added).1)
  {
    if Fits(rate, VideoSeconds(added)) {
      BatchPrice(rate, added);
    }
  }

  datatype Outcome = Fine | Failed | OutOfMoney

  class ZapStreamOverseer {
    const rates: map<nat, nat>
    const lowBalanceThreshold: Option<nat>
    var nwcTopupRequests: set<nat>
    /** The owners of the top-up tasks that are running. */
    var tasks: multiset<nat>

    constructor (rates: map<nat, nat>, threshold: Option<nat>)
      ensures OneTaskEach() && tasks == multiset{}
    {
      this.rates, lowBalanceThreshold := rates, threshold;
      nwcTopupRequests, tasks := {}, multiset{};
    }

    /** A user is marked as in flight exactly while one task runs for them. */
    ghost predicate OneTaskEach()
      reads this
    {
      tasks == multiset(nwcTopupRequests)
    }

    /** The ledger step a batch amounts to, if it gets that far. */
    ghost function Tick(db: Db, id: nat, endpoint: Option<nat>, added: seq<Segment>): (op: Option<Op>)
      ensures op.Some? ==> op.value.TickStream?
    {
      if id !in db.streams || endpoint.None? || endpoint.value !in rates then None
      else
        var (duration, cost) := GetCost(rates[endpoint.value], added);
        Some(TickStream(id, db.streams[id].userId, duration, cost))
    }

    method OnSegments(store: ZapStreamDb, id: nat, endpoint: Option<nat>, added: seq<Segment>, hasNwc: bool)
        returns (r: Outcome, notified: bool)
      requires OneTaskEach()
      modifies this, store
      ensures OneTaskEach()
      ensures var op := Tick(old(store.State()), id, endpoint, added);
              store.State() == (if op.Some? then Apply(old(store.State()), op.value) else old(store.State()))
      ensures notified <==>
              && Tick(old(store.State()), id, endpoint, added).Some? && lowBalanceThreshold.Some?
              && var op := Tick(old(store.State()), id, endpoint, added).value;
                 Warns(old(store.State()), op, op.user, lowBalanceThreshold.value * 1000)
      ensures !r.Failed? ==> id in old(store.streams) && endpoint.Some? && endpoint.value in rates
      ensures !r.Failed? ==>
                var u := old(store.streams)[id].userId;
                && u in old(store.users) && u in store.users
                && Charged(rates[endpoint.value], added, old(store.users)[u] - store.users[u])
      ensures var op := Tick(old(store.State()), id, endpoint, added);
              r == if op.None? || op.value.user !in store.users then Failed
                   else if op.value.cost > 0 && store.users[op.value.user] <= 0 then OutOfMoney else Fine
      ensures var op := Tick(old(store.State()), id, endpoint, added);
              nwcTopupRequests == old(nwcTopupRequests) + (
                if hasNwc && !r.Failed? && op.value.cost > 0 && store.users[op.value.user] < NWC_TOPUP_AMOUNT
                then {op.value.user} else {})
    {
      r, notified := Failed, false;
      if id !in store.streams { return; }
      var user := store.streams[id].userId;
      if endpoint.None? || endpoint.value !in rates { return; }
      var (duration, cost) := GetCost(rates[endpoint.value], added);
      BatchIsCharged(rates[endpoint.value], added);
      var bal := store.DoTickStream(id, user, duration, cost);
      if bal.None? { return; }
      if cost > 0 {
        if store.users[user] < NWC_TOPUP_AMOUNT && hasNwc {
          StartTopup(user);
        }
        if lowBalanceThreshold.Some? {
          var threshold := lowBalanceThreshold.value * 1000;
          var before := bal.value + cost;
          notified := before > threshold && bal.value <= threshold;
        }
        if bal.value <= 0 {
          r := OutOfMoney;
          return;
        }
      }
      r := Fine;
    }

    /** Marking the user and starting a task are one step: a second request finds the mark. */
    method StartTopup(user: nat)
      requires OneTaskEach()
      modifies this
      ensures OneTaskEach() && nwcTopupRequests == old(nwcTopupRequests) + {user}
    {
      var isNew := user !in nwcTopupRequests;
      nwcTopupRequests := nwcTopupRequests + {user};
      if isNew {
        tasks := tasks + multiset{user};
      }
    }

    /** A running task: each way out clears the mark of its user. */
    method RunTopup(user: nat, uriOk: bool, topup: Option<Option<string>>, paid: bool) returns (outcome: TopupOutcome)
      requires OneTaskEach() && user in tasks
      modifies this
      ensures OneTaskEach() && nwcTopupRequests == old(nwcTopupRequests) - {user}
              && tasks == old(tasks) - multiset{user}
      ensures outcome == if !uriOk then BadUri else if topup.None? then NoTopup else if topup.value.None? then NoInvoice
                         else if paid then Paid else PaymentFailed
    {
      tasks := tasks - multiset{user};
      if !uriOk {
        nwcTopupRequests := nwcTopupRequests - {user};
        return BadUri;
      }
      if topup.None? {
        nwcTopupRequests := nwcTopupRequests - {user};
        return NoTopup;
      }
      if topup.value.None? {
        nwcTopupRequests := nwcTopupRequests - {user};
        return NoInvoice;
      }
      outcome := if paid then Paid else PaymentFailed;
      nwcTopupRequests := nwcTopupRequests - {user};
    }
  }

  // ----- Low-balance warnings -------------------------------------------------------

  function Before(db: Db, u: nat): int {
    if u in db.users then db.users[u] else 0
  }

  /** A charge that takes the balance from above the threshold to the threshold or below. */
  predicate Warns(db: Db, op: Op, u: nat, threshold: int) {
    && op.TickStream? && op.user == u && op.cost > 0 && u in db.users && Apply(db, op) != db
    && Before(db, u) > threshold && Before(Apply(db, op), u) <= threshold
  }

  function Bit(b: bool): int { if b then 1 else 0 }

  function Warnings(db: Db, ops: seq<Op>, u: nat, threshold: int): nat {
    if ops == [] then 0
    else
      var init := ops[..|ops| - 1];
      Warnings(db, init, u, threshold) + if Warns(Run(db, init), ops[|ops| - 1], u, threshold) then 1 else 0
  }

  /** A step that takes the balance from the threshold or below to above it. */
  predicate Lifts(db: Db, op: Op, u: nat, threshold: int) {
    Before(db, u) <= threshold < Before(Apply(db, op), u)
  }

  /** A step on payments or balances, such as a withdrawal, that takes it the other way. */
  predicate Drains(db: Db, op: Op, u: nat, threshold: int) {
    !op.TickStream? && Before(Apply(db, op), u) <= threshold < Before(db, u)
  }

  function Lifted(db: Db, ops: seq<Op>, u: nat, threshold: int): nat {
    if ops == [] then 0
    else
      var init := ops[..|ops| - 1];
      Lifted(db, init, u, threshold) + if Lifts(Run(db, init), ops[|ops| - 1], u, threshold) then 1 else 0
  }

  function Drained(db: Db, ops: seq<Op>, u: nat, threshold: int): nat {
    if ops == [] then 0
    else
      var init := ops[..|ops| - 1];
      Drained(db, init, u, threshold) + if Drains(Run(db, init), ops[|ops| - 1], u, threshold) then 1 else 0
  }

  /** A step moves the balance across the threshold exactly if it warns, lifts or drains. */
  lemma CrossingIsOne(db: Db, op: Op, u: nat, threshold: int)
    ensures Bit(Before(Apply(db, op), u) > threshold) - Bit(Before(db, u) > threshold)
         == Bit(Lifts(db, op, u, threshold)) - Bit(Drains(db, op, u, threshold)) - Bit(Warns(db, op, u, threshold))
  {}

  /** Over any run of the ledger a user is warned exactly as often as charges took the balance
      down: as often as it was lifted above the threshold, less the times something else took it
      down, corrected by where it started and ended. */
  lemma {:induction false} WarningsBalance(db: Db, ops: seq<Op>, u: nat, threshold: int)
    ensures Warnings(db, ops, u, threshold) as int
         == Lifted(db, ops, u, threshold) - Drained(db, ops, u, threshold)
            + Bit(Before(db, u) > threshold) - Bit(Before(Run(db, ops), u) > threshold)
    decreases |ops|
  {
    hide Apply, Before, Lifts, Drains, Warns;
    if ops != [] {
      WarningsBalance(db, ops[..|ops| - 1], u, threshold);
      CrossingIsOne(Run(db, ops[..|ops| - 1]), ops[|ops| - 1], u, threshold);
    }
  }

  predicate Charge(op: Op) { op.TickStream? && op.cost >= 0 }

  /** While nothing is credited a user is warned at most once, and exactly once if the balance
      ends at or below a threshold it started above. */
  lemma {:induction false} WarnedOnce(db: Db, ops: seq<Op>, u: nat, threshold: int)
    requires u in db.users && forall op | op in ops :: Charge(op)
    ensures Warnings(db, ops, u, threshold) as int
            == Bit(Before(db, u) > threshold) - Bit(Before(Run(db, ops), u) > threshold)
    ensures u in Run(db, ops).users && Warnings(db, ops, u, threshold) <= 1
    decreases |ops|
  {
    if ops != [] {
      var init := ops[..|ops| - 1];
      WarnedOnce(db, init, u, threshold);
      assert Charge(ops[|ops| - 1]);
    }
  }
}
