/** Metering of streams: catch-up billing by a poller
    (crates/zap-stream-external/src/cloudflare/api.rs) and per-segment billing by the
    self-hosted overseer (crates/zap-stream/src/overseer.rs).

    Durations are exact reals in seconds, amounts are integers in millisatoshi. */
module Billing {
  import opened Wrappers
  import opened Arith
  import opened Ledger
  import opened Timestamps

  const MAX_BILLABLE_CATCHUP_SECS := 120.0

  /** Rounding to the nearest integer, halves away from zero. */
  function Round(x: real): int {
    if x >= 0.0 then (x + 0.5).Floor else -(-x + 0.5).Floor
  }

  function BillableDuration(elapsed: real, duration: real): real {
    MinReal(MaxReal(elapsed - duration, 0.0), MAX_BILLABLE_CATCHUP_SECS)
  }

  lemma BillableIff(elapsed: real, duration: real)
    ensures BillableDuration(elapsed, duration) > 0.0 <==> duration < elapsed
  {}

  /** Price of `secs` seconds at `rate` per minute; a cast to i64 saturates. */
  function CostForDuration(rate: nat, secs: real): nat {
    var cost := Round(rate as real * (secs / 60.0));
    if cost > 0 then (if cost <= I64_MAX then cost else I64_MAX) else 0
  }

  /** The row of a live stream as the poller read it. */
  datatype Snapshot = Snapshot(id: nat, userId: nat, duration: real, endpoint: Option<nat>)

  /** What one billing attempt does to the tables. */
  function Billed(db: Db, s: Snapshot, rates: map<nat, nat>, elapsed: real): Db {
    if s.endpoint.None? || s.endpoint.value !in rates || rates[s.endpoint.value] == 0 then db
    else
      var billable := BillableDuration(elapsed, s.duration);
      if billable <= 0.0 then db
      else Apply(db, TickStream(s.id, s.userId, billable, CostForDuration(rates[s.endpoint.value], billable)))
  }

  /** Charges for the time since the last bill; true means that the money ran out. */
  method BillStream(store: ZapStreamDb, s: Snapshot, rates: map<nat, nat>, elapsed: real)
      returns (broke: Result<bool, ()>)
    modifies store
    ensures store.State() == Billed(old(store.State()), s, rates, elapsed)
    ensures broke.Err? ==> store.State() == old(store.State())
    ensures broke.Ok? && broke.value <==>
              && s.endpoint.Some? && s.endpoint.value in rates && rates[s.endpoint.value] > 0 && s.duration < elapsed
              && s.userId in old(store.users) && store.users[s.userId] <= 0
  {
    if s.endpoint.None? { return Ok(false); }
    if s.endpoint.value !in rates { return Err(()); }
    var rate := rates[s.endpoint.value];
    if rate == 0 { return Ok(false); }
    var billable := BillableDuration(elapsed, s.duration);
    if billable <= 0.0 { return Ok(false); }
    var cost := CostForDuration(rate, billable);
    var balance := store.DoTickStream(s.id, s.userId, billable, cost);
    broke := if balance.Some? then Ok(balance.value <= 0) else Err(());
  }

  // ----- Runs of polls ----------------------------------------------------------

  /** The part of the tables that belongs to one stream and its owner. */
  datatype Account = Account(balance: int, cost: nat, duration: real)

  predicate Owned(db: Db, id: nat) {
    id in db.streams && db.streams[id].userId in db.users
  }

  function AccountOf(db: Db, id: nat): Account
    requires Owned(db, id)
  {
    var row := db.streams[id];
    Account(db.users[row.userId], row.cost, row.duration)
  }

  function Poll(a: Account, rate: nat, elapsed: real): Account {
    var billable := BillableDuration(elapsed, a.duration);
    if rate == 0 || billable <= 0.0 then a
    else
      var cost := CostForDuration(rate, billable);
      Account(a.balance - cost, a.cost + cost, a.duration + billable)
  }

  function PollAll(a: Account, rate: nat, times: seq<real>): Account {
    if times == [] then a else Poll(PollAll(a, rate, times[..|times| - 1]), rate, times[|times| - 1])
  }

  /** Billing from a fresh snapshot is one poll of the account; nobody else is touched. */
  lemma BillingIsAPoll(db: Db, id: nat, endpoint: Option<nat>, rates: map<nat, nat>, elapsed: real)
    requires Owned(db, id)
    ensures var row := db.streams[id];
            var db' := Billed(db, Snapshot(id, row.userId, row.duration, endpoint), rates, elapsed);
            && Owned(db', id) && db'.streams[id].userId == row.userId
            && AccountOf(db', id) == Poll(AccountOf(db, id), RateOf(endpoint, rates), elapsed)
            && (forall u | u in db.users && u != row.userId :: u in db'.users && db'.users[u] == db.users[u])
  {
    hide BillableDuration, CostForDuration;
  }

  /** Streams without a known endpoint are free. */
  function RateOf(endpoint: Option<nat>, rates: map<nat, nat>): nat {
    if endpoint.Some? && endpoint.value in rates then rates[endpoint.value] else 0
  }

  // ----- The token bucket ---------------------------------------------------------

  predicate Monotone(times: seq<real>) {
    && (forall i | 0 <= i < |times| :: times[i] >= 0.0)
    && (forall i, j | 0 <= i < j < |times| :: times[i] <= times[j])
  }

  /** Clock time at poll `j` since the row's `starts`; poll 0 is that start. It includes any time
      the row was not live. */
  function Elapsed(times: seq<real>, j: nat): real
    requires j <= |times|
  {
    if j == 0 then 0.0 else times[j - 1]
  }

  /** The bound poll `j` puts on what can have been billed at the end. */
  function Line(times: seq<real>, j: nat): real
    requires j <= |times|
  {
    Elapsed(times, j) + MAX_BILLABLE_CATCHUP_SECS * (|times| - j) as real
  }

  lemma LineStep(times: seq<real>, j: nat)
    requires 0 < |times| && j < |times|
    ensures Line(times, j) == Line(times[..|times| - 1], j) + MAX_BILLABLE_CATCHUP_SECS
  {}

  /** The billed time is the minimum of all the lines: a token bucket that fills with clock time
      since `starts` and pays out at most 120 s a poll. */
  lemma {:induction false} TokenBucket(a: Account, rate: nat, times: seq<real>)
    requires a.duration == 0.0 && rate > 0 && Monotone(times)
    ensures forall j | 0 <= j <= |times| :: PollAll(a, rate, times).duration <= Line(times, j)
    ensures exists j | 0 <= j <= |times| :: PollAll(a, rate, times).duration == Line(times, j)
    decreases |times|
  {
    var d := PollAll(a, rate, times).duration;
    if times == [] {
      assert d == Line(times, 0);
    } else {
      var n := |times|;
      var init := times[..n - 1];
      TokenBucket(a, rate, init);
      var before := PollAll(a, rate, init).duration;
      assert before <= Line(init, n - 1) && Line(init, n - 1) == Elapsed(init, n - 1);
      assert n > 1 ==> times[n - 2] <= times[n - 1];
      PollDuration(PollAll(a, rate, init), rate, times[n - 1]);
      assert d == MinReal(times[n - 1], before + MAX_BILLABLE_CATCHUP_SECS);
      assert Line(times, n) == times[n - 1];
      forall j | 0 <= j <= n ensures d <= Line(times, j) {
        if j < n {
          LineStep(times, j);
          assert before <= Line(init, j);
        }
      }
      if d == times[n - 1] {
        assert d == Line(times, n);
      } else {
        var j: nat :| 0 <= j <= n - 1 && before == Line(init, j);
        LineStep(times, j);
        assert d == Line(times, j);
      }
    }
  }

  lemma PollDuration(a: Account, rate: nat, elapsed: real)
    requires rate > 0 && a.duration <= elapsed
    ensures Poll(a, rate, elapsed).duration == MinReal(elapsed, a.duration + MAX_BILLABLE_CATCHUP_SECS)
  {}

  /** Every poll leaves nothing unbilled exactly if no two polls are more than 120 s apart. */
  lemma ExactIffPolledOften(a: Account, rate: nat, times: seq<real>)
    requires a.duration == 0.0 && rate > 0 && Monotone(times)
    ensures (forall n | 0 <= n <= |times| :: PollAll(a, rate, times[..n]).duration == Elapsed(times, n))
       <==> (forall n | 0 < n <= |times| :: Elapsed(times, n) - Elapsed(times, n - 1) <= MAX_BILLABLE_CATCHUP_SECS)
  {
    if forall n | 0 < n <= |times| :: Elapsed(times, n) - Elapsed(times, n - 1) <= MAX_BILLABLE_CATCHUP_SECS {
      ExactWhilePolled(a, rate, times, |times|);
    } else {
      var n :| 0 < n <= |times| && Elapsed(times, n) - Elapsed(times, n - 1) > MAX_BILLABLE_CATCHUP_SECS;
      assert times[..n][..n - 1] == times[..n - 1] && times[..n][n - 1] == times[n - 1];
      assert || PollAll(a, rate, times[..n - 1]).duration != Elapsed(times, n - 1)
             || PollAll(a, rate, times[..n]).duration != Elapsed(times, n);
    }
  }

  lemma {:induction false} ExactWhilePolled(a: Account, rate: nat, times: seq<real>, m: nat)
    requires a.duration == 0.0 && rate > 0 && Monotone(times) && m <= |times|
    requires forall n | 0 < n <= |times| :: Elapsed(times, n) - Elapsed(times, n - 1) <= MAX_BILLABLE_CATCHUP_SECS
    ensures forall n | 0 <= n <= m :: PollAll(a, rate, times[..n]).duration == Elapsed(times, n)
  {
    if m > 0 {
      ExactWhilePolled(a, rate, times, m - 1);
      assert times[..m][..m - 1] == times[..m - 1] && Elapsed(times, m - 1) <= Elapsed(times, m);
      PollDuration(PollAll(a, rate, times[..m - 1]), rate, times[m - 1]);
    }
  }

  /** Even with a clock that jumps back and forth, no more is billed than the longest time since
      `starts` ever read. Whether that is time live is another question, see `LiveBilling`. */
  lemma {:induction false} BilledWithinClock(a: Account, rate: nat, times: seq<real>, longest: real)
    requires a.duration <= longest && forall i | 0 <= i < |times| :: times[i] <= longest
    ensures a.duration <= PollAll(a, rate, times).duration <= longest
    decreases |times|
  {
    if times != [] {
      BilledWithinClock(a, rate, times[..|times| - 1], longest);
    }
  }

  // ----- Cost -----------------------------------------------------------------------

  lemma RoundNear(x: real)
    ensures 2.0 * x - 1.0 <= 2.0 * Round(x) as real <= 2.0 * x + 1.0
  {}

  /** Rates whose charges fit the integer type of the ledger. */
  predicate Priced(rate: nat) { 2 * rate <= I64_MAX }

  /** Sixty times what was charged beyond the price of `secs`. */
  function Gap(rate: nat, cost: int, secs: real): real {
    60.0 * cost as real - rate as real * secs
  }

  lemma GapAdds(rate: nat, c: int, x: real, d: int, y: real)
    ensures Gap(rate, c + d, x + y) == Gap(rate, c, x) + Gap(rate, d, y)
    ensures Gap(rate, 0, 0.0) == 0.0
  {
    assert rate as real * (x + y) == rate as real * x + rate as real * y;
  }

  predicate Fits(rate: nat, secs: real) {
    secs >= 0.0 && rate as real * (secs / 60.0) <= I64_MAX as real
  }

  /** One charge is within half a unit of the exact price. */
  lemma ChargeNear(rate: nat, secs: real)
    requires Fits(rate, secs)
    ensures -30.0 <= Gap(rate, CostForDuration(rate, secs), secs) <= 30.0
  {
    var x := rate as real * (secs / 60.0);
    assert 60.0 * x == rate as real * secs;
    RealMul(rate as real, 0.0, secs / 60.0);
    RoundNear(x);
  }

  /** A charge is an i64 that is not negative: nothing is charged for no time, and a price beyond the
      range is charged as the end of the range. */
  lemma ChargeIsClamped(rate: nat, secs: real)
    ensures CostForDuration(rate, secs) <= I64_MAX
    ensures secs <= 0.0 ==> CostForDuration(rate, secs) == 0
    ensures rate as real * (secs / 60.0) >= I64_MAX as real ==> CostForDuration(rate, secs) == I64_MAX
  {
    if secs <= 0.0 {
      RealMul(rate as real, 0.0, -secs / 60.0);
      assert rate as real * (secs / 60.0) == -(rate as real * (-secs / 60.0));
    }
  }

  /** One poll never charges more than two minutes. */
  lemma ChargeBounded(rate: nat, secs: real)
    requires Priced(rate) && 0.0 <= secs <= MAX_BILLABLE_CATCHUP_SECS
    ensures Fits(rate, secs) && CostForDuration(rate, secs) <= 2 * rate
  {
    RealMul(rate as real, secs / 60.0, 2.0);
    var x := rate as real * (secs / 60.0);
    assert 0.0 <= x <= (2 * rate) as real;
    RoundNear(x);
  }

  lemma RealMul(r: real, x: real, y: real)
    requires r >= 0.0 && 0.0 <= x <= y
    ensures 0.0 <= r * x <= r * y
  {}

  function Excess(rate: nat, a: Account, b: Account): real {
    Gap(rate, b.cost - a.cost, b.duration - a.duration)
  }

  lemma ExcessAdds(rate: nat, a: Account, b: Account, c: Account)
    ensures Excess(rate, a, c) == Excess(rate, a, b) + Excess(rate, b, c)
    ensures Excess(rate, a, a) == 0.0
  {
    hide Gap;
    GapAdds(rate, b.cost - a.cost, b.duration - a.duration, c.cost - b.cost, c.duration - b.duration);
    assert (b.duration - a.duration) + (c.duration - b.duration) == c.duration - a.duration;
    assert (b.cost - a.cost) + (c.cost - b.cost) == c.cost - a.cost;
  }

  lemma PollExcess(a: Account, rate: nat, elapsed: real)
    requires Priced(rate)
    ensures Poll(a, rate, elapsed).balance + Poll(a, rate, elapsed).cost == a.balance + a.cost
    ensures -30.0 <= Excess(rate, a, Poll(a, rate, elapsed)) <= 30.0
  {
    hide CostForDuration;
    var secs := BillableDuration(elapsed, a.duration);
    ChargeBounded(rate, secs);
    ChargeNear(rate, secs);
    var b := Poll(a, rate, elapsed);
    if b == a {
      assert rate as real * 0.0 == 0.0;
    } else {
      assert b.duration - a.duration == secs;
    }
  }

  /** The total charge differs from the price of the billed time by at most half a unit a poll,
      and what the stream costs is what its owner lost. */
  lemma {:induction false} CumulativeCost(a: Account, rate: nat, times: seq<real>)
    requires Priced(rate)
    ensures PollAll(a, rate, times).balance + PollAll(a, rate, times).cost == a.balance + a.cost
    ensures -(30.0 * |times| as real) <= Excess(rate, a, PollAll(a, rate, times)) <= 30.0 * |times| as real
    decreases |times|
  {
    hide CostForDuration, Poll, Excess;
    if times == [] {
      ExcessAdds(rate, a, a, a);
    } else {
      var init, elapsed := times[..|times| - 1], times[|times| - 1];
      CumulativeCost(a, rate, init);
      var b := PollAll(a, rate, init);
      PollExcess(b, rate, elapsed);
      ExcessAdds(rate, a, b, Poll(b, rate, elapsed));
    }
  }

  /** The bound is tight: half-minute polls at one unit a minute are charged twice the price. */
  lemma {:induction false} RoundingBoundIsTight(balance: int, n: nat)
    ensures var times := seq(n, i => 30.0 * (i + 1) as real);
            var b := PollAll(Account(balance, 0, 0.0), 1, times);
            b.duration == 30.0 * n as real && b.cost == n
  {
    if n > 0 {
      RoundingBoundIsTight(balance, n - 1);
      var times := seq(n, i => 30.0 * (i + 1) as real);
      assert times[..n - 1] == seq(n - 1, i => 30.0 * (i + 1) as real);
      assert CostForDuration(1, 30.0) == 1;
    }
  }
}
