/** The poller on one live stream (crates/zap-stream-external/src/cloudflare/api.rs,
    `check_streams`): it bills, and ends the stream once the money has run out. If the end cannot
    be published the row stays live, and the next poll bills it again. If the viewer count has
    changed, the row as it was read before the bill is written back, which forgets the bill. */
module Poller {
  import opened Wrappers
  import opened Timestamps
  import opened Ledger
  import opened Billing

  /** One poll: the time since the start of the row, whether its input is connected, whether an
      end could be published, and whether the row is written back after the bill. */
  datatype Tick = Tick(elapsed: real, connected: bool, endPublished: bool, wroteBack: bool)

  /** Does the poll bill, and find that this used up the money? */
  predicate Empties(a: Account, rate: nat, t: Tick) {
    && t.connected && rate > 0 && BillableDuration(t.elapsed, a.duration) > 0.0
    && Poll(a, rate, t.elapsed).balance <= 0
  }

  /** A stream that is to be ended is not written back. */
  predicate Forgets(a: Account, rate: nat, t: Tick) { t.connected && t.wroteBack && !Empties(a, rate, t) }

  function Visit(a: Account, rate: nat, t: Tick): Account {
    if !t.connected then a
    else
      var b := Poll(a, rate, t.elapsed);
      if Forgets(a, rate, t) then Account(b.balance, a.cost, a.duration) else b
  }

  function VisitAll(start: Account, rate: nat, ticks: seq<Tick>): Account {
    if ticks == [] then start else Visit(VisitAll(start, rate, ticks[..|ticks| - 1]), rate, ticks[|ticks| - 1])
  }

  function Before(start: Account, rate: nat, ticks: seq<Tick>, k: nat): Account
    requires k <= |ticks|
  {
    VisitAll(start, rate, ticks[..k])
  }

  /** Does poll `k` find the money gone? */
  predicate Breaks(start: Account, rate: nat, ticks: seq<Tick>, k: nat)
    requires k < |ticks|
  {
    Empties(Before(start, rate, ticks, k), rate, ticks[k])
  }

  /** Does poll `k` try to end the stream? */
  predicate Closes(start: Account, rate: nat, ticks: seq<Tick>, k: nat)
    requires k < |ticks|
  {
    !ticks[k].connected || Breaks(start, rate, ticks, k)
  }

  /** Polls that found the money gone and could not publish the end. */
  function FailedEnds(start: Account, rate: nat, ticks: seq<Tick>): nat {
    if ticks == [] then 0
    else
      var k := |ticks| - 1;
      FailedEnds(start, rate, ticks[..k]) + if Breaks(start, rate, ticks, k) && !ticks[k].endPublished then 1 else 0
  }

  /** The stream was still live after the first `n` polls. */
  predicate LivesOn(start: Account, rate: nat, ticks: seq<Tick>, n: nat)
    requires n <= |ticks|
  {
    forall k: nat | k < n :: Closes(start, rate, ticks, k) ==> !ticks[k].endPublished
  }

  lemma BeforeStep(start: Account, rate: nat, ticks: seq<Tick>, k: nat)
    requires k < |ticks|
    ensures Before(start, rate, ticks, k + 1) == Visit(Before(start, rate, ticks, k), rate, ticks[k])
  {
    assert ticks[..k + 1][..k] == ticks[..k];
  }

  /** A poll finds the money gone exactly if it is not free, there was something to bill, and nothing
      is left. A free stream is never ended for want of money. */
  lemma BreaksIff(start: Account, rate: nat, ticks: seq<Tick>, k: nat)
    requires k < |ticks|
    ensures Breaks(start, rate, ticks, k) <==>
              && ticks[k].connected && rate != 0 && ticks[k].elapsed > Before(start, rate, ticks, k).duration
              && Before(start, rate, ticks, k + 1).balance <= 0
  {
    hide CostForDuration;
    BeforeStep(start, rate, ticks, k);
  }

  /** What happens at poll `k` is decided by the polls up to it. */
  lemma BreaksEarly(start: Account, rate: nat, ticks: seq<Tick>, n: nat, k: nat)
    requires k < n <= |ticks|
    ensures Breaks(start, rate, ticks[..n], k) == Breaks(start, rate, ticks, k)
  {
    assert ticks[..n][..k] == ticks[..k];
  }

  lemma FailedEndsStep(start: Account, rate: nat, ticks: seq<Tick>, k: nat)
    requires k < |ticks|
    ensures FailedEnds(start, rate, ticks[..k + 1])
         == FailedEnds(start, rate, ticks[..k])
            + if Breaks(start, rate, ticks, k) && !ticks[k].endPublished then 1 else 0
  {
    hide Breaks;
    assert ticks[..k + 1][..k] == ticks[..k];
    BreaksEarly(start, rate, ticks, k + 1, k);
  }

  /** A fresh snapshot at every poll, as long as the row is live. */
  method PollStream(store: ZapStreamDb, id: nat, endpoint: Option<nat>, rates: map<nat, nat>, ticks: seq<Tick>)
      returns (polls: nat, ended: bool)
    requires Owned(store.State(), id)
    modifies store
    ensures polls <= |ticks| && Owned(store.State(), id)
    ensures AccountOf(store.State(), id)
            == Before(old(AccountOf(store.State(), id)), RateOf(endpoint, rates), ticks, polls)
    ensures if ended then
              && polls > 0 && LivesOn(old(AccountOf(store.State(), id)), RateOf(endpoint, rates), ticks, polls - 1)
              && Closes(old(AccountOf(store.State(), id)), RateOf(endpoint, rates), ticks, polls - 1)
              && ticks[polls - 1].endPublished
            else polls == |ticks| && LivesOn(old(AccountOf(store.State(), id)), RateOf(endpoint, rates), ticks, polls)
  {
    hide BillableDuration, Billed, Poll, Before, Empties, Visit;
    ghost var start, rate := AccountOf(store.State(), id), RateOf(endpoint, rates);
    polls, ended := 0, false;
    NothingPolled(start, rate, ticks);
    while polls < |ticks| && !ended
      invariant polls <= |ticks| && Owned(store.State(), id)
      invariant AccountOf(store.State(), id) == Before(start, rate, ticks, polls)
      invariant ended ==> polls > 0 && Closes(start, rate, ticks, polls - 1) && ticks[polls - 1].endPublished
      invariant LivesOn(start, rate, ticks, if ended then polls - 1 else polls)
      decreases |ticks| - polls, !ended
    {
      BeforeStep(start, rate, ticks, polls);
      var closes := PollOnce(store, id, endpoint, rates, ticks[polls]);
      ended := closes && ticks[polls].endPublished;
      polls := polls + 1;
    }
  }

  /** One poll of the row; tells whether the stream is to be ended. */
  method PollOnce(store: ZapStreamDb, id: nat, endpoint: Option<nat>, rates: map<nat, nat>, tick: Tick)
      returns (closes: bool)
    requires Owned(store.State(), id)
    modifies store
    ensures Owned(store.State(), id)
    ensures AccountOf(store.State(), id) == Visit(old(AccountOf(store.State(), id)), RateOf(endpoint, rates), tick)
    ensures closes <==> !tick.connected || Empties(old(AccountOf(store.State(), id)), RateOf(endpoint, rates), tick)
  {
    hide BillableDuration, Billed, Poll;
    if !tick.connected { return true; }
    var row := store.streams[id];
    var snapshot := Snapshot(id, row.userId, row.duration, endpoint);
    BillingIsAPoll(store.State(), id, endpoint, rates, tick.elapsed);
    BillableIff(tick.elapsed, row.duration);
    var broke := BillStream(store, snapshot, rates, tick.elapsed);
    if broke.Ok? && broke.value { return true; }
    if tick.wroteBack {
      store.DoUpdateStream(id, row);
    }
    closes := false;
  }

  lemma NothingPolled(start: Account, rate: nat, ticks: seq<Tick>)
    ensures Before(start, rate, ticks, 0) == start
  {}

  // ----- What forgotten bills cost --------------------------------------------------

  /** What was charged in bills that the row has forgotten. */
  function ForgottenCost(start: Account, rate: nat, ticks: seq<Tick>): nat {
    if ticks == [] then 0
    else
      var init, t := ticks[..|ticks| - 1], ticks[|ticks| - 1];
      var a := VisitAll(start, rate, init);
      ForgottenCost(start, rate, init) + if Forgets(a, rate, t) then a.balance - Poll(a, rate, t.elapsed).balance else 0
  }

  /** Balance, cost of the row and forgotten bills add up over any run of polls. */
  lemma {:induction false} CostsAddUp(start: Account, rate: nat, ticks: seq<Tick>)
    ensures var a := VisitAll(start, rate, ticks);
            a.balance + a.cost + ForgottenCost(start, rate, ticks) == start.balance + start.cost
    decreases |ticks|
  {
    hide CostForDuration, BillableDuration;
    if ticks != [] {
      CostsAddUp(start, rate, ticks[..|ticks| - 1]);
    }
  }

  /** A stream polled after 30 and after 60 seconds, at one unit a second. If the first poll writes
      the row back, 90 units are charged for the minute. */
  lemma ForgottenBillIsChargedAgain()
    ensures var start, ticks := Account(1000, 0, 0.0), [Tick(30.0, true, true, true), Tick(60.0, true, true, false)];
            VisitAll(start, 60, ticks[..1]).balance == 970 && VisitAll(start, 60, ticks) == Account(910, 60, 60.0)
  {
    var start, first, second := Account(1000, 0, 0.0), Tick(30.0, true, true, true), Tick(60.0, true, true, false);
    assert CostForDuration(60, 30.0) == 30 && CostForDuration(60, 60.0) == 60;
    assert Visit(start, 60, first) == Account(970, 0, 0.0);
    assert Visit(Account(970, 0, 0.0), 60, second) == Account(910, 60, 60.0);
    assert [first, second][..1] == [first] && [first][..0] == [];
    assert VisitAll(start, 60, [first]) == Visit(VisitAll(start, 60, []), 60, first);
  }

  // ----- How deep the debt can get --------------------------------------------------

  /** The price of two minutes, `n` times. */
  function TwoMinutes(rate: nat, n: nat): nat { 2 * rate * n }

  lemma TwoMinutesMore(rate: nat, n: nat)
    ensures TwoMinutes(rate, n + 1) == TwoMinutes(rate, n) + 2 * rate && TwoMinutes(rate, 0) == 0
  {
    assert 2 * rate * (n + 1) == 2 * rate * n + 2 * rate;
  }

  lemma VisitCharges(a: Account, rate: nat, t: Tick)
    requires Priced(rate)
    ensures a.balance - 2 * rate <= Visit(a, rate, t).balance <= a.balance
    ensures !Empties(a, rate, t) ==> Visit(a, rate, t).balance > 0 || Visit(a, rate, t).balance == a.balance
  {
    hide CostForDuration;
    ChargeBounded(rate, BillableDuration(t.elapsed, a.duration));
  }

  /** While the stream is live it is in debt only by what was charged after ends that failed. */
  lemma {:induction false} DebtWhileLive(start: Account, rate: nat, ticks: seq<Tick>, n: nat)
    requires Priced(rate) && start.balance > 0 && n <= |ticks| && LivesOn(start, rate, ticks, n)
    ensures var a := Before(start, rate, ticks, n);
            a.balance > 0 || a.balance > -(TwoMinutes(rate, FailedEnds(start, rate, ticks[..n])) as int)
    ensures FailedEnds(start, rate, ticks[..n]) == 0 ==> Before(start, rate, ticks, n).balance > 0
    decreases n
  {
    hide Visit, Empties, FailedEnds, TwoMinutes, Before;
    if n == 0 {
      NothingPolled(start, rate, ticks);
    } else {
      DebtWhileLive(start, rate, ticks, n - 1);
      BeforeStep(start, rate, ticks, n - 1);
      VisitCharges(Before(start, rate, ticks, n - 1), rate, ticks[n - 1]);
      FailedEndsStep(start, rate, ticks, n - 1);
      TwoMinutesMore(rate, FailedEnds(start, rate, ticks[..n - 1]));
    }
  }

  /** Each end that cannot be published costs the owner of an empty account at most another two
      minutes. */
  lemma DebtIsBounded(start: Account, rate: nat, ticks: seq<Tick>, n: nat)
    requires Priced(rate) && start.balance > 0 && 0 < n <= |ticks| && LivesOn(start, rate, ticks, n - 1)
    ensures Before(start, rate, ticks, n).balance
            > -(TwoMinutes(rate, 1 + FailedEnds(start, rate, ticks[..n - 1])) as int)
  {
    hide Visit, Empties, FailedEnds, Before, TwoMinutes, Breaks;
    DebtWhileLive(start, rate, ticks, n - 1);
    BeforeStep(start, rate, ticks, n - 1);
    VisitCharges(Before(start, rate, ticks, n - 1), rate, ticks[n - 1]);
    TwoMinutesMore(rate, FailedEnds(start, rate, ticks[..n - 1]));
  }

  /** If no end fails to be published, the debt stays below two minutes' price. */
  lemma DebtWithoutFailures(start: Account, rate: nat, ticks: seq<Tick>, n: nat)
    requires Priced(rate) && start.balance > 0 && 0 < n <= |ticks| && LivesOn(start, rate, ticks, n - 1)
    requires forall k | 0 <= k < |ticks| :: ticks[k].endPublished
    ensures Before(start, rate, ticks, n).balance > -(2 * rate as int)
  {
    hide Before, Breaks;
    NoFailures(start, rate, ticks[..n - 1]);
    DebtIsBounded(start, rate, ticks, n);
    TwoMinutesMore(rate, 0);
  }

  lemma {:induction false} NoFailures(start: Account, rate: nat, ticks: seq<Tick>)
    requires forall k | 0 <= k < |ticks| :: ticks[k].endPublished
    ensures FailedEnds(start, rate, ticks) == 0
    decreases |ticks|
  {
    if ticks != [] {
      NoFailures(start, rate, ticks[..|ticks| - 1]);
    }
  }

  /** Polls two minutes apart of which only number `n` can publish an end. */
  function LatePublication(n: nat): seq<Tick> {
    seq(n + 1, i requires 0 <= i <= n => Tick(MAX_BILLABLE_CATCHUP_SECS * (i + 1) as real, true, i == n, false))
  }

  /** The bound is attained for every number of failures. */
  lemma DebtBoundIsAttained(rate: nat, n: nat)
    requires Priced(rate) && rate > 0
    ensures var start, ticks := Account(1, 0, 0.0), LatePublication(n);
            && LivesOn(start, rate, ticks, n) && Breaks(start, rate, ticks, n) && ticks[n].endPublished
            && FailedEnds(start, rate, ticks[..n]) == n
            && Before(start, rate, ticks, n + 1).balance == 1 - TwoMinutes(rate, 1 + n)
  {
    hide FailedEnds, Breaks, Before, Visit, TwoMinutes;
    var start, ticks := Account(1, 0, 0.0), LatePublication(n);
    LateRun(rate, n, n + 1);
    forall k: nat | k <= n ensures Breaks(start, rate, ticks, k) { LateBreaks(rate, n, k); }
    LateFailures(rate, n, n);
  }

  lemma {:induction false} LateRun(rate: nat, n: nat, k: nat)
    requires Priced(rate) && rate > 0 && k <= n + 1
    ensures Before(Account(1, 0, 0.0), rate, LatePublication(n), k)
         == Account(1 - TwoMinutes(rate, k), TwoMinutes(rate, k), MAX_BILLABLE_CATCHUP_SECS * k as real)
    decreases k
  {
    hide Before, TwoMinutes, CostForDuration;
    var start, ticks := Account(1, 0, 0.0), LatePublication(n);
    if k == 0 {
      NothingPolled(start, rate, ticks);
      TwoMinutesMore(rate, 0);
    } else {
      LateRun(rate, n, k - 1);
      BeforeStep(start, rate, ticks, k - 1);
      TwoMinutesCost(rate);
      TwoMinutesMore(rate, k - 1);
    }
  }

  lemma TwoMinutesCost(rate: nat)
    requires Priced(rate)
    ensures CostForDuration(rate, MAX_BILLABLE_CATCHUP_SECS) == 2 * rate
  {
    assert rate as real * (MAX_BILLABLE_CATCHUP_SECS / 60.0) == (2 * rate) as real;
  }

  lemma LateBreaks(rate: nat, n: nat, k: nat)
    requires Priced(rate) && rate > 0 && k <= n
    ensures Breaks(Account(1, 0, 0.0), rate, LatePublication(n), k)
  {
    hide Before, CostForDuration;
    LateRun(rate, n, k);
    LateRun(rate, n, k + 1);
    BeforeStep(Account(1, 0, 0.0), rate, LatePublication(n), k);
  }

  lemma {:induction false} LateFailures(rate: nat, n: nat, k: nat)
    requires Priced(rate) && rate > 0 && k <= n
    ensures FailedEnds(Account(1, 0, 0.0), rate, LatePublication(n)[..k]) == k
    decreases k
  {
    hide Breaks;
    if k > 0 {
      LateFailures(rate, n, k - 1);
      LateBreaks(rate, n, k - 1);
      FailedEndsStep(Account(1, 0, 0.0), rate, LatePublication(n), k - 1);
    }
  }
}
