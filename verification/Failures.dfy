/** Counting consecutive failures. `true` is a success. */
module Failures {
  /** Length of the run of failures at the end. */
  function Trailing(outcomes: seq<bool>): nat {
    if outcomes == [] || outcomes[|outcomes| - 1] then 0 else 1 + Trailing(outcomes[..|outcomes| - 1])
  }

  lemma TrailingPush(outcomes: seq<bool>, ok: bool)
    ensures Trailing(outcomes + [ok]) == if ok then 0 else Trailing(outcomes) + 1
  {
    assert (outcomes + [ok])[..|outcomes|] == outcomes;
  }

  predicate AllFailed(outcomes: seq<bool>) { forall i | 0 <= i < |outcomes| :: !outcomes[i] }

  lemma {:induction false} TrailingFailed(outcomes: seq<bool>, k: nat)
    requires k <= Trailing(outcomes)
    ensures k <= |outcomes| && AllFailed(outcomes[|outcomes| - k..])
  {
    if k > 0 {
      var init := outcomes[..|outcomes| - 1];
      TrailingFailed(init, k - 1);
      assert outcomes[|outcomes| - k..] == init[|init| - (k - 1)..] + [outcomes[|outcomes| - 1]];
    }
  }

  lemma {:induction false} FailuresTrail(outcomes: seq<bool>, k: nat)
    requires k <= |outcomes| && AllFailed(outcomes[|outcomes| - k..])
    ensures Trailing(outcomes) >= k
  {
    if k > 0 {
      var init := outcomes[..|outcomes| - 1];
      assert outcomes[|outcomes| - k..][k - 1] == outcomes[|outcomes| - 1];
      assert init[|init| - (k - 1)..] == outcomes[|outcomes| - k..][..k - 1];
      FailuresTrail(init, k - 1);
    }
  }
}
