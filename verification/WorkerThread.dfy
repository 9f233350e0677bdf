/** The receive loop of one worker (crates/core/src/pipeline/worker.rs), run to its end on
    everything that will ever be sent to it. */
module WorkerThread {
  import opened Failures
  import opened Shutdown

  class PipelineWorkerThread {
    /** The only sender of the work queue, until somebody takes it. */
    var workQueueTx: bool
    var didFlush: bool

    constructor ()
      ensures workQueueTx && !didFlush
    {
      workQueueTx, didFlush := true, false;
    }

    /** Hands the sender out once; afterwards the worker cannot keep its own queue open. */
    method Sender() returns (tx: bool)
      modifies this`workQueueTx
      ensures tx == old(workQueueTx) && !workQueueTx
    {
      tx := workQueueTx;
      workQueueTx := false;
    }

    /** Receives until the queue is closed and empty, or gives up after 60 failures in a row.
        `outcomes[i]` tells whether handling `inbox[i]` succeeds. */
    method Run(inbox: seq<Command>, outcomes: seq<bool>) returns (handled: nat)
      requires |inbox| == |outcomes| && !workQueueTx
      modifies this`didFlush
      ensures handled <= |inbox|
      ensures handled < |inbox| ==> Trailing(outcomes[..handled]) == MAX_CONSECUTIVE_ERRORS
      ensures forall k | 0 <= k < handled :: Trailing(outcomes[..k]) < MAX_CONSECUTIVE_ERRORS
      ensures didFlush <==> old(didFlush) || Flush in inbox[..handled]
    {
      var consecutiveErrors := 0;
      handled := 0;
      while handled < |inbox|
        invariant handled <= |inbox|
        invariant consecutiveErrors == Trailing(outcomes[..handled]) && consecutiveErrors < MAX_CONSECUTIVE_ERRORS
        invariant forall k | 0 <= k < handled :: Trailing(outcomes[..k]) < MAX_CONSECUTIVE_ERRORS
        invariant didFlush <==> old(didFlush) || Flush in inbox[..handled]
      {
        if inbox[handled].Flush? {
          didFlush := true;
        }
        assert inbox[..handled + 1] == inbox[..handled] + [inbox[handled]];
        assert outcomes[..handled + 1][..handled] == outcomes[..handled];
        handled := handled + 1;
        if outcomes[handled - 1] {
          consecutiveErrors := 0;
        } else {
          consecutiveErrors := consecutiveErrors + 1;
          if consecutiveErrors >= MAX_CONSECUTIVE_ERRORS { break; }
        }
      }
    }
  }

  predicate FailsFrom(outcomes: seq<bool>, j: nat) {
    j + MAX_CONSECUTIVE_ERRORS <= |outcomes| && AllFailed(outcomes[j..j + MAX_CONSECUTIVE_ERRORS])
  }

  /** The counter of the loop reaches its limit exactly if some 60 commands in a row fail. */
  lemma GivesUpIff(outcomes: seq<bool>)
    ensures (exists k | 0 <= k <= |outcomes| :: Trailing(outcomes[..k]) >= MAX_CONSECUTIVE_ERRORS)
       <==> (exists j: nat :: FailsFrom(outcomes, j))
  {
    hide Trailing;
    if k :| 0 <= k <= |outcomes| && Trailing(outcomes[..k]) >= MAX_CONSECUTIVE_ERRORS {
      TrailingFailed(outcomes[..k], MAX_CONSECUTIVE_ERRORS);
      assert outcomes[..k][k - MAX_CONSECUTIVE_ERRORS..] == outcomes[k - MAX_CONSECUTIVE_ERRORS..k];
      assert FailsFrom(outcomes, k - MAX_CONSECUTIVE_ERRORS);
    }
    if j: nat :| FailsFrom(outcomes, j) {
      var k := j + MAX_CONSECUTIVE_ERRORS;
      assert outcomes[..k][k - MAX_CONSECUTIVE_ERRORS..] == outcomes[j..k];
      FailuresTrail(outcomes[..k], MAX_CONSECUTIVE_ERRORS);
    }
  }
}
