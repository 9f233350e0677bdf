/** What every interleaving of a pipeline's shutdown has in common. */
module ShutdownTheorems {
  import opened Failures
  import opened Wrappers
  import opened Sums
  import opened Shutdown

  // ----- Queues ---------------------------------------------------------------

  /** The command that a step sends to worker `id`. */
  function Sends(step: Step, id: nat): seq<Command> {
    match step
    case Send(to, cmd) => if to == id then [cmd] else []
    case DrainSend(to, cmd) => if to == id then [cmd] else []
    case SendFlush(to) => if to == id then [Flush] else []
    case _ => []
  }

  /** What was sent to worker `id` while its thread was there. */
  function Accepted(steps: seq<Step>, id: nat): seq<Command> {
    if steps == [] then []
    else
      var init, last := steps[..|steps| - 1], steps[|steps| - 1];
      Accepted(init, id) + if Run(init).Some? && !Alive(Run(init).value, id) then [] else Sends(last, id)
  }

  function SentOf(s: State, id: nat): seq<Command> { if id in s.workers then s.workers[id].sent else [] }

  lemma SentStep(s: State, step: Step, id: nat)
    requires Enabled(s, step)
    ensures SentOf(Apply(s, step), id) == SentOf(s, id) + if Alive(s, id) then Sends(step, id) else []
  {
    var none: seq<Command> := [];
    assert SentOf(s, id) + none == SentOf(s, id);
    if step.Send? || step.DrainSend? || step.SendFlush? {
      hide Finished;
      assert step.to in s.workers;
    } else {
      assert Sends(step, id) == none;
      assert SentOf(Apply(s, step), id) == SentOf(s, id);
    }
  }

  lemma {:induction false} SentIsAccepted(steps: seq<Step>, id: nat)
    requires Run(steps).Some?
    ensures SentOf(Run(steps).value, id) == Accepted(steps, id)
    decreases |steps|
  {
    hide Apply, Enabled, Sends, Alive, SentOf;
    if steps == [] {
      NothingSent(id);
    } else {
      var init := steps[..|steps| - 1];
      SentIsAccepted(init, id);
      SentStep(Run(init).value, steps[|steps| - 1], id);
    }
  }

  lemma NothingSent(id: nat)
    ensures SentOf(INIT, id) == []
  {}

  /** At any moment of any schedule a worker has handled its commands in the order the runner sent
      them, and the bounded queue holds the rest; only commands to a thread that is gone are lost. */
  lemma QueuesAreFifo(steps: seq<Step>, id: nat)
    requires Run(steps).Some? && id in Run(steps).value.workers
    ensures var w := Run(steps).value.workers[id];
            && Accepted(steps, id) == w.sent == w.handled + Pending(w.busy) + w.queue
            && |w.queue| <= WORKER_QUEUE_CAPACITY
  {
    hide Run, Accepted;
    AlwaysInv(steps);
    SentIsAccepted(steps, id);
    assert WorkerInv(Run(steps).value, id);
  }

  // ----- The tail of the decoder -----------------------------------------------------

  /** Commands of the tails of the flushes so far, and those of them that were tried. */
  function Announced(steps: seq<Step>): nat {
    if steps == [] then 0
    else
      var last := steps[|steps| - 1];
      Announced(steps[..|steps| - 1]) + if last.BeginFlush? then last.pending else 0
  }

  function Tried(steps: seq<Step>): nat {
    if steps == [] then 0
    else Tried(steps[..|steps| - 1]) + if steps[|steps| - 1].DrainSend? then 1 else 0
  }

  lemma {:induction false} TailIsRest(steps: seq<Step>)
    requires Run(steps).Some?
    ensures Announced(steps) == Tried(steps) + Run(steps).value.tail
    decreases |steps|
  {
    if steps != [] {
      TailIsRest(steps[..|steps| - 1]);
      AlwaysInv(steps[..|steps| - 1]);
      TailStep(Run(steps[..|steps| - 1]).value, steps[|steps| - 1]);
    }
  }

  lemma TailStep(s: State, step: Step)
    requires RunnerInv(s) && Enabled(s, step)
    ensures Apply(s, step).tail + (if step.DrainSend? then 1 else 0)
         == s.tail + if step.BeginFlush? then step.pending else 0
  {
    hide Enqueued, Finished, CanSend;
  }

  /** Before the workers are told to flush, every command of the tail has been tried. */
  lemma WholeTailIsSent(steps: seq<Step>)
    requires Run(steps).Some? && !Run(steps).value.phase.Draining?
    ensures Tried(steps) == Announced(steps)
  {
    hide Run, Tried, Announced;
    TailIsRest(steps);
    AlwaysInv(steps);
  }

  predicate Closed(phase: Phase) { phase.Closing? || phase.Ending? || phase.Idle? || phase.Dropped? }

  /** Handled everything it was sent, the flush last, or failed 60 times in a row. */
  predicate Drained(w: Worker) {
    || (w.handled == w.sent && FlushLast(w.handled))
    || (|w.outcomes| >= MAX_CONSECUTIVE_ERRORS && AllFailed(w.outcomes[|w.outcomes| - MAX_CONSECUTIVE_ERRORS..]))
  }

  lemma ExitedIsDrained(w: Worker, open: bool)
    requires QueueInv(w, open) && w.exited && w.started && !w.late
    ensures Drained(w)
  {
    hide FlushLast, AllFailed;
    if GaveUp(w) {
      TrailingFailed(w.outcomes, MAX_CONSECUTIVE_ERRORS);
    } else {
      assert w.sent == w.handled + [] + [];
    }
  }

  /** When the egress is closed every worker that was there for the flush has finished: it
      handled all it was sent, the flush last, or its last 60 commands all failed. */
  lemma WorkersAreDrained(steps: seq<Step>, id: nat)
    requires Run(steps).Some? && Closed(Run(steps).value.phase) && id in Run(steps).value.workers
    requires Run(steps).value.workers[id].started && !Run(steps).value.workers[id].late
    ensures Run(steps).value.workers[id].exited && Drained(Run(steps).value.workers[id])
  {
    hide Run, QueueInv, Drained;
    AlwaysInv(steps);
    var s := Run(steps).value;
    assert WorkerInv(s, id);
    ExitedIsDrained(s.workers[id], id in s.channels);
  }

  // ----- Packets ----------------------------------------------------------------

  /** How many packets of worker `id` reached the egress. */
  function Muxes(events: seq<Event>, id: nat): nat {
    if events == [] then 0
    else Muxes(events[..|events| - 1], id) + if events[|events| - 1] == Muxed(id) then 1 else 0
  }

  /** How many packets the commands of worker `id` produced. */
  function Produced(steps: seq<Step>, id: nat): nat {
    if steps == [] then 0
    else
      var last := steps[|steps| - 1];
      Produced(steps[..|steps| - 1], id) + if last.Take? && last.worker == id then last.output else 0
  }

  function InHand(s: State, id: nat): nat { if id in s.workers then s.workers[id].packets else 0 }

  predicate Accounted(s: State, steps: seq<Step>, id: nat) {
    && Muxes(s.events, id) + InHand(s, id) <= Produced(steps, id)
    && (Finish(id, false) !in steps ==> Muxes(s.events, id) + InHand(s, id) == Produced(steps, id))
    && (id in s.workers && s.workers[id].busy.None? ==> s.workers[id].packets == 0)
  }

  lemma MuxesConcat(events: seq<Event>, e: Event, id: nat)
    ensures Muxes(events + [e], id) == Muxes(events, id) + if e == Muxed(id) then 1 else 0
  {
    assert (events + [e])[..|events|] == events;
  }

  lemma AccountedStep(s: State, steps: seq<Step>, step: Step, id: nat)
    requires Accounted(s, steps, id) && Enabled(s, step)
    ensures Accounted(Apply(s, step), steps + [step], id)
  {
    hide Muxes, Enqueued;
    assert (steps + [step])[..|steps|] == steps;
    forall e ensures Muxes(s.events + [e], id) == Muxes(s.events, id) + if e == Muxed(id) then 1 else 0 {
      MuxesConcat(s.events, e, id);
    }
    forall w, cmd ensures Enqueued(w, cmd).packets == w.packets && Enqueued(w, cmd).busy == w.busy {
      EnqueuedKeepsHand(w, cmd);
    }
  }

  lemma EnqueuedKeepsHand(w: Worker, cmd: Command)
    ensures Enqueued(w, cmd).packets == w.packets && Enqueued(w, cmd).busy == w.busy
  {}

  lemma {:induction false} AlwaysAccounted(steps: seq<Step>, id: nat)
    requires Run(steps).Some?
    ensures Accounted(Run(steps).value, steps, id)
    decreases |steps|
  {
    hide Apply, Enabled, Accounted;
    if steps == [] {
      AccountedInit(id);
    } else {
      var init, last := steps[..|steps| - 1], steps[|steps| - 1];
      AlwaysAccounted(init, id);
      AccountedStep(Run(init).value, init, last, id);
      assert init + [last] == steps;
    }
  }

  lemma AccountedInit(id: nat)
    ensures Accounted(INIT, [], id)
  {}

  /** Whatever the schedule, a worker muxes no packet that a command did not produce; while none
      of its commands fails every packet produced is muxed before the next command is taken, so
      that once the egress is closed none is missing. */
  lemma EveryPacketIsMuxed(steps: seq<Step>, id: nat)
    requires Run(steps).Some?
    ensures Muxes(Run(steps).value.events, id) <= Produced(steps, id)
    ensures Finish(id, false) !in steps && id in Run(steps).value.workers
              && (Run(steps).value.workers[id].busy.None? || Closed(Run(steps).value.phase))
            ==> Muxes(Run(steps).value.events, id) == Produced(steps, id)
  {
    hide Run, Muxes, Produced;
    AlwaysAccounted(steps, id);
    AlwaysInv(steps);
    var s := Run(steps).value;
    if id in s.workers {
      assert WorkerInv(s, id);
      if Closed(s.phase) && s.workers[id].busy.Some? {
        NothingInHand(s, id);
      }
    }
  }

  lemma NothingInHand(s: State, id: nat)
    requires Inv(s) && id in s.workers && Closed(s.phase)
    ensures s.workers[id].busy.None?
  {
    assert WorkerInv(s, id);
    var w := s.workers[id];
    assert w.sent == w.handled + Pending(w.busy) + w.queue;
    assert |w.sent| > 0 || w.busy.None?;
  }

  // ----- Leaving the loop -----------------------------------------------------------

  /** What makes the loop return an error: anything of its own, a setup that fails, and a send to
      a worker that is gone unless it only carried a thumbnail. */
  predicate Fails(s: State, step: Step) {
    || step.Fail? || step.SetupFail?
    || (step.Send? && step.to in s.workers && s.workers[step.to].exited && !step.cmd.SaveThumbnail?)
  }

  /** The loop stops exactly at an error, or when the flush or the drop begins. */
  lemma LoopStopsIff(s: State, step: Step)
    requires Looping(s) && Enabled(s, step)
    ensures !Looping(Apply(s, step)) <==> Fails(s, step) || step.BeginFlush? || step.Drop?
  {
    hide Enqueued, Finished;
  }

  predicate Stopped(s: State) { s.failed || s.dropping || s.phase.Dropped? }

  /** Steps that only the loop takes. */
  predicate OfLoop(step: Step) {
    step.SetupOk? || step.SetupFail? || step.Send? || step.Fail? || (step.BeginFlush? && !step.fromDrop)
  }

  lemma StaysStopped(s: State, step: Step)
    requires Stopped(s) && Enabled(s, step)
    ensures Stopped(Apply(s, step)) && !OfLoop(step)
  {
    hide Enqueued, Finished, CanSend;
  }

  lemma {:induction false} NothingOfLoop(before: seq<Step>, after: seq<Step>)
    requires Run(before).Some? && Stopped(Run(before).value) && Run(before + after).Some?
    ensures Stopped(Run(before + after).value) && forall step | step in after :: !OfLoop(step)
    decreases |after|
  {
    hide Stopped, OfLoop, Apply, Enabled;
    if after == [] {
      assert before + after == before;
    } else {
      var init, last := after[..|after| - 1], after[|after| - 1];
      assert (before + after)[..|before + after| - 1] == before + init;
      NothingOfLoop(before, init);
      StaysStopped(Run(before + init).value, last);
      assert after == init + [last];
    }
  }

  /** An error is final, and so is the drop: nothing of the loop happens any more, whatever else does. */
  lemma FailureIsFinal(before: seq<Step>, step: Step, after: seq<Step>)
    requires Run(before).Some? && Run(before + [step] + after).Some?
    requires Fails(Run(before).value, step) || (step.BeginFlush? && step.fromDrop) || step.Drop?
    ensures forall later | later in after :: !OfLoop(later)
  {
    hide OfLoop, Run;
    RunPrefix(before + [step], after);
    RunStep(before, step);
    assert Stopped(Apply(Run(before).value, step));
    NothingOfLoop(before + [step], after);
  }

  lemma RunStep(before: seq<Step>, step: Step)
    requires Run(before + [step]).Some?
    ensures Run(before).Some? && Enabled(Run(before).value, step)
    ensures Run(before + [step]) == Some(Apply(Run(before).value, step))
  {
    hide Enabled, Apply;
    assert (before + [step])[..|before|] == before;
  }

  lemma {:induction false} RunPrefix(before: seq<Step>, after: seq<Step>)
    requires Run(before + after).Some?
    ensures Run(before).Some?
    decreases |after|
  {
    hide Enabled, Apply;
    if after == [] {
      assert before + after == before;
    } else {
      assert (before + after)[..|before + after| - 1] == before + after[..|after| - 1];
      RunPrefix(before, after[..|after| - 1]);
    }
  }

  // ----- The life of a pipeline ---------------------------------------------------

  function Starts(events: seq<Event>): nat {
    if events == [] then 0 else Starts(events[..|events| - 1]) + if events[|events| - 1].StartStream? then 1 else 0
  }

  predicate BeforeClosing(events: seq<Event>) { EgressReset !in events && OnEnd !in events }

  /** What the overseer and the egress saw: `before` the closing, and `after` it. */
  predicate Shape(s: State, before: seq<Event>, after: seq<Event>) {
    && BeforeClosing(before) && Starts(before) <= 1
    && (Starts(before) == 1 ==> s.configured || s.failed)
    && s.events == before + Closings(s.phase) + after
    && (after == [] || (after == [StartStream] && Starts(before) == 0 && !s.ready && (s.configured || s.failed)))
    && (after != [] ==> s.phase.Idle? || s.phase.Dropped?)
    && (Closed(s.phase) || s.phase.Draining? || s.phase.Flushing? || s.phase.Joining? ==> (s.ready ==> s.configured))
    && (Starts(before) == 0 && s.phase.Working? ==> !s.configured)
    && (!s.phase.Working? && Starts(before) == 0 ==> !s.ready)
  }

  function Closings(phase: Phase): seq<Event> {
    if phase.Ending? then [EgressReset] else if phase.Idle? || phase.Dropped? then [EgressReset, OnEnd] else []
  }

  lemma StartsConcat(events: seq<Event>, e: Event)
    ensures Starts(events + [e]) == Starts(events) + if e.StartStream? then 1 else 0
  {
    assert (events + [e])[..|events|] == events;
  }

  /** Nobody writes to an egress that has been reset. */
  lemma MuxesBeforeClosing(s: State, id: nat)
    requires Inv(s) && Enabled(s, Mux(id))
    ensures !Closed(s.phase)
  {
    assert WorkerInv(s, id);
    var w := s.workers[id];
    assert w.sent == w.handled + Pending(w.busy) + w.queue;
    assert |w.sent| > 0;
  }

  lemma ShapeSetup(s: State, step: Step, before: seq<Event>, after: seq<Event>)
      returns (before': seq<Event>, after': seq<Event>)
    requires Enabled(s, step) && Shape(s, before, after)
    requires step.SetupOk? || (step.SetupFail? && step.streaming)
    ensures Shape(Apply(s, step), before', after')
  {
    hide Starts;
    before', after' := before, after;
    if s.phase.Working? {
      before' := before + [StartStream];
      StartsConcat(before, StartStream);
      assert s.events + [StartStream] == before' + [] + [];
    } else {
      after' := [StartStream];
      assert s.events + [StartStream] == before + [EgressReset, OnEnd] + after';
    }
  }

  lemma ShapeMux(s: State, id: nat, before: seq<Event>, after: seq<Event>)
    requires Inv(s) && Enabled(s, Mux(id)) && Shape(s, before, after)
    ensures Shape(Apply(s, Mux(id)), before + [Muxed(id)], after)
  {
    hide Starts, Inv;
    MuxesBeforeClosing(s, id);
    StartsConcat(before, Muxed(id));
    assert s.events + [Muxed(id)] == before + [Muxed(id)] + [] + [];
  }

  lemma ShapeClose(s: State, step: Step, before: seq<Event>, after: seq<Event>)
    requires Enabled(s, step) && Shape(s, before, after) && (step.CloseEgress? || step.CallOnEnd?)
    ensures Shape(Apply(s, step), before, after)
  {
    hide Starts;
    assert before + [EgressReset] + [OnEnd] == before + [EgressReset, OnEnd];
  }

  /** The other steps add no event. */
  lemma ShapeQuiet(s: State, step: Step, before: seq<Event>, after: seq<Event>)
    requires Enabled(s, step) && Shape(s, before, after)
    requires !step.SetupOk? && (step.SetupFail? ==> !step.streaming) && !step.Mux? && !step.CloseEgress?
             && !step.CallOnEnd?
    ensures Shape(Apply(s, step), before, after)
  {
    hide Starts, Enqueued, Finished, CanSend, BeforeClosing;
  }

  lemma ShapeStep(s: State, step: Step, before: seq<Event>, after: seq<Event>)
      returns (before': seq<Event>, after': seq<Event>)
    requires Inv(s) && Enabled(s, step) && Shape(s, before, after)
    ensures Shape(Apply(s, step), before', after')
  {
    hide Inv, Enabled, Apply, Shape;
    before', after' := before, after;
    if step.SetupOk? || (step.SetupFail? && step.streaming) {
      before', after' := ShapeSetup(s, step, before, after);
    } else if step.Mux? {
      ShapeMux(s, step.worker, before, after);
      before' := before + [Muxed(step.worker)];
    } else if step.CloseEgress? || step.CallOnEnd? {
      ShapeClose(s, step, before, after);
    } else {
      ShapeQuiet(s, step, before, after);
    }
  }

  lemma {:induction false} AlwaysShaped(steps: seq<Step>) returns (before: seq<Event>, after: seq<Event>)
    requires Run(steps).Some?
    ensures Shape(Run(steps).value, before, after)
    decreases |steps|
  {
    hide Shape, Apply, Enabled, Inv;
    if steps == [] {
      before, after := [], [];
      ShapeInit();
    } else {
      var init := steps[..|steps| - 1];
      before, after := AlwaysShaped(init);
      AlwaysInv(init);
      before, after := ShapeStep(Run(init).value, steps[|steps| - 1], before, after);
    }
  }

  lemma ShapeInit()
    ensures Shape(INIT, [], [])
  {}

  /** The whole life of a runner, whatever the schedule: at most one stream is started, packets
      are muxed, the egress is reset once, `on_end` is called once, and nothing follows except,
      if the pipeline was not configured when it was shut down, a late start. */
  lemma Lifetime(steps: seq<Step>) returns (before: seq<Event>, after: seq<Event>)
    requires Run(steps).Some? && Run(steps).value.phase.Dropped?
    ensures Run(steps).value.events == before + [EgressReset, OnEnd] + after
    ensures EgressReset !in before && OnEnd !in before && Starts(before) + |after| <= 1
    ensures after == [] || (after == [StartStream] && !Run(steps).value.ready)
  {
    before, after := AlwaysShaped(steps);
  }

  lemma RunOn(steps: seq<Step>, step: Step)
    requires Run(steps).Some? && Enabled(Run(steps).value, step)
    ensures Run(steps + [step]) == Some(Apply(Run(steps).value, step))
  {
    hide Enabled, Apply;
    assert (steps + [step])[..|steps|] == steps;
  }

  /** The late start is real: whenever a flush ends before the pipeline was configured, the loop
      may go on to start the stream, and nothing ends that stream any more. */
  lemma LateStart(steps: seq<Step>, ids: set<nat>)
    requires Run(steps).Some? && Run(steps).value.phase.Idle? && !Run(steps).value.failed
    requires !Run(steps).value.configured && ids !! Run(steps).value.workers.Keys
    ensures var r := Run(steps + [SetupOk(ids)] + [Drop]);
            r.Some? && r.value.phase.Dropped? && r.value.events == Run(steps).value.events + [StartStream]
  {
    AlwaysInv(steps);
    hide Run;
    RunOn(steps, SetupOk(ids));
    RunOn(steps + [SetupOk(ids)], Drop);
  }

  /** No thread outlives its runner: once it is dropped it holds no sender and no handle, and the
      workers of a late start have nothing left but to close. */
  lemma NoThreadIsLeft(steps: seq<Step>, id: nat)
    requires Run(steps).Some? && Run(steps).value.phase.Dropped?
    ensures Run(steps).value.channels == {} && Run(steps).value.handles == {}
    ensures Alive(Run(steps).value, id) ==> Enabled(Run(steps).value, Close(id))
  {
    hide Run;
    AlwaysInv(steps);
    if Alive(Run(steps).value, id) {
      assert WorkerInv(Run(steps).value, id);
      var w := Run(steps).value.workers[id];
      assert |w.sent| == |w.handled + Pending(w.busy) + w.queue|;
    }
  }

  const FLUSH := [BeginFlush(0, false), EndDrain, EndFlushing, EndJoin, CloseEgress, CallOnEnd]

  /** A shutdown command that is already waiting when the runner starts leads there. */
  lemma CommandBeforeSetup()
    ensures Run(FLUSH) == Some(INIT.(phase := Idle, events := [EgressReset, OnEnd]))
  {
    var s3 := FlushedUntilJoin();
    hide Run;
    RunOn(FLUSH[..3], EndJoin);
    assert FLUSH[..3] + [EndJoin] == FLUSH[..4];
    RunOn(FLUSH[..4], CloseEgress);
    assert FLUSH[..4] + [CloseEgress] == FLUSH[..5];
    RunOn(FLUSH[..5], CallOnEnd);
    assert FLUSH[..5] + [CallOnEnd] == FLUSH;
    assert [] + [EgressReset] == [EgressReset] && [EgressReset] + [OnEnd] == [EgressReset, OnEnd];
  }

  lemma FlushedUntilJoin() returns (s: State)
    ensures s == INIT.(phase := Joining) && Run(FLUSH[..3]) == Some(s)
  {
    s := INIT.(phase := Joining);
    assert Run([]) == Some(INIT);
    hide Run;
    RunOn([], BeginFlush(0, false));
    assert [] + [BeginFlush(0, false)] == FLUSH[..1];
    RunOn(FLUSH[..1], EndDrain);
    assert FLUSH[..1] + [EndDrain] == FLUSH[..2];
    RunOn(FLUSH[..2], EndFlushing);
    assert FLUSH[..2] + [EndFlushing] == FLUSH[..3];
  }

  // ----- The joins terminate --------------------------------------------------------

  predicate InFlush(s: State) {
    s.phase.Draining? || s.phase.Flushing? || s.phase.Joining? || s.phase.Closing? || s.phase.Ending?
  }

  function Weight(w: Worker): nat {
    2 * |w.queue| + (if w.busy.Some? then 1 else 0) + (if w.exited then 0 else 1)
  }

  function Weights(workers: map<nat, Worker>): map<nat, int> { map id | id in workers :: Weight(workers[id]) }

  function Outputs(workers: map<nat, Worker>): map<nat, int> { map id | id in workers :: workers[id].packets }

  function Rank(phase: Phase): nat {
    match phase
    case Draining => 5 case Flushing => 4 case Joining => 3 case Closing => 2 case Ending => 1 case _ => 0
  }

  /** Work left in a flush: first component. */
  ghost function Effort(s: State): int {
    3 * s.tail + 3 * |s.channels| + |s.handles| + Rank(s.phase) + Total(Weights(s.workers))
  }

  ghost function Output(s: State): int { Total(Outputs(s.workers)) }

  lemma EffortNonNegative(s: State)
    ensures Effort(s) >= 0 && Output(s) >= 0
  {
    TotalNonNegative(Weights(s.workers));
    TotalNonNegative(Outputs(s.workers));
  }

  lemma WorkerUpdate(s: State, s': State, id: nat)
    requires id in s.workers && id in s'.workers && s'.workers == s.workers[id := s'.workers[id]]
    ensures Total(Weights(s'.workers)) == Total(Weights(s.workers)) - Weight(s.workers[id]) + Weight(s'.workers[id])
    ensures Total(Outputs(s'.workers)) == Total(Outputs(s.workers)) - s.workers[id].packets + s'.workers[id].packets
  {
    hide Total;
    TotalUpdate(Weights(s.workers), id, Weight(s'.workers[id]));
    assert Weights(s'.workers) == Weights(s.workers)[id := Weight(s'.workers[id])];
    TotalUpdate(Outputs(s.workers), id, s'.workers[id].packets);
    assert Outputs(s'.workers) == Outputs(s.workers)[id := s'.workers[id].packets];
  }

  ghost predicate Progress(s: State, s': State) {
    Effort(s') < Effort(s) || (Effort(s') == Effort(s) && Output(s') < Output(s))
  }

  lemma WorkerProgresses(s: State, step: Step)
    requires Enabled(s, step) && (step.Take? || step.Mux? || step.Finish? || step.Close?)
    ensures Progress(s, Apply(s, step))
  {
    hide Total;
    WorkerUpdate(s, Apply(s, step), step.worker);
  }

  lemma SendProgresses(s: State, step: Step)
    requires Enabled(s, step) && (step.DrainSend? || step.SendFlush?)
    ensures Progress(s, Apply(s, step))
  {
    hide Total;
    WorkerUpdate(s, Apply(s, step), step.to);
  }

  lemma RunnerProgresses(s: State, step: Step)
    requires InFlush(s) && Enabled(s, step)
    requires step.EndDrain? || step.EndFlushing? || step.Join? || step.EndJoin? || step.CloseEgress? || step.CallOnEnd?
    ensures Progress(s, Apply(s, step))
  {
    hide Total, Weights, Outputs, Enqueued, Finished, CanSend;
  }

  /** Every step taken while a flush is going on, by whomever, leaves less to do. */
  lemma FlushProgresses(s: State, step: Step)
    requires InFlush(s) && Enabled(s, step)
    ensures Progress(s, Apply(s, step))
  {
    hide Apply, Progress, CanSend;
    if step.Take? || step.Mux? || step.Finish? || step.Close? {
      WorkerProgresses(s, step);
    } else if step.DrainSend? || step.SendFlush? {
      SendProgresses(s, step);
    } else {
      RunnerProgresses(s, step);
    }
  }

  /** Somebody can always move without a command failing: a full queue belongs to a living
      worker, and a thread being joined has lost its sender. */
  lemma FlushIsNeverStuck(s: State) returns (step: Step)
    requires Inv(s) && InFlush(s)
    ensures Enabled(s, step) && (step.Finish? ==> step.ok)
  {
    match s.phase
    case Draining =>
      if s.tail == 0 {
        step := EndDrain;
      } else {
        var id :| id in s.channels;
        step := Unblock(s, id, DrainSend(id, EncodeFrame(0)));
      }
    case Flushing =>
      if s.channels == {} {
        step := EndFlushing;
      } else {
        var id :| id in s.channels;
        step := Unblock(s, id, SendFlush(id));
      }
    case Joining =>
      if s.handles == {} {
        step := EndJoin;
      } else {
        var id :| id in s.handles;
        var w := s.workers[id];
        assert WorkerInv(s, id);
        step := if w.exited then Join(id) else if w.busy.Some? then Handle(s, id)
                else if w.queue != [] then Take(id, 0) else Close(id);
      }
    case Closing => step := CloseEgress;
    case Ending => step := CallOnEnd;
  }

  /** The next step of a worker with a command in hand, if nothing fails. */
  function Handle(s: State, id: nat): Step
    requires id in s.workers
  {
    if s.workers[id].packets > 0 then Mux(id) else Finish(id, true)
  }

  lemma Unblock(s: State, id: nat, send: Step) returns (step: Step)
    requires Inv(s) && id in s.channels && !send.Finish?
    requires CanSend(s, id) ==> Enabled(s, send)
    ensures Enabled(s, step) && (step.Finish? ==> step.ok)
  {
    var w := s.workers[id];
    step := if CanSend(s, id) then send else if w.busy.Some? then Handle(s, id) else Take(id, 0);
  }

  /** The flush comes to its end on every schedule. */
  least predicate Inevitable(s: State) {
    || !InFlush(s)
    || ((exists step :: Enabled(s, step)) && forall step :: Enabled(s, step) ==> Inevitable(Apply(s, step)))
  }

  lemma {:induction false} FlushEnds(s: State)
    requires Inv(s)
    ensures Inevitable(s)
    decreases Effort(s), Output(s)
  {
    hide Inv, Enabled, Apply, Effort, Output;
    if InFlush(s) {
      var step := FlushIsNeverStuck(s);
      forall step | Enabled(s, step) ensures Inevitable(Apply(s, step)) {
        InvStep(s, step);
        FlushProgresses(s, step);
        EffortNonNegative(Apply(s, step));
        FlushEnds(Apply(s, step));
      }
    }
  }

  /** Whatever has happened before, a flush that has begun reaches its end on every schedule. */
  lemma EveryFlushEnds(steps: seq<Step>)
    requires Run(steps).Some?
    ensures Inevitable(Run(steps).value)
  {
    AlwaysInv(steps);
    FlushEnds(Run(steps).value);
  }
}
