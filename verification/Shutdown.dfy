/** The shutdown protocol of a pipeline (crates/core/src/pipeline/runner.rs and worker.rs) as a
    transition system: one runner, any number of worker threads, and a bounded channel to each.

    A label of type `Step` names one atomic action and carries every choice that the scheduler,
    the network or the codecs make. `Enabled` says when it can happen (a blocking send needs
    room, a join needs a finished thread), `Apply` what it does. */
module Shutdown {
  import opened Failures
  import opened Wrappers

  const WORKER_QUEUE_CAPACITY := 120
  const MAX_CONSECUTIVE_ERRORS := 60

  datatype Command = EncodeFrame(n: nat) | SaveThumbnail(n: nat) | MuxPacket(n: nat) | Flush

  /** A worker thread and the queue it receives from. `sent`, `handled` and `outcomes` record
      the history of the queue; `late` marks workers created after the flush had finished. */
  datatype Worker = Worker(queue: seq<Command>, busy: Option<Command>, packets: nat, errors: nat,
                           started: bool, exited: bool, late: bool,
                           sent: seq<Command>, handled: seq<Command>, outcomes: seq<bool>)

  datatype Phase = Working | Draining | Flushing | Joining | Closing | Ending | Idle | Dropped

  datatype Event = StartStream | Muxed(worker: nat) | EgressReset | OnEnd

  /** `channels` are the workers whose only sender the runner still holds, `handles` the threads
      it has not joined, `tail` the commands that draining the decoder still produces; `ready`
      records whether the pipeline was configured when the flush began. */
  datatype State = State(phase: Phase, configured: bool, failed: bool, dropping: bool, ready: bool, tail: nat,
                         workers: map<nat, Worker>, channels: set<nat>, handles: set<nat>, events: seq<Event>)

  const INIT := State(Working, false, false, false, false, 0, map[], {}, {}, [])

  datatype Step =
    | SetupOk(ids: set<nat>)
    | SetupFail(streaming: bool, ids: set<nat>, running: set<nat>)
    | Send(to: nat, cmd: Command)
    | Fail
    | BeginFlush(pending: nat, fromDrop: bool)
    | DrainSend(to: nat, cmd: Command)
    | EndDrain
    | SendFlush(to: nat)
    | EndFlushing
    | Join(thread: nat)
    | EndJoin
    | CloseEgress
    | CallOnEnd
    | Drop
    | Take(worker: nat, output: nat)
    | Mux(worker: nat)
    | Finish(worker: nat, ok: bool)
    | Close(worker: nat)

  // ----- Steps ----------------------------------------------------------------

  function Fresh(running: bool, late: bool): Worker {
    Worker([], None, 0, 0, running, !running, late, [], [], [])
  }

  /** Workers for `ids`; those outside `running` were built but their thread was never spawned. */
  function Spawn(s: State, ids: set<nat>, running: set<nat>): State {
    var late := s.phase.Idle?;
    s.(workers := s.workers + map id | id in ids :: Fresh(id in running, late),
       channels := s.channels + ids,
       handles := s.handles + (ids * running),
       events := s.events + [StartStream])
  }

  predicate CanSend(s: State, to: nat) {
    && to in s.channels && to in s.workers
    && (s.workers[to].exited || |s.workers[to].queue| < WORKER_QUEUE_CAPACITY)
  }

  /** A send to a thread that is gone fails and leaves no trace. */
  function Enqueued(w: Worker, cmd: Command): Worker {
    if w.exited then w else w.(queue := w.queue + [cmd], sent := w.sent + [cmd])
  }

  function Finished(w: Worker, ok: bool): Worker
    requires w.busy.Some?
  {
    var errors := if ok then 0 else w.errors + 1;
    w.(busy := None, packets := 0, errors := errors, exited := errors >= MAX_CONSECUTIVE_ERRORS,
       handled := w.handled + [w.busy.value], outcomes := w.outcomes + [ok])
  }

  predicate Looping(s: State) { (s.phase.Working? || s.phase.Idle?) && !s.failed && !s.dropping }

  predicate Alive(s: State, id: nat) { id in s.workers && !s.workers[id].exited }

  predicate Enabled(s: State, step: Step) {
    match step
    case SetupOk(ids) => Looping(s) && !s.configured && ids !! s.workers.Keys
    case SetupFail(_, ids, _) => Looping(s) && !s.configured && ids !! s.workers.Keys
    case Send(to, cmd) => s.phase.Working? && Looping(s) && s.configured && !cmd.Flush? && CanSend(s, to)
    case Fail => Looping(s)
    case BeginFlush(pending, fromDrop) =>
      s.phase.Working? && (fromDrop || Looping(s)) && (pending > 0 ==> s.configured && s.channels != {})
    case DrainSend(to, cmd) => s.phase.Draining? && s.tail > 0 && !cmd.Flush? && CanSend(s, to)
    case EndDrain => s.phase.Draining? && s.tail == 0
    case SendFlush(to) => s.phase.Flushing? && CanSend(s, to)
    case EndFlushing => s.phase.Flushing? && s.channels == {}
    case Join(thread) => s.phase.Joining? && thread in s.handles && thread in s.workers && s.workers[thread].exited
    case EndJoin => s.phase.Joining? && s.handles == {}
    case CloseEgress => s.phase.Closing?
    case CallOnEnd => s.phase.Ending?
    case Drop => s.phase.Idle?
    case Take(id, _) => Alive(s, id) && s.workers[id].busy.None? && s.workers[id].queue != []
    case Mux(id) => Alive(s, id) && s.workers[id].busy.Some? && s.workers[id].packets > 0
    case Finish(id, ok) => Alive(s, id) && s.workers[id].busy.Some? && (ok ==> s.workers[id].packets == 0)
    case Close(id) => Alive(s, id) && s.workers[id].busy.None? && s.workers[id].queue == [] && id !in s.channels
  }

  function Apply(s: State, step: Step): State
    requires Enabled(s, step)
  {
    match step
    case SetupOk(ids) => Spawn(s, ids, ids).(configured := true)
    case SetupFail(streaming, ids, running) => (if streaming then Spawn(s, ids, running) else s).(failed := true)
    case Send(to, cmd) =>
      s.(workers := s.workers[to := Enqueued(s.workers[to], cmd)],
         failed := s.workers[to].exited && !cmd.SaveThumbnail?)
    case Fail => s.(failed := true)
    case BeginFlush(pending, fromDrop) =>
      s.(phase := Draining, tail := pending, dropping := fromDrop, ready := s.configured)
    case DrainSend(to, cmd) => s.(workers := s.workers[to := Enqueued(s.workers[to], cmd)], tail := s.tail - 1)
    case EndDrain => s.(phase := Flushing)
    case SendFlush(to) =>
      s.(workers := s.workers[to := Enqueued(s.workers[to], Flush)], channels := s.channels - {to})
    case EndFlushing => s.(phase := Joining)
    case Join(thread) => s.(handles := s.handles - {thread})
    case EndJoin => s.(phase := Closing)
    case CloseEgress => s.(phase := Ending, events := s.events + [EgressReset])
    case CallOnEnd => s.(phase := if s.dropping then Dropped else Idle, events := s.events + [OnEnd])
    case Drop => s.(phase := Dropped, channels := {}, handles := {})
    case Take(id, output) =>
      var w := s.workers[id];
      s.(workers := s.workers[id := w.(queue := w.queue[1..], busy := Some(w.queue[0]), packets := output)])
    case Mux(id) =>
      var w := s.workers[id];
      s.(workers := s.workers[id := w.(packets := w.packets - 1)], events := s.events + [Muxed(id)])
    case Finish(id, ok) => s.(workers := s.workers[id := Finished(s.workers[id], ok)])
    case Close(id) => s.(workers := s.workers[id := s.workers[id].(exited := true)])
  }

  /** The state after a schedule, if every step of it can happen in turn: the schedules that
      have one are all the interleavings of runner and workers. */
  function Run(steps: seq<Step>): Option<State> {
    if steps == [] then Some(INIT)
    else
      var before := Run(steps[..|steps| - 1]);
      if before.Some? && Enabled(before.value, steps[|steps| - 1])
      then Some(Apply(before.value, steps[|steps| - 1])) else None
  }

  // ----- Invariant of a worker ---------------------------------------------------

  function Pending(busy: Option<Command>): seq<Command> {
    if busy.Some? then [busy.value] else []
  }

  predicate GaveUp(w: Worker) { w.errors >= MAX_CONSECUTIVE_ERRORS }

  predicate FlushLast(cmds: seq<Command>) {
    cmds != [] && cmds[|cmds| - 1] == Flush && Flush !in cmds[..|cmds| - 1]
  }

  /** `open`: the runner holds the sender. */
  predicate QueueInv(w: Worker, open: bool) {
    && w.sent == w.handled + Pending(w.busy) + w.queue
    && |w.queue| <= WORKER_QUEUE_CAPACITY
    && |w.outcomes| == |w.handled| && w.errors == Trailing(w.outcomes)
    && (w.exited ==> w.busy.None? && (GaveUp(w) || w.queue == []))
    && (!w.exited ==> !GaveUp(w) && w.started)
    && (open ==> Flush !in w.sent)
    && (!w.started || w.late ==> w.sent == [])
    && (w.started && !w.late && !open ==> FlushLast(w.sent) || (w.exited && GaveUp(w)))
    && (w.exited && w.started && open ==> GaveUp(w))
  }

  predicate ThreadInv(w: Worker, held: bool, phase: Phase) {
    && (w.late ==> phase.Idle? || phase.Dropped?)
    && (!w.exited && !w.late ==> held && !phase.Closing? && !phase.Ending? && !phase.Idle? && !phase.Dropped?)
  }

  predicate WorkerInv(s: State, id: nat)
    requires id in s.workers
  {
    QueueInv(s.workers[id], id in s.channels) && ThreadInv(s.workers[id], id in s.handles, s.phase)
  }

  predicate RunnerInv(s: State) {
    && s.channels <= s.workers.Keys && s.handles <= s.workers.Keys
    && (s.phase.Joining? || s.phase.Closing? || s.phase.Ending? ==> s.channels == {})
    && (s.phase.Closing? || s.phase.Ending? ==> s.handles == {})
    && (s.tail > 0 ==> s.phase.Draining? && s.channels != {})
    && (s.dropping ==> !s.phase.Working? && !s.phase.Idle?)
    && (s.phase.Dropped? ==> s.channels == {} && s.handles == {})
  }

  ghost predicate WorkersInv(s: State) {
    forall id | id in s.workers :: WorkerInv(s, id)
  }

  ghost predicate Inv(s: State) { RunnerInv(s) && WorkersInv(s) }

  // ----- The invariant is kept -----------------------------------------------------

  lemma RunnerStep(s: State, step: Step)
    requires Inv(s) && Enabled(s, step)
    ensures RunnerInv(Apply(s, step))
  {
    hide QueueInv, Enqueued, Finished;
  }

  lemma EnqueuedInv(w: Worker, cmd: Command, open': bool)
    requires QueueInv(w, true) && (w.exited || |w.queue| < WORKER_QUEUE_CAPACITY)
    requires open' <==> !cmd.Flush?
    requires (w.started && !w.late) || w.exited
    ensures QueueInv(Enqueued(w, cmd), open')
  {
    if !w.exited {
      assert w.handled + Pending(w.busy) + (w.queue + [cmd]) == w.sent + [cmd];
      assert (w.sent + [cmd])[..|w.sent|] == w.sent;
    }
  }

  lemma TakenInv(w: Worker, open: bool, output: nat)
    requires QueueInv(w, open) && !w.exited && w.busy.None? && w.queue != []
    ensures QueueInv(w.(queue := w.queue[1..], busy := Some(w.queue[0]), packets := output), open)
  {
    assert w.queue == [w.queue[0]] + w.queue[1..];
    assert w.handled + [] + w.queue == w.handled + [w.queue[0]] + w.queue[1..];
  }

  lemma FinishedInv(w: Worker, open: bool, ok: bool)
    requires QueueInv(w, open) && !w.exited && w.busy.Some?
    ensures QueueInv(Finished(w, ok), open)
  {
    assert w.handled + [w.busy.value] + w.queue == (w.handled + [w.busy.value]) + [] + w.queue;
    assert (w.outcomes + [ok])[..|w.outcomes|] == w.outcomes;
  }

  /** Steps that touch one worker; everyone else keeps the invariant because nothing they see
      has changed. */
  lemma OneWorker(s: State, s': State, id: nat)
    requires Inv(s) && id in s.workers && id in s'.workers && s'.workers == s.workers[id := s'.workers[id]]
    requires s'.phase == s.phase && s'.handles == s.handles
    requires forall j | j != id :: j in s'.channels <==> j in s.channels
    requires QueueInv(s'.workers[id], id in s'.channels)
    requires s'.workers[id].late == s.workers[id].late && (s.workers[id].exited ==> s'.workers[id].exited)
    ensures WorkersInv(s')
  {
    hide QueueInv;
    forall j | j in s'.workers ensures WorkerInv(s', j) {
      assert WorkerInv(s, j);
    }
  }

  lemma WorkerStep(s: State, step: Step)
    requires Inv(s) && Enabled(s, step)
    requires step.Take? || step.Mux? || step.Finish? || step.Close?
    ensures WorkersInv(Apply(s, step))
  {
    hide QueueInv;
    var id, s' := step.worker, Apply(s, step);
    assert WorkerInv(s, id);
    var w, open := s.workers[id], id in s.channels;
    match step
    case Take(_, output) => TakenInv(w, open, output); OneWorker(s, s', id);
    case Mux(_) => MuxedInv(w, open); OneWorker(s, s', id);
    case Finish(_, ok) => FinishedInv(w, open, ok); OneWorker(s, s', id);
    case Close(_) => ClosedInv(w); OneWorker(s, s', id);
  }

  lemma MuxedInv(w: Worker, open: bool)
    requires QueueInv(w, open) && w.packets > 0
    ensures QueueInv(w.(packets := w.packets - 1), open)
  {}

  lemma ClosedInv(w: Worker)
    requires QueueInv(w, false) && w.busy.None? && w.queue == []
    ensures QueueInv(w.(exited := true), false)
  {}

  lemma SendStep(s: State, step: Step)
    requires Inv(s) && Enabled(s, step)
    requires step.Send? || step.DrainSend? || step.SendFlush?
    ensures WorkersInv(Apply(s, step))
  {
    hide QueueInv;
    var id := step.to;
    assert WorkerInv(s, id);
    NotLate(s, id);
    EnqueuedInv(s.workers[id], if step.SendFlush? then Flush else step.cmd, !step.SendFlush?);
    OneWorker(s, Apply(s, step), id);
  }

  lemma NotLate(s: State, id: nat)
    requires Inv(s) && id in s.workers && !s.phase.Idle? && !s.phase.Dropped?
    ensures !s.workers[id].late && (s.workers[id].exited || s.workers[id].started)
  {
    assert WorkerInv(s, id);
  }

  lemma SetupStep(s: State, step: Step)
    requires Inv(s) && Enabled(s, step) && (step.SetupOk? || step.SetupFail?)
    ensures WorkersInv(Apply(s, step))
  {
    var s' := Apply(s, step);
    forall id | id in s'.workers ensures WorkerInv(s', id) {
      if id in s.workers {
        assert WorkerInv(s, id);
      }
    }
  }

  lemma PhaseStep(s: State, step: Step)
    requires Inv(s) && Enabled(s, step)
    requires step.Fail? || step.BeginFlush? || step.EndDrain? || step.EndFlushing? || step.Join? || step.EndJoin?
             || step.CloseEgress? || step.CallOnEnd?
    ensures WorkersInv(Apply(s, step))
  {
    hide QueueInv;
    var s' := Apply(s, step);
    forall id | id in s'.workers ensures WorkerInv(s', id) {
      assert WorkerInv(s, id);
    }
  }

  lemma DropStep(s: State)
    requires Inv(s) && Enabled(s, Drop)
    ensures WorkersInv(Apply(s, Drop))
  {
    var s' := Apply(s, Drop);
    forall id | id in s'.workers ensures WorkerInv(s', id) {
      assert WorkerInv(s, id);
      assert s.workers[id].exited || s.workers[id].late;
    }
  }

  lemma InvStep(s: State, step: Step)
    requires Inv(s) && Enabled(s, step)
    ensures Inv(Apply(s, step))
  {
    hide Inv, WorkersInv, Apply, Enabled;
    assert RunnerInv(Apply(s, step)) && WorkersInv(Apply(s, step)) by {
      RunnerStep(s, step);
      if step.SetupOk? || step.SetupFail? { SetupStep(s, step); }
      else if step.Send? || step.DrainSend? || step.SendFlush? { SendStep(s, step); }
      else if step.Take? || step.Mux? || step.Finish? || step.Close? { WorkerStep(s, step); }
      else if step.Drop? { DropStep(s); }
      else { PhaseStep(s, step); }
    }
    InvIs(Apply(s, step));
  }

  lemma InvIs(s: State)
    requires RunnerInv(s) && WorkersInv(s)
    ensures Inv(s)
  {}

  lemma {:induction false} AlwaysInv(steps: seq<Step>)
    requires Run(steps).Some?
    ensures Inv(Run(steps).value)
    decreases |steps|
  {
    hide Inv, Apply, Enabled;
    if steps == [] {
      InvIs(INIT);
    } else {
      AlwaysInv(steps[..|steps| - 1]);
      InvStep(Run(steps[..|steps| - 1]).value, steps[|steps| - 1]);
    }
  }
}
