/** The runtime: waves, batches bounded by workers and capacity, deferral, stop policy. */
module MultiAgentRuntime {
  import opened Wrappers
  import opened Ordering
  import opened Json
  import opened ExecutionGraph
  import opened AgentContracts
  import opened AgentRegistry
  import opened AgentMemory
  import opened CapabilityGraph
  import opened AgentScheduler
  import opened RuntimeModel
  import opened RunOutcome

  datatype Report = Report(runId: string, passed: bool, waves: seq<seq<string>>, schedule: seq<Batch>, tasks: States)

  class MultiAgentRuntime {
    const registry: AgentRegistry
    const adapters: map<string, Adapter>
    const scheduler: Option<AgentScheduler>
    const memory: AgentMemoryStore
    const maxWorkers: int

    constructor (registry: AgentRegistry, adapters: map<string, Adapter>, scheduler: Option<AgentScheduler>,
                 memory: AgentMemoryStore, maxWorkers: int)
      ensures this.registry == registry && this.adapters == adapters && this.scheduler == scheduler
      ensures this.memory == memory && this.maxWorkers == maxWorkers
    {
      this.registry := registry;
      this.adapters := adapters;
      this.scheduler := scheduler;
      this.memory := memory;
      this.maxWorkers := maxWorkers;
    }

    /** What the choice of agents depends on, as it stands. */
    ghost function Current(): Setting
      reads registry, if scheduler.Some? then {scheduler.value.graph} else {}
    {
      Setting(registry.agents, adapters,
              if scheduler.Some? then Some(Scheduling(scheduler.value.graph.Contents(), scheduler.value.profiles)) else None,
              maxWorkers)
    }

    method SelectAgent(task: RuntimeTask, loads: Loads) returns (r: Result<AgentSpec, SelectionError>)
      requires Keyed(registry.agents)
      ensures r.Success? <==> CanSelect(Current(), task, loads)
      ensures r.Success? ==> IsChosen(Current(), task, loads, r.value)
      ensures r.Failure? ==> r.error == Objection(Current(), task, loads)
      ensures r.Success? && scheduler.Some? ==> BelowCapacity(scheduler.value.profiles, loads, r.value.agentId)
    {
      if scheduler.None? {
        var selected := registry.Select(task);
        return if selected.Success? then Success(selected.value) else Failure(FromRegistry(selected.error));
      }
      var everyone := registry.All();
      var scheduled := scheduler.value.Select(task, everyone, loads);
      if scheduled.Failure? {
        return Failure(FromScheduler(scheduled.error));
      }
      ghost var a :| a in everyone
        && IsDecision(scheduler.value.graph.Contents(), scheduler.value.profiles, loads, task, a, scheduled.value);
      ListedContains(registry.agents, Sorted(registry.agents.Keys), a);
      var agent := registry.Get(scheduled.value.agentId);
      r := Success(agent.value);
    }

    method ExecutePrepared(p: Prepared) returns (e: Execution)
      requires p.agent.maxAttempts >= 1
      ensures IsExecution(p, e)
    {
      var attempts: seq<Attempt> := [];
      var output := AgentOutput(OutputFailed, map[], [], map[], None);
      var number := 1;
      var passed := false;
      while number <= p.agent.maxAttempts && !passed
        invariant 1 <= number <= p.agent.maxAttempts + 1
        invariant |attempts| == number - 1
        invariant forall i :: 0 <= i < |attempts| ==> attempts[i] == AttemptAt(p, i + 1)
        invariant forall n :: 1 <= n < |attempts| ==> !PassesAt(p, n)
        invariant |attempts| > 0 ==> output == OutputAt(p, |attempts|)
        invariant passed <==> |attempts| > 0 && PassesAt(p, |attempts|)
      {
        output := OutputAt(p, number);
        attempts := attempts + [Attempt(number, output.status, output.error, output.evidence)];
        passed := output.status == OutputPassed;
        number := number + 1;
      }
      e := Execution(p.task.taskId, output, attempts);
    }

    /** A task fails without having been dispatched. */
    method FailTask(states: States, task: RuntimeTask, error: TaskError, stop: bool,
                    ghost run: Run, ghost settled: set<string>, ghost files0: Files, ghost schedule: seq<Batch>, ghost log: Log)
      returns (after: States, stopAll: bool)
      requires Kept(run, states, settled, files0, schedule, log)
      requires task.taskId !in settled && Runnable(run, states, settled, task.taskId)
      requires run.tasks[task.taskId] == task
      requires stop <==> Stopped(run, states, settled)
      ensures Kept(run, after, settled + {task.taskId}, files0, schedule, log)
      ensures after == states[task.taskId := Initial.(status := Failed, error := Some(error))]
      ensures stopAll <==> Stopped(run, after, settled + {task.taskId})
      ensures stopAll <==> stop || task.failurePolicy == Stop
    {
      var t := task.taskId;
      assert Untouched(states, t);
      FailAside(run, states, settled, files0, schedule, log, t, Initial.(status := Failed, error := Some(error)));
      after := states[t := states[t].(status := Failed, error := Some(error))];
      stopAll := stop || task.failurePolicy == Stop;
    }

    /** A task is blocked when some of its dependencies did not pass. */
    method BlockTask(states: States, task: RuntimeTask,
                     ghost run: Run, ghost settled: set<string>, ghost files0: Files, ghost schedule: seq<Batch>, ghost log: Log)
      returns (after: States, blocked: bool)
      requires Kept(run, states, settled, files0, schedule, log)
      requires task.taskId in run.g && task.taskId !in settled && run.g[task.taskId] <= settled
      requires run.tasks[task.taskId] == task
      ensures AgreeOn(states, after, settled)
      ensures blocked <==> NotPassed(states, task.dependsOn) != []
      ensures blocked ==> Kept(run, after, settled + {task.taskId}, files0, schedule, log)
      ensures blocked ==> after == states[task.taskId :=
        Initial.(status := Blocked, blockedBy := NotPassed(states, task.dependsOn))]
      ensures blocked ==> (Stopped(run, after, settled + {task.taskId}) <==> Stopped(run, states, settled))
      ensures !blocked ==> after == states && Runnable(run, states, settled, task.taskId)
    {
      var t := task.taskId;
      after := states;
      var failedDependencies := NotPassed(states, task.dependsOn);
      blocked := failedDependencies != [];
      RunnableIfAllPassed(run, states, settled, t);
      if blocked {
        assert Untouched(states, t);
        BlockAside(run, states, settled, files0, schedule, log, t,
                   Initial.(status := Blocked, blockedBy := failedDependencies));
        after := states[t := states[t].(status := Blocked, blockedBy := failedDependencies)];
      }
    }

    /** The first part of a wave: tasks with a dependency that did not pass are blocked. */
    method BlockWave(states: States, wave: seq<string>, tasks: map<string, RuntimeTask>, ghost w: nat,
                     ghost run: Run, ghost files0: Files, ghost schedule: seq<Batch>, ghost log: Log)
      returns (after: States, eligible: seq<string>, ghost settled: set<string>)
      requires Kept(run, states, Done(run.g, w), files0, schedule, log) && tasks == run.tasks
      requires NoDuplicates(wave) && Elements(wave) == Wave(run.g, w)
      requires !Stopped(run, states, Done(run.g, w))
      ensures Divided(Done(run.g, w), Done(run.g, w + 1), eligible, settled) && AgreeOn(states, after, Done(run.g, w))
      ensures Kept(run, after, settled, files0, schedule, log)
      ensures AllRunnable(run, after, settled, eligible)
      ensures !Stopped(run, after, settled)
      ensures AllKnown(run, wave) && after == BlockedAll(run, states, wave) && eligible == EligibleOf(run, states, wave)
    {
      ghost var done := Done(run.g, w);
      settled := done;
      eligible := [];
      after := states;
      WaveIsOpen(run.g, w);
      forall t | t in wave ensures t in run.tasks { assert t in Elements(wave); }
      for i := 0 to |wave|
        invariant after == BlockedAll(run, states, wave[..i])
        invariant eligible == EligibleOf(run, states, wave[..i])
        invariant Kept(run, after, settled, files0, schedule, log)
        invariant Divided(done, done + Elements(wave[..i]), eligible, settled)
        invariant AllRunnable(run, after, settled, eligible)
        invariant !Stopped(run, after, settled) && AgreeOn(states, after, done)
      {
        var t := wave[i];
        BlockedMore(run, states, wave, i);
        DivideStep(done, wave, i, eligible, settled);
        ghost var before := after;
        var blocked;
        after, blocked := BlockTask(after, tasks[t], run, settled, files0, schedule, log);
        if blocked {
          RunnableKept(run, before, after, settled, {t}, eligible);
          settled := settled + {t};
        } else {
          RunnableAdded(run, after, settled, eligible, t);
          eligible := eligible + [t];
        }
      }
      assert wave[..|wave|] == wave;
    }

    /** One task of the dispatch loop: its agent, its adapter and its payload. */
    method PrepareTask(states: States, task: RuntimeTask, loads: Loads, runId: string, shared: Document, ghost run: Run)
      returns (r: Preparation)
      requires Keyed(registry.agents) && run.setting == Current() && run.runId == runId && run.shared == shared
      requires task.taskId in run.tasks && run.tasks[task.taskId] == task
      ensures r.Prepare? ==> r.prepared.task == task && IsPrepared(run, states, memory.files, r.prepared)
      ensures r.Prepare? ==> IsChosen(run.setting, task, loads, r.prepared.agent)
      ensures r.Prepare? && scheduler.Some? ==>
        BelowCapacity(scheduler.value.profiles, loads, r.prepared.agent.agentId)
      ensures r.Defer? <==> scheduler.Some? && !CanSelect(run.setting, task, loads) && CanSelect(run.setting, task, map[])
      ensures r.Prepare? <==>
        CanSelect(run.setting, task, loads) && Chosen(run.setting, task, loads).adapter in adapters
      ensures r.Fail? ==> r.error == FailureOf(run.setting, task, loads)
      ensures r == Preparing(run, states, memory.files, task, loads)
    {
      var selected := SelectAgent(task, loads);
      if selected.Failure? {
        if scheduler.Some? {
          var unloaded := SelectAgent(task, map[]);
          if unloaded.Failure? {
            return Fail(NotSelected(selected.error));
          }
          return Defer;
        }
        return Fail(NotSelected(selected.error));
      }
      var agent := selected.value;
      ChosenUnique(run.setting, task, loads, agent, Chosen(run.setting, task, loads));
      if agent.adapter !in adapters {
        return Fail(NoAdapter(agent.adapter));
      }
      var handoffs := Handoffs(task, states);
      var document := memory.Load(agent.agentId);
      var payload := AgentInput(runId, task, agent, shared + task.context, document.data, handoffs);
      r := Prepare(Prepared(task, agent, adapters[agent.adapter], payload));
    }

    /** The dispatch loop looks at its next task. */
    method FillNext(f: Fill, remaining: seq<string>, tasks: map<string, RuntimeTask>, runId: string, shared: Document,
                    ghost run: Run, ghost base: States, ghost settled: set<string>, ghost failed: set<string>,
                    ghost files0: Files, ghost schedule: seq<Batch>, ghost log: Log)
      returns (r: Fill, ghost failedMore: set<string>)
      requires f.next < |remaining| && Filling(run, base, settled, failed, memory.files, remaining, f)
      requires AllKnown(run, remaining)
      requires Kept(run, f.states, settled + failed, files0, schedule, log)
      requires run.setting == Current() && run.runId == runId && run.shared == shared && tasks == run.tasks
      ensures Filling(run, base, settled, failedMore, memory.files, remaining, r) && f.next < r.next
      ensures r == Look(run, memory.files, remaining, f)
      ensures Kept(run, r.states, settled + failedMore, files0, schedule, log)
    {
      var t := remaining[f.next];
      var outcome := PrepareTask(f.states, tasks[t], f.loads, runId, shared, run);
      failedMore := TakenKeeps(run, base, settled, failed, memory.files, remaining, f, outcome, files0, schedule, log);
      match outcome {
        case Fail(error) =>
          var after, stop := FailTask(f.states, tasks[t], error, f.stop, run, settled + failed, files0, schedule, log);
          r := f.(states := after, next := f.next + 1, stop := stop);
        case Defer =>
          r := f.(deferred := f.deferred + [t], next := f.next + 1);
        case Prepare(p) =>
          r := WithPrepared(f, p, maxWorkers, remaining);
      }
    }

    /** Fills one batch from the remaining tasks of a wave. */
    method PrepareBatch(states: States, remaining: seq<string>, tasks: map<string, RuntimeTask>, runId: string,
                        shared: Document, ghost run: Run, ghost settled: set<string>, ghost files0: Files,
                        ghost schedule: seq<Batch>, ghost log: Log)
      returns (f: Fill, ghost failed: set<string>)
      requires Kept(run, states, settled, files0, schedule, log) && tasks == run.tasks
      requires run.setting == Current() && run.runId == runId && run.shared == shared
      requires NoDuplicates(remaining) && Elements(remaining) !! settled
      requires AllRunnable(run, states, settled, remaining)
      requires !Stopped(run, states, settled)
      ensures AllKnown(run, remaining)
      ensures f == FilledUp(run, memory.files, remaining, Fill(states, [], [], map[], 0, false))
      ensures f.next == |remaining| && Filling(run, states, settled, failed, memory.files, remaining, f)
      ensures Kept(run, f.states, settled + failed, files0, schedule, log)
    {
      f, failed := Fill(states, [], [], map[], 0, false), {};
      assert settled + failed == settled;
      RemainingAreKnown(run, states, settled, remaining);
      while f.next < |remaining|
        invariant f.next <= |remaining|
        invariant FilledUp(run, memory.files, remaining, f)
          == FilledUp(run, memory.files, remaining, Fill(states, [], [], map[], 0, false))
        invariant Filling(run, states, settled, failed, memory.files, remaining, f)
        invariant Kept(run, f.states, settled + failed, files0, schedule, log)
        decreases |remaining| - f.next
      {
        f, failed := FillNext(f, remaining, tasks, runId, shared, run, states, settled, failed, files0, schedule, log);
      }
    }

    /** The batch is marked running. */
    method MarkRunning(states: States, prepared: seq<Prepared>, wave: nat) returns (after: States)
      requires Elements(TaskIds(prepared)) <= states.Keys
      ensures after == MarkedAll(states, prepared, wave)
    {
      after := states;
      for i := 0 to |prepared|
        invariant after == MarkedAll(states, prepared[..i], wave)
      {
        var t := prepared[i].task.taskId;
        assert TaskIds(prepared)[i] in Elements(TaskIds(prepared));
        assert prepared[..i + 1][..i] == prepared[..i];
        if t in after {
          after := after[t := Marked(after[t], prepared[i], wave)];
        }
      }
      assert prepared[..|prepared|] == prepared;
    }

    /** The workers of a batch make their attempts in any order; the results come back in batch order. */
    method ExecuteBatch(prepared: seq<Prepared>) returns (executions: seq<Execution>)
      requires forall i :: 0 <= i < |prepared| ==> prepared[i].agent.maxAttempts >= 1
      ensures |executions| == |prepared|
      ensures forall i :: 0 <= i < |prepared| ==> IsExecution(prepared[i], executions[i])
    {
      var workers := Started(prepared);
      while exists i :: 0 <= i < |workers| && !Finished(workers[i])
        invariant AllOnTrack(prepared, workers)
        decreases AttemptsLeft(workers)
      {
        var i: nat :| i < |workers| && !Finished(workers[i]);
        AllStayOnTrack(prepared, workers, i);
        workers := workers[i := Attempted(workers[i])];
      }
      executions := [];
      for i := 0 to |prepared|
        invariant |executions| == i
        invariant forall j :: 0 <= j < i ==> IsExecution(prepared[j], executions[j])
      {
        assert OnTrack(prepared[i], workers[i]);
        FinishedIsExecution(prepared[i], workers[i]);
        executions := executions + [ResultOf(workers[i])];
      }
    }

    /** One result enters the state, and its memory updates the memory file of its agent. */
    method RecordOne(states: States, item: Dispatch, runId: string) returns (after: States)
      modifies memory
      ensures after == Written(states, item)
      ensures memory.files == AppliedAll(old(memory.files), ChangesOf(runId, [item])) && Current() == old(Current())
    {
      var t := item.prepared.task.taskId;
      var output := item.execution.output;
      after := Written(states, item);
      ChangesAppend(runId, [], item);
      assert [] + [item] == [item];
      if output.memoryUpdates != map[] {
        var agentId := item.prepared.agent.agentId;
        OneMoreChange(memory.files, [], Change(agentId, Entry(runId, t, output.memoryUpdates)));
        var document := memory.Update(agentId, output.memoryUpdates, runId, t);
      }
    }

    /** The results of the batch are recorded in order. */
    method RecordBatch(states: States, items: seq<Dispatch>, runId: string, stop: bool)
      returns (after: States, stopAll: bool)
      modifies memory
      ensures after == WrittenAll(states, items)
      ensures memory.files == AppliedAll(old(memory.files), ChangesOf(runId, items)) && Current() == old(Current())
      ensures stopAll <==> stop || AnyStops(items)
    {
      after, stopAll := states, stop;
      for i := 0 to |items|
        invariant after == WrittenAll(states, items[..i])
        invariant memory.files == AppliedAll(old(memory.files), ChangesOf(runId, items[..i])) && Current() == old(Current())
        invariant stopAll <==> stop || AnyStops(items[..i])
      {
        RecordStep(old(memory.files), states, runId, items, i);
        AnyStopsStep(items, i);
        after := RecordOne(after, items[i], runId);
        stopAll := stopAll || Stops(items[i]);
      }
      assert items[..|items|] == items;
    }

    /** The batch is marked running, executed, and its results recorded. */
    method ExecuteAndRecord(f: Fill, schedule: seq<Batch>, runId: string, wave: nat, ghost run: Run, ghost p: Progress)
      returns (after: States, grown: seq<Batch>, stop: bool, ghost logMore: Log)
      requires Executable(f) && f.prepared != []
      requires run.runId == runId && p.schedule == schedule && p.files == memory.files
      modifies memory
      ensures Current() == old(Current())
      ensures Progress(after, memory.files, grown, logMore, f.deferred, stop) == BatchRun(run, wave, p, f)
    {
      after := MarkRunning(f.states, f.prepared, wave);
      var executions := ExecuteBatch(f.prepared);
      var items := Dispatches(f.prepared, executions);
      ExecutedAsExpected(f.prepared, executions);
      after, stop := RecordBatch(after, items, runId, f.stop);
      grown := schedule + [BatchRecord(wave, |schedule| + 1, items)];
      logMore := p.log + [items];
    }

    /** One round of the dispatch loop: a batch is filled, executed and recorded. */
    method RunBatch(states: States, schedule: seq<Batch>, remaining: seq<string>, tasks: map<string, RuntimeTask>,
                    runId: string, shared: Document, wave: nat,
                    ghost run: Run, ghost settled: set<string>, ghost files0: Files, ghost log: Log, ghost level: set<string>)
      returns (after: States, grown: seq<Batch>, deferred: seq<string>, stop: bool,
               ghost settledMore: set<string>, ghost logMore: Log)
      requires Dispatching(run, states, settled, files0, schedule, log, remaining, level, false) && remaining != []
      requires Elements(remaining) <= Wave(run.g, wave)
      requires memory.files == AppliedAll(files0, Changes(runId, log))
      requires run.setting == Current() && run.runId == runId && run.shared == shared && tasks == run.tasks
      modifies memory
      ensures Dispatching(run, after, settledMore, files0, grown, logMore, deferred, level, stop)
      ensures memory.files == AppliedAll(files0, Changes(runId, logMore))
      ensures |deferred| < |remaining| && Elements(deferred) <= Elements(remaining) && settled <= settledMore
      ensures run.setting == Current()
      ensures AgreeOn(states, after, settled)
      ensures AllKnown(run, remaining) && Progress(after, memory.files, grown, logMore, deferred, stop)
        == Round(run, wave, Progress(states, old(memory.files), schedule, log, remaining, false))
    {
      var f, failed := PrepareBatch(states, remaining, tasks, runId, shared, run, settled, files0, schedule, log);
      ghost var p := Progress(states, memory.files, schedule, log, remaining, false);
      settledMore := RoundKeeps(run, p, settled, failed, files0, wave, f, level);
      deferred := f.deferred;
      if f.prepared == [] {
        after, grown, stop, logMore := f.states, schedule, f.stop, log;
      } else {
        after, grown, stop, logMore := ExecuteAndRecord(f, schedule, runId, wave, run, p);
      }
    }

    /** Dispatches batches until nothing of the wave remains or the run stops. */
    method DispatchWave(states: States, schedule: seq<Batch>, eligible: seq<string>, w: nat, tasks: map<string, RuntimeTask>,
                        runId: string, shared: Document, ghost run: Run, ghost settled: set<string>, ghost files0: Files,
                        ghost log: Log, ghost level: set<string>)
      returns (after: States, grown: seq<Batch>, stop: bool, ghost settledMore: set<string>, ghost logMore: Log)
      requires Dispatching(run, states, settled, files0, schedule, log, eligible, level, false)
      requires Elements(eligible) <= Wave(run.g, w)
      requires memory.files == AppliedAll(files0, Changes(runId, log))
      requires run.setting == Current() && run.runId == runId && run.shared == shared && tasks == run.tasks
      modifies memory
      ensures Kept(run, after, settledMore, files0, grown, logMore)
      ensures memory.files == AppliedAll(files0, Changes(runId, logMore))
      ensures settled <= settledMore <= level && AgreeOn(states, after, settled)
      ensures stop <==> Stopped(run, after, settledMore)
      ensures !stop ==> settledMore == level
      ensures run.setting == Current()
      ensures AllKnown(run, eligible) && Progress(after, memory.files, grown, logMore, [], stop)
        == Rounds(run, w, Progress(states, old(memory.files), schedule, log, eligible, false)).(remaining := [])
    {
      var remaining := eligible;
      after, grown, stop, settledMore, logMore := states, schedule, false, settled, log;
      RemainingAreKnown(run, states, settled, eligible);
      ghost var goal := Rounds(run, w, Progress(states, memory.files, schedule, log, eligible, false));
      while remaining != [] && !stop
        invariant Dispatching(run, after, settledMore, files0, grown, logMore, remaining, level, stop)
        invariant Elements(remaining) <= Wave(run.g, w) && settled <= settledMore && AgreeOn(states, after, settled)
        invariant run.setting == Current()
        invariant memory.files == AppliedAll(files0, Changes(runId, logMore))
        invariant AllKnown(run, remaining)
        invariant goal == Rounds(run, w, Progress(after, memory.files, grown, logMore, remaining, stop))
        decreases |remaining|
      {
        after, grown, remaining, stop, settledMore, logMore :=
          RunBatch(after, grown, remaining, tasks, runId, shared, w, run, settledMore, files0, logMore, level);
      }
    }

    /** One wave: its blocked tasks, then its batches. */
    method RunWave(states: States, schedule: seq<Batch>, waves: seq<seq<string>>, w: nat, tasks: map<string, RuntimeTask>,
                   runId: string, shared: Document, ghost run: Run, ghost settled: set<string>, ghost files0: Files,
                   ghost log: Log)
      returns (after: States, grown: seq<Batch>, stop: bool, ghost settledMore: set<string>, ghost logMore: Log)
      requires Reached(run, states, settled, files0, memory.files, schedule, log, w, false)
      requires waves == Waves(run.g) && w < |waves|
      requires run.setting == Current() && run.runId == runId && run.shared == shared && tasks == run.tasks
      modifies memory
      ensures Reached(run, after, settledMore, files0, memory.files, grown, logMore, w + 1, stop)
      ensures run.setting == Current()
      ensures AllKnown(run, waves[w]) && Progress(after, memory.files, grown, logMore, [], stop)
        == WaveDone(run, w, waves[w], Progress(states, old(memory.files), schedule, log, [], false))
    {
      WaveIsKnown(run, w);
      NextWave(run, w);
      WaveIsOpen(run.g, w);
      var blocked, eligible;
      ghost var closed;
      blocked, eligible, closed := BlockWave(states, waves[w], tasks, w, run, files0, schedule, log);
      after, grown, stop, settledMore, logMore :=
        DispatchWave(blocked, schedule, eligible, w, tasks, runId, shared, run, closed, files0, log, Done(run.g, w + 1));
      StopsAreNew(run, states, after, settledMore, w);
    }

    /** Wave after wave until the run stops. */
    method DispatchWaves(waves: seq<seq<string>>, tasks: map<string, RuntimeTask>, runId: string, shared: Document, ghost run: Run)
      returns (states: States, schedule: seq<Batch>, stop: bool, ghost settled: set<string>, ghost log: Log, ghost w: nat)
      requires WellFormed(run) && run.setting == Current() && run.runId == runId && run.shared == shared && tasks == run.tasks
      requires waves == Waves(run.g)
      modifies memory
      ensures Reached(run, states, settled, old(memory.files), memory.files, schedule, log, w, stop)
      ensures w <= |waves| && (w == |waves| || stop)
      ensures Progress(states, memory.files, schedule, log, [], stop) == AfterWaves(run, old(memory.files), w)
    {
      states := map t | t in tasks :: Initial;
      schedule, settled, log, stop := [], {}, [], false;
      var wave := 0;
      StartIsBetween(run, states, memory.files);
      while wave < |waves| && !stop
        invariant 0 <= wave <= |waves| && run.setting == Current()
        invariant Reached(run, states, settled, old(memory.files), memory.files, schedule, log, wave, stop)
        invariant Progress(states, memory.files, schedule, log, [], stop) == AfterWaves(run, old(memory.files), wave)
        decreases |waves| - wave
      {
        WaveIsKnown(run, wave);
        AfterNext(run, old(memory.files), wave);
        states, schedule, stop, settled, log :=
          RunWave(states, schedule, waves, wave, tasks, runId, shared, run, settled, old(memory.files), log);
        wave := wave + 1;
      }
      w := wave;
    }

    /** The waves; then what is still pending is skipped if the run stopped. */
    method RunWaves(waves: seq<seq<string>>, tasks: map<string, RuntimeTask>, runId: string, shared: Document, ghost run: Run)
      returns (states: States, schedule: seq<Batch>, ghost settled: set<string>, ghost log: Log)
      requires WellFormed(run) && run.setting == Current() && run.runId == runId && run.shared == shared && tasks == run.tasks
      requires waves == Waves(run.g)
      modifies memory
      ensures Ended(run, states, settled, old(memory.files), memory.files, schedule, log)
      ensures IsOutcome(run, states, old(memory.files), memory.files, schedule, log)
    {
      var stop;
      ghost var w;
      states, schedule, stop, settled, log, w := DispatchWaves(waves, tasks, runId, shared, run);
      RunIsOutcome(run, old(memory.files), w, Progress(states, memory.files, schedule, log, [], stop));
      WavesAreDone(run, states, settled, old(memory.files), memory.files, schedule, log, w, stop,
                   if stop then SkipPending(states) else states);
      if stop { states := SkipPending(states); }
    }

    /** A run of a task list: the state it ends with, or the graph error it is rejected with. */
    method RunTasks(tasks: seq<RuntimeTask>, runId: string, shared: Document)
      returns (r: Result<Report, GraphError>, ghost run: Run, ghost settled: set<string>, ghost log: Log)
      requires maxWorkers >= 1 && Keyed(registry.agents)
      requires forall id :: id in registry.agents ==> registry.agents[id].maxAttempts >= 1
      modifies memory
      ensures r.Success? <==> Valid(Nodes(tasks))
      ensures r.Failure? ==> memory.files == old(memory.files)
      ensures run == Run(runId, shared, TaskMap(tasks), GraphOf(Nodes(tasks)), old(Current()))
      ensures r.Success? ==> Ended(run, r.value.tasks, settled, old(memory.files), memory.files, r.value.schedule, log)
      ensures r.Success? ==> IsOutcome(run, r.value.tasks, old(memory.files), memory.files, r.value.schedule, log)
      ensures r.Success? ==> r.value.runId == runId && r.value.waves == Waves(run.g)
      ensures r.Success? ==> (r.value.passed <==> tasks != [] && AllPassed(r.value.tasks))
    {
      run := Run(runId, shared, TaskMap(tasks), GraphOf(Nodes(tasks)), Current());
      settled, log := {}, [];
      var waves := ExecutionWaves(Nodes(tasks));
      if waves.Failure? {
        return Failure(waves.error), run, settled, log;
      }
      TaskMapIs(tasks);
      KnownIsClosed(Nodes(tasks));
      var states, schedule;
      states, schedule, settled, log := RunWaves(waves.value, TaskMap(tasks), runId, shared, run);
      r := Success(Report(runId, tasks != [] && AllPassed(states), waves.value, schedule, states));
    }
  }
}
