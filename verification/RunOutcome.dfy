/** What a run comes to, as a function of the run and the memory it starts from. */
module RunOutcome {
  import opened Wrappers
  import opened Ordering
  import opened ExecutionGraph
  import opened AgentContracts
  import opened AgentRegistry
  import opened AgentMemory
  import opened AgentScheduler
  import opened RuntimeModel

  // ---------------------------------------------------------------- one task

  /** What becomes of a task the dispatch loop looks at. */
  datatype Preparation = Prepare(prepared: Prepared) | Defer | Fail(error: TaskError)

  /** With these assignments no agent has room, but one could take the task with nothing assigned. */
  ghost predicate Waits(s: Setting, task: RuntimeTask, loads: Loads) {
    s.scheduling.Some? && !CanSelect(s, task, loads) && CanSelect(s, task, map[])
  }

  /** With these assignments the task fails: its agent has no adapter, or no agent can be chosen now or later. */
  ghost predicate Unserved(s: Setting, task: RuntimeTask, loads: Loads)
    requires Keyed(s.agents)
  {
    if CanSelect(s, task, loads) then Chosen(s, task, loads).adapter !in s.adapters else !Waits(s, task, loads)
  }

  ghost function FailureOf(s: Setting, task: RuntimeTask, loads: Loads): TaskError
    requires Keyed(s.agents)
  {
    if CanSelect(s, task, loads) then NoAdapter(Chosen(s, task, loads).adapter) else NotSelected(Objection(s, task, loads))
  }

  ghost function Preparing(run: Run, states: States, files: Files, task: RuntimeTask, loads: Loads): Preparation
    requires Keyed(run.setting.agents)
  {
    if Waits(run.setting, task, loads) then Defer
    else if Unserved(run.setting, task, loads) then Fail(FailureOf(run.setting, task, loads))
    else
      var agent := Chosen(run.setting, task, loads);
      Prepare(Prepared(task, agent, run.setting.adapters[agent.adapter], PayloadFor(run, task, agent, files, states)))
  }

  // ---------------------------------------------------------------- one batch

  ghost predicate AllKnown(run: Run, ids: seq<string>) {
    forall t :: t in ids ==> t in run.tasks
  }

  /** The dispatch loop's variables after its next task came to `outcome`. */
  function Taken(run: Run, remaining: seq<string>, f: Fill, outcome: Preparation): Fill
    requires f.next < |remaining| && remaining[f.next] in run.tasks
  {
    var t := remaining[f.next];
    match outcome
    case Fail(error) =>
      f.(states := f.states[t := Initial.(status := Failed, error := Some(error))], next := f.next + 1,
         stop := f.stop || run.tasks[t].failurePolicy == Stop)
    case Defer => f.(deferred := f.deferred + [t], next := f.next + 1)
    case Prepare(p) => WithPrepared(f, p, run.setting.maxWorkers, remaining)
  }

  ghost function Look(run: Run, files: Files, remaining: seq<string>, f: Fill): Fill
    requires Keyed(run.setting.agents) && AllKnown(run, remaining) && f.next < |remaining|
  {
    Taken(run, remaining, f, Preparing(run, f.states, files, run.tasks[remaining[f.next]], f.loads))
  }

  /** The loop's variables agree with each other. */
  ghost predicate Consistent(f: Fill) {
    f.loads == LoadsOf(f.prepared) && (f.prepared == [] ==> f.deferred == [])
  }

  /** `r` is further on than `f`: more is prepared or deferred, and of the remaining tasks only. */
  ghost predicate Further(f: Fill, r: Fill, remaining: seq<string>) {
    && f.next <= r.next <= |remaining| && f.prepared <= r.prepared
    && |r.prepared| + |r.deferred| - r.next <= |f.prepared| + |f.deferred| - f.next
    && forall t :: t in r.deferred ==> t in f.deferred || t in remaining
  }

  lemma {:induction false} TakenIsFurther(run: Run, remaining: seq<string>, f: Fill, outcome: Preparation)
    requires f.next < |remaining| && remaining[f.next] in run.tasks
    ensures f.next < Taken(run, remaining, f, outcome).next && Further(f, Taken(run, remaining, f, outcome), remaining)
  {
  }

  lemma {:induction false} TakenIsConsistent(run: Run, remaining: seq<string>, f: Fill, outcome: Preparation)
    requires f.next < |remaining| && remaining[f.next] in run.tasks && Consistent(f)
    requires outcome.Defer? ==> f.loads != map[]
    ensures Consistent(Taken(run, remaining, f, outcome))
  {
    if outcome.Prepare? { LoadsMore(f.prepared, outcome.prepared); }
  }

  lemma {:induction false} DeferNeedsLoads(run: Run, states: States, files: Files, task: RuntimeTask, loads: Loads)
    requires Keyed(run.setting.agents)
    ensures Preparing(run, states, files, task, loads).Defer? ==> loads != map[]
  {
  }

  lemma {:induction false} LookIsConsistent(run: Run, files: Files, remaining: seq<string>, f: Fill)
    requires Keyed(run.setting.agents) && AllKnown(run, remaining) && f.next < |remaining| && Consistent(f)
    ensures Consistent(Look(run, files, remaining, f))
  {
    var task := run.tasks[remaining[f.next]];
    DeferNeedsLoads(run, f.states, files, task, f.loads);
    TakenIsConsistent(run, remaining, f, Preparing(run, f.states, files, task, f.loads));
  }

  /** The batch filled greedily from the remaining tasks, in their order. */
  ghost function FilledUp(run: Run, files: Files, remaining: seq<string>, f: Fill): (r: Fill)
    requires Keyed(run.setting.agents) && AllKnown(run, remaining) && f.next <= |remaining|
    ensures Further(f, r, remaining) && r.next == |remaining|
    ensures Consistent(f) ==> Consistent(r)
    decreases |remaining| - f.next
  {
    if f.next == |remaining| then f
    else
      var next := Look(run, files, remaining, f);
      TakenIsFurther(run, remaining, f, Preparing(run, f.states, files, run.tasks[remaining[f.next]], f.loads));
      if Consistent(f) then
        LookIsConsistent(run, files, remaining, f);
        FilledUp(run, files, remaining, next)
      else FilledUp(run, files, remaining, next)
  }

  /** The attempt a task ends with, looked for from attempt `n` on. */
  ghost function LastAttempt(p: Prepared, n: nat): (r: nat)
    ensures n <= r
    decreases p.agent.maxAttempts - n
  {
    if PassesAt(p, n) || n >= p.agent.maxAttempts then n else LastAttempt(p, n + 1)
  }

  lemma {:induction false} LastAttemptIs(p: Prepared, n: nat)
    requires n <= p.agent.maxAttempts
    ensures LastAttempt(p, n) <= p.agent.maxAttempts
    ensures PassesAt(p, LastAttempt(p, n)) || LastAttempt(p, n) == p.agent.maxAttempts
    ensures forall k :: n <= k < LastAttempt(p, n) ==> !PassesAt(p, k)
    decreases p.agent.maxAttempts - n
  {
    if !(PassesAt(p, n) || n >= p.agent.maxAttempts) { LastAttemptIs(p, n + 1); }
  }

  ghost function ExecutionOf(p: Prepared): Execution {
    var n := LastAttempt(p, 1);
    Execution(p.task.taskId, OutputAt(p, n), seq(n, i requires 0 <= i < n => AttemptAt(p, i + 1)))
  }

  lemma {:induction false} ExecutionOfIs(p: Prepared, e: Execution)
    requires p.agent.maxAttempts >= 1
    ensures IsExecution(p, e) <==> e == ExecutionOf(p)
  {
    LastAttemptIs(p, 1);
    assert IsExecution(p, ExecutionOf(p));
    if IsExecution(p, e) { ExecutionUnique(p, e, ExecutionOf(p)); }
  }

  ghost function DispatchesOf(prepared: seq<Prepared>): (r: seq<Dispatch>)
    ensures |r| == |prepared| && forall i :: 0 <= i < |r| ==> r[i] == Dispatch(prepared[i], ExecutionOf(prepared[i]))
  {
    seq(|prepared|, i requires 0 <= i < |prepared| => Dispatch(prepared[i], ExecutionOf(prepared[i])))
  }

  // ---------------------------------------------------------------- the run

  /** How far a run has come; `remaining` are the tasks of the wave not yet dispatched. */
  datatype Progress = Progress(
    states: States, files: Files, schedule: seq<Batch>, log: Log, remaining: seq<string>, stop: bool)

  function NothingFilled(p: Progress): Fill {
    Fill(p.states, [], [], map[], 0, p.stop)
  }

  /** After a round that prepared the batch of `f`, if any. */
  ghost function BatchRun(run: Run, w: nat, p: Progress, f: Fill): Progress {
    if f.prepared == [] then p.(states := f.states, remaining := f.deferred, stop := f.stop)
    else
      var items := DispatchesOf(f.prepared);
      Progress(WrittenAll(MarkedAll(f.states, f.prepared, w), items),
               AppliedAll(p.files, ChangesOf(run.runId, items)),
               p.schedule + [BatchRecord(w, |p.schedule| + 1, items)],
               p.log + [items], f.deferred, f.stop || AnyStops(items))
  }

  /** After one more round of the dispatch loop. */
  ghost function Round(run: Run, w: nat, p: Progress): (r: Progress)
    requires Keyed(run.setting.agents) && AllKnown(run, p.remaining)
    ensures p.remaining != [] ==> |r.remaining| < |p.remaining|
    ensures AllKnown(run, r.remaining)
  {
    BatchRun(run, w, p, FilledUp(run, p.files, p.remaining, NothingFilled(p)))
  }

  /** Rounds until nothing of the wave remains or the run stops. */
  ghost function Rounds(run: Run, w: nat, p: Progress): Progress
    requires Keyed(run.setting.agents) && AllKnown(run, p.remaining)
    decreases |p.remaining|
  {
    if p.remaining == [] || p.stop then p else Rounds(run, w, Round(run, w, p))
  }

  /** The tasks of a wave with a dependency that did not pass are blocked. */
  ghost function BlockedAll(run: Run, states: States, wave: seq<string>): States
    requires AllKnown(run, wave)
  {
    if wave == [] then states
    else
      var before, t := BlockedAll(run, states, wave[..|wave| - 1]), wave[|wave| - 1];
      var list := NotPassed(before, run.tasks[t].dependsOn);
      if list == [] then before else before[t := Initial.(status := Blocked, blockedBy := list)]
  }

  /** The others are eligible. */
  ghost function EligibleOf(run: Run, states: States, wave: seq<string>): (r: seq<string>)
    requires AllKnown(run, wave)
    ensures AllKnown(run, r)
  {
    if wave == [] then []
    else
      var init, t := wave[..|wave| - 1], wave[|wave| - 1];
      EligibleOf(run, states, init)
      + if NotPassed(BlockedAll(run, states, init), run.tasks[t].dependsOn) == [] then [t] else []
  }

  ghost function WaveDone(run: Run, w: nat, wave: seq<string>, p: Progress): Progress
    requires Keyed(run.setting.agents) && AllKnown(run, wave)
  {
    Rounds(run, w, p.(states := BlockedAll(run, p.states, wave), remaining := EligibleOf(run, p.states, wave))).(remaining := [])
  }

  lemma {:induction false} WaveIsKnown(run: Run, w: nat)
    requires WellFormed(run) && w < |Waves(run.g)|
    ensures AllKnown(run, Waves(run.g)[w])
  {
    NextWave(run, w);
    WaveIsOpen(run.g, w);
    forall t | t in Waves(run.g)[w] ensures t in run.tasks { assert t in Elements(Waves(run.g)[w]); }
  }

  ghost function AtStart(run: Run, files0: Files): Progress {
    Progress(map t | t in run.tasks :: Initial, files0, [], [], [], false)
  }

  /** What wave number `w` makes of a run. */
  ghost function WaveStep(run: Run): (nat, Progress) -> Progress
    requires WellFormed(run)
  {
    (w: nat, p: Progress) =>
      if w < |Waves(run.g)| then
        WaveIsKnown(run, w);
        WaveDone(run, w, Waves(run.g)[w], p)
      else p
  }

  /** After the first `w` steps, or those before the run stopped. */
  ghost function After(step: (nat, Progress) -> Progress, start: Progress, w: nat): Progress {
    if w == 0 then start
    else
      var p := After(step, start, w - 1);
      if p.stop then p else step(w - 1, p)
  }

  ghost function AfterWaves(run: Run, files0: Files, w: nat): Progress
    requires WellFormed(run)
  {
    After(WaveStep(run), AtStart(run, files0), w)
  }

  /** The final states, memory files, schedule and log of the run. */
  ghost function Outcome(run: Run, files0: Files): Progress
    requires WellFormed(run)
  {
    var p := AfterWaves(run, files0, |Waves(run.g)|);
    if p.stop then p.(states := SkipPending(p.states)) else p
  }

  ghost predicate IsOutcome(run: Run, states: States, files0: Files, files: Files, schedule: seq<Batch>, log: Log) {
    && WellFormed(run)
    && var p := Outcome(run, files0);
       states == p.states && files == p.files && schedule == p.schedule && log == p.log
  }

  lemma {:induction false} RemainingAreKnown(run: Run, states: States, settled: set<string>, remaining: seq<string>)
    requires WellFormed(run) && AllRunnable(run, states, settled, remaining)
    ensures AllKnown(run, remaining)
  {
    forall t | t in remaining ensures t in run.tasks { assert Runnable(run, states, settled, t); }
  }

  lemma {:induction false} ExecutedAsExpected(prepared: seq<Prepared>, executions: seq<Execution>)
    requires |prepared| == |executions|
    requires forall i :: 0 <= i < |prepared| ==> prepared[i].agent.maxAttempts >= 1 && IsExecution(prepared[i], executions[i])
    ensures Dispatches(prepared, executions) == DispatchesOf(prepared)
  {
    forall i | 0 <= i < |prepared| ensures executions[i] == ExecutionOf(prepared[i]) {
      ExecutionOfIs(prepared[i], executions[i]);
    }
  }

  lemma {:induction false} BlockedMore(run: Run, states: States, wave: seq<string>, i: nat)
    requires i < |wave| && AllKnown(run, wave)
    ensures var before, t := BlockedAll(run, states, wave[..i]), wave[i];
      var list := NotPassed(before, run.tasks[t].dependsOn);
      && BlockedAll(run, states, wave[..i + 1])
        == (if list == [] then before else before[t := Initial.(status := Blocked, blockedBy := list)])
      && EligibleOf(run, states, wave[..i + 1]) == EligibleOf(run, states, wave[..i]) + if list == [] then [t] else []
  {
    assert wave[..i + 1][..i] == wave[..i];
  }

  lemma {:induction false} AfterNext(run: Run, files0: Files, w: nat)
    requires WellFormed(run) && w < |Waves(run.g)| && !AfterWaves(run, files0, w).stop && AllKnown(run, Waves(run.g)[w])
    ensures AfterWaves(run, files0, w + 1) == WaveDone(run, w, Waves(run.g)[w], AfterWaves(run, files0, w))
  {
  }

  lemma {:induction false} AfterStays(step: (nat, Progress) -> Progress, start: Progress, w: nat, v: nat)
    requires w <= v && After(step, start, w).stop
    ensures After(step, start, v) == After(step, start, w)
  {
    if w < v { AfterStays(step, start, w, v - 1); }
  }

  lemma {:induction false} RunIsOutcome(run: Run, files0: Files, w: nat, p: Progress)
    requires WellFormed(run) && w <= |Waves(run.g)| && p == AfterWaves(run, files0, w) && (w == |Waves(run.g)| || p.stop)
    ensures IsOutcome(run, if p.stop then SkipPending(p.states) else p.states, files0, p.files, p.schedule, p.log)
  {
    if p.stop { AfterStays(WaveStep(run), AtStart(run, files0), w, |Waves(run.g)|); }
  }

  lemma {:induction false} DispatchesAreExecutions(prepared: seq<Prepared>)
    requires forall i :: 0 <= i < |prepared| ==> prepared[i].agent.maxAttempts >= 1
    ensures BatchOf(DispatchesOf(prepared)) == prepared
    ensures var items := DispatchesOf(prepared);
      forall i :: 0 <= i < |items| ==> IsExecution(items[i].prepared, items[i].execution)
  {
    forall i | 0 <= i < |prepared| ensures IsExecution(prepared[i], ExecutionOf(prepared[i])) {
      ExecutionOfIs(prepared[i], ExecutionOf(prepared[i]));
    }
  }

  // ---------------------------------------------------------------- what the run keeps, step by step

  lemma {:induction false} PreparingPrepares(run: Run, states: States, files: Files, task: RuntimeTask, loads: Loads)
    requires Keyed(run.setting.agents) && task.taskId in run.tasks && run.tasks[task.taskId] == task
    ensures var outcome := Preparing(run, states, files, task, loads);
      outcome.Prepare? ==>
        && outcome.prepared.task == task && IsPrepared(run, states, files, outcome.prepared)
        && IsChosen(run.setting, task, loads, outcome.prepared.agent)
        && (run.setting.scheduling.Some? ==>
            BelowCapacity(run.setting.scheduling.value.profiles, loads, outcome.prepared.agent.agentId))
  {
  }

  lemma {:induction false} FailureKeeps(run: Run, base: States, settled: set<string>, failed: set<string>, files: Files,
                                        remaining: seq<string>, f: Fill, error: TaskError,
                                        files0: Files, schedule: seq<Batch>, log: Log)
    requires f.next < |remaining| && Filling(run, base, settled, failed, files, remaining, f)
    requires Kept(run, f.states, settled + failed, files0, schedule, log)
    requires remaining[f.next] in run.tasks
    ensures var r := Taken(run, remaining, f, Fail(error));
      && Filling(run, base, settled, failed + {remaining[f.next]}, files, remaining, r)
      && Kept(run, r.states, settled + (failed + {remaining[f.next]}), files0, schedule, log)
  {
    var t := remaining[f.next];
    var r := Taken(run, remaining, f, Fail(error));
    NextIsOpen(run, base, settled, failed, files, remaining, f);
    FailAside(run, f.states, settled + failed, files0, schedule, log, t, r.states[t]);
    FillFailed(run, base, settled, failed, files, remaining, f, r);
  }

  lemma {:induction false} TakenKeeps(run: Run, base: States, settled: set<string>, failed: set<string>, files: Files,
                                      remaining: seq<string>, f: Fill, outcome: Preparation,
                                      files0: Files, schedule: seq<Batch>, log: Log)
    returns (failedMore: set<string>)
    requires f.next < |remaining| && Filling(run, base, settled, failed, files, remaining, f)
    requires Kept(run, f.states, settled + failed, files0, schedule, log)
    requires AllKnown(run, remaining)
    requires outcome == Preparing(run, f.states, files, run.tasks[remaining[f.next]], f.loads)
    ensures remaining[f.next] !in settled + failed && Runnable(run, f.states, settled + failed, remaining[f.next])
    ensures Filling(run, base, settled, failedMore, files, remaining, Taken(run, remaining, f, outcome))
    ensures Kept(run, Taken(run, remaining, f, outcome).states, settled + failedMore, files0, schedule, log)
  {
    var t := remaining[f.next];
    failedMore := failed;
    NextIsOpen(run, base, settled, failed, files, remaining, f);
    match outcome {
      case Fail(error) =>
        FailureKeeps(run, base, settled, failed, files, remaining, f, error, files0, schedule, log);
        failedMore := failed + {t};
      case Defer =>
        FillDeferred(run, base, settled, failed, files, remaining, f);
      case Prepare(p) =>
        PreparingPrepares(run, f.states, files, run.tasks[t], f.loads);
        FillPrepared(run, base, settled, failed, files, remaining, f, p);
    }
  }

  /** The batch can be executed: its tasks are in the state, and its agents have attempts. */
  ghost predicate Executable(f: Fill) {
    && Elements(TaskIds(f.prepared)) <= f.states.Keys
    && forall i :: 0 <= i < |f.prepared| ==> f.prepared[i].agent.maxAttempts >= 1
  }

  lemma {:induction false} FilledIsExecutable(run: Run, states: States, settled: set<string>, failed: set<string>, files: Files,
                                              remaining: seq<string>, f: Fill)
    requires f.next == |remaining| && Filling(run, states, settled, failed, files, remaining, f)
    requires f.states.Keys == run.g.Keys
    ensures Executable(f)
  {
    AgentsCanRun(run, f.states, files, f.prepared);
    PreparedAreKnown(run, states, settled, failed, files, remaining, f);
  }

  lemma {:induction false} ExecutedKeeps(run: Run, states: States, settled: set<string>, failed: set<string>, files0: Files, files: Files,
                                         schedule: seq<Batch>, log: Log, remaining: seq<string>, wave: nat, f: Fill,
                                         items: seq<Dispatch>, after: States)
    requires Kept(run, f.states, settled + failed, files0, schedule, log) && Executable(f)
    requires f.next == |remaining| && f.prepared != [] && Filling(run, states, settled, failed, files, remaining, f)
    requires Elements(remaining) <= Wave(run.g, wave) && files == AppliedAll(files0, Changes(run.runId, log))
    requires items == DispatchesOf(f.prepared) && after == WrittenAll(MarkedAll(f.states, f.prepared, wave), items)
    ensures Dispatching(run, after, settled + failed + Elements(IdsOf(items)), files0,
                        schedule + [BatchRecord(wave, |schedule| + 1, items)], log + [items],
                        f.deferred, settled + Elements(remaining), f.stop || AnyStops(items))
    ensures |f.deferred| < |remaining| && Elements(f.deferred) <= Elements(remaining) && AgreeOn(states, after, settled)
    ensures AppliedAll(files, ChangesOf(run.runId, items)) == AppliedAll(files0, Changes(run.runId, log + [items]))
  {
    DispatchesAreExecutions(f.prepared);
    BatchDone(run, states, settled, failed, files0, schedule, log, remaining, wave, f, items, after);
    LogAppend(run.runId, files0, log, items);
  }

  lemma {:induction false} BatchKeeps(run: Run, p: Progress, settled: set<string>, failed: set<string>, files0: Files, wave: nat, f: Fill)
    requires Kept(run, f.states, settled + failed, files0, p.schedule, p.log) && Executable(f)
    requires f.next == |p.remaining| && f.prepared != [] && Filling(run, p.states, settled, failed, p.files, p.remaining, f)
    requires Elements(p.remaining) <= Wave(run.g, wave) && p.files == AppliedAll(files0, Changes(run.runId, p.log))
    ensures var q := BatchRun(run, wave, p, f);
      && Dispatching(run, q.states, settled + failed + Elements(IdsOf(DispatchesOf(f.prepared))), files0, q.schedule, q.log,
                     q.remaining, settled + Elements(p.remaining), q.stop)
      && |q.remaining| < |p.remaining| && Elements(q.remaining) <= Elements(p.remaining) && AgreeOn(p.states, q.states, settled)
      && q.files == AppliedAll(files0, Changes(run.runId, q.log))
  {
    ExecutedKeeps(run, p.states, settled, failed, files0, p.files, p.schedule, p.log, p.remaining, wave, f,
                  DispatchesOf(f.prepared), BatchRun(run, wave, p, f).states);
  }

  /** A round keeps what holds between two batches. */
  lemma {:induction false} RoundKeeps(run: Run, p: Progress, settled: set<string>, failed: set<string>, files0: Files, wave: nat, f: Fill,
                                      level: set<string>)
    returns (settledMore: set<string>)
    requires Dispatching(run, p.states, settled, files0, p.schedule, p.log, p.remaining, level, p.stop)
    requires p.remaining != [] && !p.stop
    requires Kept(run, f.states, settled + failed, files0, p.schedule, p.log)
    requires f.next == |p.remaining| && Filling(run, p.states, settled, failed, p.files, p.remaining, f)
    requires Elements(p.remaining) <= Wave(run.g, wave) && p.files == AppliedAll(files0, Changes(run.runId, p.log))
    ensures Executable(f) && settled <= settledMore
    ensures var q := BatchRun(run, wave, p, f);
      && Dispatching(run, q.states, settledMore, files0, q.schedule, q.log, q.remaining, level, q.stop)
      && |q.remaining| < |p.remaining| && Elements(q.remaining) <= Elements(p.remaining) && AgreeOn(p.states, q.states, settled)
      && q.files == AppliedAll(files0, Changes(run.runId, q.log))
  {
    FilledIsExecutable(run, p.states, settled, failed, p.files, p.remaining, f);
    settledMore := settled + failed;
    if f.prepared == [] {
      NothingPrepared(run, p.states, settled, failed, p.files, files0, p.schedule, p.log, p.remaining, level, f);
    } else {
      BatchKeeps(run, p, settled, failed, files0, wave, f);
      settledMore := settled + failed + Elements(IdsOf(DispatchesOf(f.prepared)));
    }
  }

  lemma {:induction false} FilledKeeps(run: Run, base: States, settled: set<string>, failed: set<string>, files: Files,
                                       remaining: seq<string>, f: Fill, files0: Files, schedule: seq<Batch>, log: Log)
    returns (failedMore: set<string>)
    requires f.next <= |remaining| && Filling(run, base, settled, failed, files, remaining, f) && AllKnown(run, remaining)
    requires Kept(run, f.states, settled + failed, files0, schedule, log)
    ensures var r := FilledUp(run, files, remaining, f);
      && Filling(run, base, settled, failedMore, files, remaining, r)
      && Kept(run, r.states, settled + failedMore, files0, schedule, log)
    decreases |remaining| - f.next
  {
    failedMore := failed;
    if f.next < |remaining| {
      var outcome := Preparing(run, f.states, files, run.tasks[remaining[f.next]], f.loads);
      TakenIsFurther(run, remaining, f, outcome);
      failedMore := TakenKeeps(run, base, settled, failed, files, remaining, f, outcome, files0, schedule, log);
      failedMore := FilledKeeps(run, base, settled, failedMore, files, remaining, Look(run, files, remaining, f), files0, schedule, log);
    }
  }

  lemma {:induction false} FillingStarts(run: Run, p: Progress, settled: set<string>, files0: Files, level: set<string>)
    requires Dispatching(run, p.states, settled, files0, p.schedule, p.log, p.remaining, level, p.stop) && !p.stop
    ensures Filling(run, p.states, settled, {}, p.files, p.remaining, NothingFilled(p)) && settled + {} == settled
  {
    assert settled + {} == settled;
  }

  lemma {:induction false} RoundsKeep(run: Run, w: nat, p: Progress, settled: set<string>, files0: Files, level: set<string>)
    returns (settledMore: set<string>)
    requires Dispatching(run, p.states, settled, files0, p.schedule, p.log, p.remaining, level, p.stop)
    requires AllKnown(run, p.remaining) && Elements(p.remaining) <= Wave(run.g, w)
    requires p.files == AppliedAll(files0, Changes(run.runId, p.log))
    ensures var q := Rounds(run, w, p);
      && Dispatching(run, q.states, settledMore, files0, q.schedule, q.log, q.remaining, level, q.stop)
      && (q.remaining == [] || q.stop) && settled <= settledMore && AgreeOn(p.states, q.states, settled)
      && q.files == AppliedAll(files0, Changes(run.runId, q.log))
    decreases |p.remaining|
  {
    settledMore := settled;
    if p.remaining != [] && !p.stop {
      FillingStarts(run, p, settled, files0, level);
      var failed := FilledKeeps(run, p.states, settled, {}, p.files, p.remaining, NothingFilled(p), files0, p.schedule, p.log);
      var f := FilledUp(run, p.files, p.remaining, NothingFilled(p));
      settledMore := RoundKeeps(run, p, settled, failed, files0, w, f, level);
      settledMore := RoundsKeep(run, w, BatchRun(run, w, p, f), settledMore, files0, level);
    }
  }

  lemma {:induction false} OneIsBlocked(run: Run, before: States, done: set<string>, settled: set<string>, eligible: seq<string>, t: string,
                                        s: TaskState, files0: Files, schedule: seq<Batch>, log: Log)
    requires Kept(run, before, settled, files0, schedule, log) && AllRunnable(run, before, settled, eligible)
    requires !Stopped(run, before, settled) && done <= settled
    requires t in run.g && t !in settled && run.g[t] <= settled && NotPassed(before, run.tasks[t].dependsOn) != []
    requires s == Initial.(status := Blocked, blockedBy := NotPassed(before, run.tasks[t].dependsOn))
    ensures Kept(run, before[t := s], settled + {t}, files0, schedule, log)
    ensures AllRunnable(run, before[t := s], settled + {t}, eligible)
    ensures !Stopped(run, before[t := s], settled + {t}) && AgreeOn(before, before[t := s], done)
  {
    BlockAside(run, before, settled, files0, schedule, log, t, s);
    RunnableKept(run, before, before[t := s], settled, {t}, eligible);
  }

  lemma {:induction false} NextInWave(run: Run, w: nat, wave: seq<string>, i: nat, eligible: seq<string>, settled: set<string>)
    requires i < |wave| && NoDuplicates(wave) && Elements(wave) == Wave(run.g, w)
    requires Divided(Done(run.g, w), Done(run.g, w) + Elements(wave[..i]), eligible, settled)
    ensures wave[i] in run.g && run.g[wave[i]] <= Done(run.g, w) <= settled && wave[i] !in settled
    ensures Divided(Done(run.g, w), Done(run.g, w) + Elements(wave[..i + 1]), eligible, settled + {wave[i]})
    ensures Divided(Done(run.g, w), Done(run.g, w) + Elements(wave[..i + 1]), eligible + [wave[i]], settled)
  {
    WaveIsOpen(run.g, w);
    DivideStep(Done(run.g, w), wave, i, eligible, settled);
  }

  /** The first `i` tasks of a wave are blocked or eligible. */
  ghost predicate BlockedSoFar(run: Run, w: nat, wave: seq<string>, states: States, i: nat, settled: set<string>,
                               files0: Files, schedule: seq<Batch>, log: Log)
    requires AllKnown(run, wave) && i <= |wave|
  {
    var after, eligible := BlockedAll(run, states, wave[..i]), EligibleOf(run, states, wave[..i]);
    && Kept(run, after, settled, files0, schedule, log)
    && Divided(Done(run.g, w), Done(run.g, w) + Elements(wave[..i]), eligible, settled)
    && AllRunnable(run, after, settled, eligible)
    && !Stopped(run, after, settled) && AgreeOn(states, after, Done(run.g, w))
  }

  /** One task of a wave. */
  lemma {:induction false} BlockedKeepsOne(run: Run, w: nat, wave: seq<string>, states: States, i: nat, settled: set<string>,
                                           files0: Files, schedule: seq<Batch>, log: Log)
    returns (more: set<string>)
    requires AllKnown(run, wave) && i < |wave| && NoDuplicates(wave) && Elements(wave) == Wave(run.g, w)
    requires BlockedSoFar(run, w, wave, states, i, settled, files0, schedule, log)
    ensures BlockedSoFar(run, w, wave, states, i + 1, more, files0, schedule, log)
  {
    var before, t, eligible := BlockedAll(run, states, wave[..i]), wave[i], EligibleOf(run, states, wave[..i]);
    NextInWave(run, w, wave, i, eligible, settled);
    BlockedMore(run, states, wave, i);
    RunnableIfAllPassed(run, before, settled, t);
    var list := NotPassed(before, run.tasks[t].dependsOn);
    more := settled;
    if list != [] {
      OneIsBlocked(run, before, Done(run.g, w), settled, eligible, t, Initial.(status := Blocked, blockedBy := list),
                   files0, schedule, log);
      more := settled + {t};
    } else {
      RunnableAdded(run, before, settled, eligible, t);
    }
  }

  lemma {:induction false} BlockedKeeps(run: Run, w: nat, wave: seq<string>, states: States, i: nat,
                                        files0: Files, schedule: seq<Batch>, log: Log)
    returns (settled: set<string>)
    requires AllKnown(run, wave) && i <= |wave| && NoDuplicates(wave) && Elements(wave) == Wave(run.g, w)
    requires Kept(run, states, Done(run.g, w), files0, schedule, log) && !Stopped(run, states, Done(run.g, w))
    ensures BlockedSoFar(run, w, wave, states, i, settled, files0, schedule, log)
    decreases i
  {
    if i == 0 {
      settled := Done(run.g, w);
    } else {
      settled := BlockedKeeps(run, w, wave, states, i - 1, files0, schedule, log);
      settled := BlockedKeepsOne(run, w, wave, states, i - 1, settled, files0, schedule, log);
    }
  }

  ghost predicate Between(run: Run, w: nat, p: Progress, settled: set<string>, files0: Files) {
    Reached(run, p.states, settled, files0, p.files, p.schedule, p.log, w, p.stop)
  }

  /** The eligible tasks of a wave are about to be dispatched. */
  lemma {:induction false} WaveBegins(run: Run, w: nat, wave: seq<string>, p: Progress, settled: set<string>, files0: Files)
    returns (closed: set<string>)
    requires Between(run, w, p, settled, files0) && !p.stop
    requires AllKnown(run, wave) && NoDuplicates(wave) && Elements(wave) == Wave(run.g, w)
    ensures var after, eligible := BlockedAll(run, p.states, wave), EligibleOf(run, p.states, wave);
      && Dispatching(run, after, closed, files0, p.schedule, p.log, eligible, Done(run.g, w + 1), false)
      && Elements(eligible) <= Wave(run.g, w) && AgreeOn(p.states, after, Done(run.g, w)) && Done(run.g, w) <= closed
  {
    WaveIsOpen(run.g, w);
    closed := BlockedKeeps(run, w, wave, p.states, |wave|, files0, p.schedule, p.log);
    assert wave[..|wave|] == wave;
  }

  lemma {:induction false} WaveEnds(run: Run, w: nat, states: States, q: Progress, settled: set<string>, files0: Files)
    requires Dispatching(run, q.states, settled, files0, q.schedule, q.log, q.remaining, Done(run.g, w + 1), q.stop)
    requires q.remaining == [] || q.stop
    requires q.files == AppliedAll(files0, Changes(run.runId, q.log))
    requires AgreeOn(states, q.states, Done(run.g, w)) && !Stopped(run, states, Done(run.g, w))
    ensures Between(run, w + 1, q.(remaining := []), settled, files0)
  {
    StopsAreNew(run, states, q.states, settled, w);
  }

  lemma {:induction false} WaveKeeps(run: Run, w: nat, wave: seq<string>, p: Progress, settled: set<string>, files0: Files)
    returns (settledMore: set<string>)
    requires Between(run, w, p, settled, files0) && !p.stop
    requires AllKnown(run, wave) && NoDuplicates(wave) && Elements(wave) == Wave(run.g, w)
    ensures Between(run, w + 1, WaveDone(run, w, wave, p), settledMore, files0)
  {
    var closed := WaveBegins(run, w, wave, p, settled, files0);
    var begun := p.(states := BlockedAll(run, p.states, wave), remaining := EligibleOf(run, p.states, wave));
    settledMore := RoundsKeep(run, w, begun, closed, files0, Done(run.g, w + 1));
    WaveEnds(run, w, p.states, Rounds(run, w, begun), settledMore, files0);
  }

  ghost predicate SomewhereBetween(run: Run, w: nat, p: Progress, files0: Files) {
    exists settled :: Between(run, w, p, settled, files0)
  }

  /** A step from wave `w` keeps the run between waves. */
  ghost predicate Advances(run: Run, files0: Files, step: (nat, Progress) -> Progress, w: nat) {
    forall p, settled {:trigger Between(run, w, p, settled, files0)} ::
      Between(run, w, p, settled, files0) && !p.stop ==> SomewhereBetween(run, w + 1, step(w, p), files0)
  }

  lemma {:induction false} WaveAdvances(run: Run, files0: Files, w: nat)
    requires WellFormed(run) && w < |Waves(run.g)|
    ensures Advances(run, files0, WaveStep(run), w)
  {
    var wave := Waves(run.g)[w];
    WaveIsKnown(run, w);
    NextWave(run, w);
    forall p, settled | Between(run, w, p, settled, files0) && !p.stop
      ensures SomewhereBetween(run, w + 1, WaveStep(run)(w, p), files0)
    {
      var more := WaveKeeps(run, w, wave, p, settled, files0);
      assert WaveStep(run)(w, p) == WaveDone(run, w, wave, p);
    }
  }

  lemma {:induction false} AfterKeeps(run: Run, files0: Files, step: (nat, Progress) -> Progress, start: Progress, w: nat)
    returns (v: nat, settled: set<string>)
    requires Between(run, 0, start, {}, files0)
    requires forall u {:trigger Advances(run, files0, step, u)} :: 0 <= u < w ==> Advances(run, files0, step, u)
    ensures Between(run, v, After(step, start, w), settled, files0) && (v == w || After(step, start, w).stop)
  {
    v, settled := 0, {};
    if w > 0 {
      v, settled := AfterKeeps(run, files0, step, start, w - 1);
      if !After(step, start, w - 1).stop {
        assert Advances(run, files0, step, w - 1);
        v := w;
        assert SomewhereBetween(run, w, step(w - 1, After(step, start, w - 1)), files0);
        settled :| Between(run, w, step(w - 1, After(step, start, w - 1)), settled, files0);
      }
    }
  }

  /** Every outcome is the end of a run: justified states and a faithful history. */
  lemma {:induction false} OutcomeEnds(run: Run, files0: Files) returns (settled: set<string>)
    requires WellFormed(run)
    ensures var p := Outcome(run, files0); Ended(run, p.states, settled, files0, p.files, p.schedule, p.log)
  {
    StartIsBetween(run, AtStart(run, files0).states, files0);
    forall w | 0 <= w < |Waves(run.g)| ensures Advances(run, files0, WaveStep(run), w) { WaveAdvances(run, files0, w); }
    var w;
    w, settled := AfterKeeps(run, files0, WaveStep(run), AtStart(run, files0), |Waves(run.g)|);
    var p := AfterWaves(run, files0, |Waves(run.g)|);
    WavesAreDone(run, p.states, settled, files0, p.files, p.schedule, p.log, w, p.stop, Outcome(run, files0).states);
  }

  // ---------------------------------------------------------------- why tasks wait and fail

  lemma {:induction false} TakenDefers(run: Run, remaining: seq<string>, f: Fill, outcome: Preparation, t: string)
    requires f.next < |remaining| && remaining[f.next] in run.tasks
    requires t in Taken(run, remaining, f, outcome).deferred && t !in f.deferred
    ensures (outcome.Defer? && t == remaining[f.next]) || |Taken(run, remaining, f, outcome).prepared| >= run.setting.maxWorkers
  {
  }

  /** The task had to wait with the assignments of the beginning of the batch. */
  ghost predicate WaitsAmong(run: Run, batch: seq<Prepared>, t: string) {
    t in run.tasks && exists q {:trigger LoadsOf(q)} :: q <= batch && Waits(run.setting, run.tasks[t], LoadsOf(q))
  }

  /** A deferred task found the batch full, or all agents that could take it at the limit of their capacity. */
  lemma {:induction false} DeferredIsExplained(run: Run, files: Files, remaining: seq<string>, f: Fill, t: string)
    requires Keyed(run.setting.agents) && AllKnown(run, remaining) && f.next <= |remaining| && Consistent(f)
    requires t in FilledUp(run, files, remaining, f).deferred && t !in f.deferred
    ensures var r := FilledUp(run, files, remaining, f);
      |r.prepared| >= run.setting.maxWorkers || WaitsAmong(run, r.prepared, t)
    decreases |remaining| - f.next
  {
    var next := Look(run, files, remaining, f);
    var outcome := Preparing(run, f.states, files, run.tasks[remaining[f.next]], f.loads);
    LookIsConsistent(run, files, remaining, f);
    TakenIsFurther(run, remaining, f, outcome);
    if t !in next.deferred {
      DeferredIsExplained(run, files, remaining, next, t);
    } else {
      TakenDefers(run, remaining, f, outcome, t);
      var r := FilledUp(run, files, remaining, next);
      assert Further(next, r, remaining) && f.prepared <= r.prepared;
      assert outcome.Defer? && t == remaining[f.next] ==> Waits(run.setting, run.tasks[t], LoadsOf(f.prepared));
    }
  }

  /** `q` is the beginning of a batch of the log, or of the one being filled. */
  ghost predicate PartOf(log: Log, filled: seq<Prepared>, q: seq<Prepared>) {
    q <= filled || exists b :: 0 <= b < |log| && q <= BatchOf(log[b])
  }

  /** The state of a task that failed with the assignments of `q`. */
  ghost predicate FailsWith(run: Run, s: TaskState, t: string, q: seq<Prepared>)
    requires Keyed(run.setting.agents)
  {
    && t in run.tasks && Unserved(run.setting, run.tasks[t], LoadsOf(q))
    && s == Initial.(status := Failed, error := Some(FailureOf(run.setting, run.tasks[t], LoadsOf(q))))
  }

  /** A failed task was dispatched, or failed with the assignments of the beginning of a batch. */
  ghost predicate Explained(run: Run, states: States, log: Log, filled: seq<Prepared>, t: string)
    requires Keyed(run.setting.agents) && t in states
  {
    states[t].status == Failed ==>
      t in Dispatched(log) || exists q {:trigger PartOf(log, filled, q)} :: PartOf(log, filled, q) && FailsWith(run, states[t], t, q)
  }

  ghost predicate AllExplained(run: Run, states: States, log: Log, filled: seq<Prepared>)
    requires Keyed(run.setting.agents)
  {
    forall t {:trigger Explained(run, states, log, filled, t)} :: t in states ==> Explained(run, states, log, filled, t)
  }

  lemma {:induction false} ExplainedFurther(run: Run, states: States, log: Log, a: seq<Prepared>, b: seq<Prepared>)
    requires Keyed(run.setting.agents) && AllExplained(run, states, log, a) && a <= b
    ensures AllExplained(run, states, log, b)
  {
    forall t | t in states ensures Explained(run, states, log, b, t) {
      assert Explained(run, states, log, a, t);
      if states[t].status == Failed && t !in Dispatched(log) {
        var q :| PartOf(log, a, q) && FailsWith(run, states[t], t, q);
        assert PartOf(log, b, q);
      }
    }
  }

  lemma {:induction false} LookExplains(run: Run, files: Files, remaining: seq<string>, f: Fill, log: Log)
    requires Keyed(run.setting.agents) && AllKnown(run, remaining) && f.next < |remaining| && f.loads == LoadsOf(f.prepared)
    requires AllExplained(run, f.states, log, f.prepared)
    ensures var r := Look(run, files, remaining, f); AllExplained(run, r.states, log, r.prepared)
  {
    var t, r := remaining[f.next], Look(run, files, remaining, f);
    var outcome := Preparing(run, f.states, files, run.tasks[t], f.loads);
    TakenIsFurther(run, remaining, f, outcome);
    ExplainedFurther(run, f.states, log, f.prepared, r.prepared);
    if outcome.Fail? {
      forall u | u in r.states ensures Explained(run, r.states, log, r.prepared, u) {
        if u == t {
          assert PartOf(log, r.prepared, f.prepared) && FailsWith(run, r.states[t], t, f.prepared);
        } else {
          assert Explained(run, f.states, log, r.prepared, u);
        }
      }
    }
  }

  lemma {:induction false} FilledExplains(run: Run, files: Files, remaining: seq<string>, f: Fill, log: Log)
    requires Keyed(run.setting.agents) && AllKnown(run, remaining) && f.next <= |remaining| && Consistent(f)
    requires AllExplained(run, f.states, log, f.prepared)
    ensures var r := FilledUp(run, files, remaining, f); AllExplained(run, r.states, log, r.prepared)
    decreases |remaining| - f.next
  {
    if f.next < |remaining| {
      LookExplains(run, files, remaining, f, log);
      LookIsConsistent(run, files, remaining, f);
      TakenIsFurther(run, remaining, f, Preparing(run, f.states, files, run.tasks[remaining[f.next]], f.loads));
      FilledExplains(run, files, remaining, Look(run, files, remaining, f), log);
    }
  }

  lemma {:induction false} MarkedElsewhere(states: States, prepared: seq<Prepared>, wave: nat, t: string)
    requires t !in TaskIds(prepared)
    ensures t in MarkedAll(states, prepared, wave) <==> t in states
    ensures t in states ==> MarkedAll(states, prepared, wave)[t] == states[t]
  {
    if prepared != [] {
      var init, last := prepared[..|prepared| - 1], prepared[|prepared| - 1];
      assert TaskIds(prepared) == TaskIds(init) + [last.task.taskId];
      MarkedElsewhere(states, init, wave, t);
    }
  }

  lemma {:induction false} WrittenElsewhere(states: States, items: seq<Dispatch>, t: string)
    requires t !in IdsOf(items)
    ensures t in WrittenAll(states, items) <==> t in states
    ensures t in states ==> WrittenAll(states, items)[t] == states[t]
  {
    if items != [] {
      var init, last := items[..|items| - 1], items[|items| - 1];
      assert IdsOf(items) == IdsOf(init) + [last.prepared.task.taskId];
      WrittenElsewhere(states, init, t);
    }
  }

  lemma {:induction false} LoggedExplains(run: Run, states: States, log: Log, items: seq<Dispatch>, t: string)
    requires Keyed(run.setting.agents) && t in states && Explained(run, states, log, BatchOf(items), t)
    ensures Explained(run, states, log + [items], [], t)
  {
    var more := log + [items];
    assert more[..|log|] == log && more[|log|] == items;
    if states[t].status == Failed && t !in Dispatched(log) {
      var q :| PartOf(log, BatchOf(items), q) && FailsWith(run, states[t], t, q);
      assert PartOf(more, [], q) by {
        if q <= BatchOf(items) {
          assert q <= BatchOf(more[|log|]);
        } else {
          var b :| 0 <= b < |log| && q <= BatchOf(log[b]);
          assert q <= BatchOf(more[b]);
        }
      }
    }
  }

  lemma {:induction false} BatchExplains(run: Run, w: nat, p: Progress, f: Fill)
    requires Keyed(run.setting.agents) && AllExplained(run, f.states, p.log, f.prepared)
    ensures var q := BatchRun(run, w, p, f); AllExplained(run, q.states, q.log, [])
  {
    var q := BatchRun(run, w, p, f);
    if f.prepared != [] {
      var items := DispatchesOf(f.prepared);
      assert q.log == p.log + [items] && q.log[..|p.log|] == p.log;
      assert IdsOf(items) == TaskIds(f.prepared) && BatchOf(items) == f.prepared;
      forall t | t in q.states ensures Explained(run, q.states, q.log, [], t) {
        if t !in IdsOf(items) {
          MarkedElsewhere(f.states, f.prepared, w, t);
          WrittenElsewhere(MarkedAll(f.states, f.prepared, w), items, t);
          assert Explained(run, f.states, p.log, f.prepared, t);
          LoggedExplains(run, f.states, p.log, items, t);
        }
      }
    }
  }

  lemma {:induction false} BlockedExplains(run: Run, states: States, wave: seq<string>, log: Log)
    requires Keyed(run.setting.agents) && AllKnown(run, wave) && AllExplained(run, states, log, [])
    ensures AllExplained(run, BlockedAll(run, states, wave), log, [])
  {
    if wave != [] {
      var init := wave[..|wave| - 1];
      BlockedExplains(run, states, init, log);
      var before, after := BlockedAll(run, states, init), BlockedAll(run, states, wave);
      forall t | t in after ensures Explained(run, after, log, [], t) {
        if t in before && after[t] == before[t] { assert Explained(run, before, log, [], t); }
      }
    }
  }

  lemma {:induction false} RoundsExplain(run: Run, w: nat, p: Progress)
    requires Keyed(run.setting.agents) && AllKnown(run, p.remaining) && AllExplained(run, p.states, p.log, [])
    ensures var r := Rounds(run, w, p); AllExplained(run, r.states, r.log, [])
    decreases |p.remaining|
  {
    if p.remaining != [] && !p.stop {
      FilledExplains(run, p.files, p.remaining, NothingFilled(p), p.log);
      BatchExplains(run, w, p, FilledUp(run, p.files, p.remaining, NothingFilled(p)));
      RoundsExplain(run, w, Round(run, w, p));
    }
  }

  lemma {:induction false} WaveExplains(run: Run, w: nat, wave: seq<string>, p: Progress)
    requires Keyed(run.setting.agents) && AllKnown(run, wave) && AllExplained(run, p.states, p.log, [])
    ensures var r := WaveDone(run, w, wave, p); AllExplained(run, r.states, r.log, [])
  {
    BlockedExplains(run, p.states, wave, p.log);
    RoundsExplain(run, w, p.(states := BlockedAll(run, p.states, wave), remaining := EligibleOf(run, p.states, wave)));
  }

  ghost predicate ProgressExplained(run: Run, p: Progress)
    requires Keyed(run.setting.agents)
  {
    AllExplained(run, p.states, p.log, [])
  }

  ghost predicate KeepsExplained(run: Run, step: (nat, Progress) -> Progress)
    requires Keyed(run.setting.agents)
  {
    forall w: nat, p {:trigger step(w, p)} :: ProgressExplained(run, p) ==> ProgressExplained(run, step(w, p))
  }

  lemma {:induction false} AfterExplains(run: Run, step: (nat, Progress) -> Progress, start: Progress, w: nat)
    requires Keyed(run.setting.agents) && KeepsExplained(run, step) && ProgressExplained(run, start)
    ensures ProgressExplained(run, After(step, start, w))
  {
    if w > 0 { AfterExplains(run, step, start, w - 1); }
  }

  lemma {:induction false} WavesExplain(run: Run)
    requires WellFormed(run)
    ensures KeepsExplained(run, WaveStep(run))
  {
    forall w: nat, p | ProgressExplained(run, p) ensures ProgressExplained(run, WaveStep(run)(w, p)) {
      if w < |Waves(run.g)| {
        WaveIsKnown(run, w);
        WaveExplains(run, w, Waves(run.g)[w], p);
      }
    }
  }

  lemma {:induction false} OutcomeExplains(run: Run, files0: Files)
    requires WellFormed(run)
    ensures AllExplained(run, Outcome(run, files0).states, Outcome(run, files0).log, [])
  {
    var start, p := AtStart(run, files0), AfterWaves(run, files0, |Waves(run.g)|);
    forall t | t in start.states ensures Explained(run, start.states, [], [], t) {}
    WavesExplain(run);
    AfterExplains(run, WaveStep(run), start, |Waves(run.g)|);
    var final := SkipPending(p.states);
    forall t | t in final ensures Explained(run, final, p.log, [], t) { assert Explained(run, p.states, p.log, [], t); }
  }
}
