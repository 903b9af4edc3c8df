/** The records of a run, the execution of one prepared task, and what a run keeps. */
module RuntimeModel {
  import opened Wrappers
  import opened Ordering
  import opened Json
  import opened ExecutionGraph
  import opened AgentContracts
  import opened AgentRegistry
  import opened AgentMemory
  import opened CapabilityGraph
  import opened AgentScheduler

  datatype Status = Pending | Running | Passed | Failed | Blocked | Skipped

  datatype Attempt = Attempt(number: nat, status: OutputStatus, error: Option<string>, evidence: seq<Json>)

  datatype SelectionError = FromRegistry(registry: RegistryError) | FromScheduler(scheduler: SchedulerError)

  datatype TaskError = NotSelected(selection: SelectionError) | NoAdapter(adapter: string) | Reported(text: string)

  datatype TaskState = TaskState(
    status: Status, attempts: seq<Attempt>, result: Document, error: Option<TaskError>, evidence: seq<Json>,
    blockedBy: seq<string>, agentId: Option<string>, wave: Option<nat>)

  const Initial := TaskState(Pending, [], map[], None, [], [], None, None)

  type States = map<string, TaskState>

  datatype Batch = Batch(wave: nat, number: nat, taskIds: seq<string>, parallel: bool, capacity: nat)

  // ---------------------------------------------------------------- executing one task

  /** An adapter call: it returns an output, or raises. */
  datatype Reply = Returned(output: AgentOutput) | Raised(message: string)

  /** What the adapter does with a payload at each attempt. */
  type Adapter = (AgentInput, nat) -> Reply

  datatype Prepared = Prepared(task: RuntimeTask, agent: AgentSpec, adapter: Adapter, payload: AgentInput)

  datatype Execution = Execution(taskId: string, output: AgentOutput, attempts: seq<Attempt>)

  /** The output of one attempt; an exception becomes a failed output. */
  function OutputAt(p: Prepared, number: nat): AgentOutput {
    match p.adapter(p.payload, number)
    case Returned(output) => output
    case Raised(message) => AgentOutput(OutputFailed, map[], [], map[], Some("Adapter error: " + message))
  }

  function AttemptAt(p: Prepared, number: nat): Attempt {
    var output := OutputAt(p, number);
    Attempt(number, output.status, output.error, output.evidence)
  }

  predicate PassesAt(p: Prepared, number: nat) {
    OutputAt(p, number).status == OutputPassed
  }

  /** `e` tries until an attempt passes or the attempts are used up. */
  ghost predicate IsExecution(p: Prepared, e: Execution) {
    && e.taskId == p.task.taskId
    && 1 <= |e.attempts| <= p.agent.maxAttempts
    && (forall i :: 0 <= i < |e.attempts| ==> e.attempts[i] == AttemptAt(p, i + 1))
    && (forall n :: 1 <= n < |e.attempts| ==> !PassesAt(p, n))
    && (PassesAt(p, |e.attempts|) || |e.attempts| == p.agent.maxAttempts)
    && e.output == OutputAt(p, |e.attempts|)
  }

  lemma {:induction false} ExecutionNoLonger(p: Prepared, a: Execution, b: Execution)
    requires IsExecution(p, a) && IsExecution(p, b)
    ensures |b.attempts| <= |a.attempts|
  {
    var stopsThere := PassesAt(p, |a.attempts|);
  }

  lemma {:induction false} ExecutionUnique(p: Prepared, a: Execution, b: Execution)
    requires IsExecution(p, a) && IsExecution(p, b)
    ensures a == b
  {
    ExecutionNoLonger(p, a, b);
    ExecutionNoLonger(p, b, a);
  }

  /** A task passes exactly when one of its allowed attempts does. */
  lemma {:induction false} PassesIffSomeAttemptPasses(p: Prepared, e: Execution)
    requires IsExecution(p, e)
    ensures e.output.status == OutputPassed <==> exists n :: 1 <= n <= p.agent.maxAttempts && PassesAt(p, n)
  {
    if PassesAt(p, |e.attempts|) {
      assert 1 <= |e.attempts| <= p.agent.maxAttempts;
    } else {
      forall n | 1 <= n <= p.agent.maxAttempts ensures !PassesAt(p, n) {}
    }
  }

  // ---------------------------------------------------------------- workers

  /** A worker in the middle of its attempts. */
  datatype Worker = Worker(prepared: Prepared, attempts: seq<Attempt>, output: Option<AgentOutput>)

  predicate Finished(w: Worker) {
    && w.output.Some?
    && (w.output.value.status == OutputPassed || |w.attempts| >= w.prepared.agent.maxAttempts)
  }

  /** One attempt of an unfinished worker. */
  function Attempted(w: Worker): Worker {
    var number := |w.attempts| + 1;
    w.(attempts := w.attempts + [AttemptAt(w.prepared, number)], output := Some(OutputAt(w.prepared, number)))
  }

  function Started(batch: seq<Prepared>): (r: seq<Worker>)
    ensures |r| == |batch| && forall i :: 0 <= i < |r| ==> r[i] == Worker(batch[i], [], None)
  {
    seq(|batch|, i requires 0 <= i < |batch| => Worker(batch[i], [], None))
  }

  /** What holds of a worker however the others are scheduled. */
  ghost predicate OnTrack(p: Prepared, w: Worker) {
    && w.prepared == p
    && |w.attempts| <= p.agent.maxAttempts
    && (forall k :: 0 <= k < |w.attempts| ==> w.attempts[k] == AttemptAt(p, k + 1))
    && (forall n :: 1 <= n < |w.attempts| ==> !PassesAt(p, n))
    && w.output == if w.attempts == [] then None else Some(OutputAt(p, |w.attempts|))
  }

  function ResultOf(w: Worker): Execution
    requires w.output.Some?
  {
    Execution(w.prepared.task.taskId, w.output.value, w.attempts)
  }

  lemma {:induction false} AttemptedOnTrack(p: Prepared, w: Worker)
    requires OnTrack(p, w) && !Finished(w) && p.agent.maxAttempts >= 1
    ensures OnTrack(p, Attempted(w)) && |Attempted(w).attempts| == |w.attempts| + 1
  {
    assert w.attempts != [] ==> !PassesAt(p, |w.attempts|);
  }

  lemma {:induction false} FinishedIsExecution(p: Prepared, w: Worker)
    requires OnTrack(p, w) && Finished(w) && p.agent.maxAttempts >= 1
    ensures IsExecution(p, ResultOf(w))
  {
  }

  /** The attempts the workers may still make. */
  function AttemptsLeft(workers: seq<Worker>): nat {
    if workers == [] then 0
    else
      var last := workers[|workers| - 1];
      var left := last.prepared.agent.maxAttempts - |last.attempts|;
      AttemptsLeft(workers[..|workers| - 1]) + if left > 0 then left else 0
  }

  lemma {:induction false} AttemptsShrink(workers: seq<Worker>, i: nat)
    requires i < |workers| && |workers[i].attempts| < workers[i].prepared.agent.maxAttempts
    ensures AttemptsLeft(workers[i := Attempted(workers[i])]) < AttemptsLeft(workers)
  {
    var n := |workers| - 1;
    var more := workers[i := Attempted(workers[i])];
    if i == n {
      assert more[..n] == workers[..n];
    } else {
      AttemptsShrink(workers[..n], i);
      assert more[..n] == workers[..n][i := Attempted(workers[i])];
    }
  }

  ghost predicate AllOnTrack(prepared: seq<Prepared>, workers: seq<Worker>) {
    && |workers| == |prepared|
    && forall i {:trigger OnTrack(prepared[i], workers[i])} :: 0 <= i < |workers| ==> OnTrack(prepared[i], workers[i])
  }

  /** One more attempt of one worker. */
  lemma {:induction false} AllStayOnTrack(prepared: seq<Prepared>, workers: seq<Worker>, i: nat)
    requires forall k :: 0 <= k < |prepared| ==> prepared[k].agent.maxAttempts >= 1
    requires AllOnTrack(prepared, workers) && i < |workers| && !Finished(workers[i])
    ensures AllOnTrack(prepared, workers[i := Attempted(workers[i])])
    ensures AttemptsLeft(workers[i := Attempted(workers[i])]) < AttemptsLeft(workers)
  {
    assert OnTrack(prepared[i], workers[i]);
    AttemptedOnTrack(prepared[i], workers[i]);
    AttemptsShrink(workers, i);
    var more := workers[i := Attempted(workers[i])];
    forall k | 0 <= k < |more| ensures OnTrack(prepared[k], more[k]) {
      assert k != i ==> OnTrack(prepared[k], workers[k]);
    }
  }

  // ---------------------------------------------------------------- choosing an agent

  datatype Scheduling = Scheduling(catalog: Catalog, profiles: Profiles)

  /** What the choice of agents depends on. */
  datatype Setting = Setting(
    agents: Agents, adapters: map<string, Adapter>, scheduling: Option<Scheduling>, maxWorkers: int)

  ghost function Everyone(s: Setting): seq<AgentSpec> {
    Listed(s.agents, Sorted(s.agents.Keys))
  }

  ghost predicate CanSelect(s: Setting, task: RuntimeTask, loads: Loads) {
    match s.scheduling
    case None => Selectable(s.agents, task)
    case Some(x) => Schedulable(x.catalog, x.profiles, loads, task, Everyone(s))
  }

  ghost predicate IsChosen(s: Setting, task: RuntimeTask, loads: Loads, agent: AgentSpec) {
    && agent.agentId in s.agents && s.agents[agent.agentId] == agent
    && match s.scheduling
       case None => IsSelected(s.agents, task, agent)
       case Some(x) => exists d :: IsBest(x.catalog, x.profiles, loads, task, Everyone(s), d) && d.agentId == agent.agentId
  }

  lemma {:induction false} ChosenExists(s: Setting, task: RuntimeTask, loads: Loads)
    requires Keyed(s.agents) && CanSelect(s, task, loads)
    ensures exists agent :: IsChosen(s, task, loads, agent)
  {
    match s.scheduling
    case None =>
      SelectionExists(s.agents, task);
      var a :| IsSelected(s.agents, task, a);
      assert IsChosen(s, task, loads, a);
    case Some(x) =>
      BestExists(x.catalog, x.profiles, loads, task, Everyone(s));
      var d :| IsBest(x.catalog, x.profiles, loads, task, Everyone(s), d);
      var a :| a in Everyone(s) && IsDecision(x.catalog, x.profiles, loads, task, a, d);
      ListedContains(s.agents, Sorted(s.agents.Keys), a);
      assert IsChosen(s, task, loads, a);
  }

  lemma {:induction false} ChosenUnique(s: Setting, task: RuntimeTask, loads: Loads, a: AgentSpec, b: AgentSpec)
    requires IsChosen(s, task, loads, a) && IsChosen(s, task, loads, b)
    ensures a == b
  {
    match s.scheduling
    case None => SelectionUnique(s.agents, task, a, b);
    case Some(x) =>
      var d :| IsBest(x.catalog, x.profiles, loads, task, Everyone(s), d) && d.agentId == a.agentId;
      var e :| IsBest(x.catalog, x.profiles, loads, task, Everyone(s), e) && e.agentId == b.agentId;
      BestUnique(x.catalog, x.profiles, loads, task, Everyone(s), d, e);
  }

  /** The one agent to choose. */
  ghost function Chosen(s: Setting, task: RuntimeTask, loads: Loads): (agent: AgentSpec)
    requires Keyed(s.agents) && CanSelect(s, task, loads)
    ensures IsChosen(s, task, loads, agent)
  {
    ChosenExists(s, task, loads);
    var agent :| IsChosen(s, task, loads, agent);
    agent
  }

  /** Why no agent can be chosen. */
  ghost function Objection(s: Setting, task: RuntimeTask, loads: Loads): SelectionError {
    match s.scheduling
    case None => FromRegistry(Refusal(s.agents, task))
    case Some(x) => FromScheduler(Complaint(x.catalog, x.profiles, loads, task, Everyone(s)))
  }

  /** How many tasks of a batch an agent has. */
  function Assigned(batch: seq<Prepared>, agentId: string): nat {
    if batch == [] then 0
    else
      var last := batch[|batch| - 1];
      Assigned(batch[..|batch| - 1], agentId) + if last.agent.agentId == agentId then 1 else 0
  }

  /** With a scheduler, no agent has more tasks of the batch than its capacity. */
  ghost predicate WithinCapacity(s: Setting, batch: seq<Prepared>) {
    s.scheduling.Some? ==>
      forall a :: Assigned(batch, a) > 0 ==> Assigned(batch, a) <= ProfileOf(s.scheduling.value.profiles, a).capacity
  }

  /** The assignments a batch makes. */
  function LoadsOf(batch: seq<Prepared>): Loads {
    if batch == [] then map[]
    else
      var before, last := LoadsOf(batch[..|batch| - 1]), batch[|batch| - 1].agent.agentId;
      before[last := LoadOf(before, last) + 1]
  }

  lemma {:induction false} LoadsMore(batch: seq<Prepared>, p: Prepared)
    ensures LoadsOf(batch + [p]) == LoadsOf(batch)[p.agent.agentId := LoadOf(LoadsOf(batch), p.agent.agentId) + 1]
  {
    assert (batch + [p])[..|batch|] == batch;
  }

  lemma {:induction false} LoadsAreCounts(batch: seq<Prepared>, agentId: string)
    ensures LoadOf(LoadsOf(batch), agentId) == Assigned(batch, agentId)
  {
    if batch != [] { LoadsAreCounts(batch[..|batch| - 1], agentId); }
  }

  /** The agent of task `i` is the one to choose given the assignments before it in the batch. */
  ghost predicate ChosenAt(s: Setting, batch: seq<Prepared>, i: nat)
    requires i < |batch|
  {
    IsChosen(s, batch[i].task, LoadsOf(batch[..i]), batch[i].agent)
  }

  /** Every task of the batch has its proper agent, and no agent too many tasks. */
  ghost predicate WellAssigned(s: Setting, batch: seq<Prepared>) {
    && WithinCapacity(s, batch)
    && forall i {:trigger ChosenAt(s, batch, i)} :: 0 <= i < |batch| ==> ChosenAt(s, batch, i)
  }

  function TaskIds(batch: seq<Prepared>): (r: seq<string>)
    ensures |r| == |batch| && forall i :: 0 <= i < |r| ==> r[i] == batch[i].task.taskId
  {
    seq(|batch|, i requires 0 <= i < |batch| => batch[i].task.taskId)
  }

  // ---------------------------------------------------------------- statuses

  /** What stays fixed during a run. */
  datatype Run = Run(runId: string, shared: Document, tasks: map<string, RuntimeTask>, g: Graph, setting: Setting)

  ghost predicate WellFormed(run: Run) {
    && run.tasks.Keys == run.g.Keys
    && Closed(run.g) && !Cyclic(run.g)
    && run.setting.maxWorkers >= 1
    && Keyed(run.setting.agents)
    && (forall id :: id in run.setting.agents ==> run.setting.agents[id].maxAttempts >= 1)
    && forall t :: t in run.tasks ==>
         run.tasks[t].taskId == t && Elements(run.tasks[t].dependsOn) == run.g[t]
  }

  predicate StopFailure(run: Run, states: States, t: string)
    requires t in run.tasks && t in states
  {
    states[t].status == Failed && run.tasks[t].failurePolicy == Stop
  }

  ghost predicate Untouched(states: States, t: string)
    requires t in states
  {
    states[t] == Initial
  }

  ghost predicate Justified(run: Run, states: States, settled: set<string>, t: string)
    requires states.Keys == run.g.Keys && t in run.g
  {
    && run.g[t] <= settled
    && (states[t].status in {Passed, Failed, Blocked})
    && (states[t].status in {Passed, Failed} ==> forall d :: d in run.g[t] && d in states ==> states[d].status == Passed)
    && (states[t].status == Blocked ==> exists d :: d in run.g[t] && d in states && states[d].status in {Failed, Blocked})
  }

  /** The tasks in `settled` have their final status, justified by their dependencies; the others are untouched. */
  ghost predicate Settled(run: Run, states: States, settled: set<string>) {
    && states.Keys == run.g.Keys
    && settled <= run.g.Keys
    && (forall t {:trigger Untouched(states, t)} :: t in run.g && t !in settled ==> Untouched(states, t))
    && forall t {:trigger Justified(run, states, settled, t)} :: t in settled ==> Justified(run, states, settled, t)
  }

  /** `stop_all` is up exactly when some settled task failed under the stop policy. */
  ghost predicate Stopped(run: Run, states: States, settled: set<string>) {
    exists t :: t in settled && t in states && t in run.tasks && StopFailure(run, states, t)
  }

  // ---------------------------------------------------------------- history

  /** One task of a batch, with what came of it. */
  datatype Dispatch = Dispatch(prepared: Prepared, execution: Execution)

  type Log = seq<seq<Dispatch>>

  function IdsOf(items: seq<Dispatch>): (r: seq<string>)
    ensures |r| == |items| && forall i :: 0 <= i < |r| ==> r[i] == items[i].prepared.task.taskId
  {
    seq(|items|, i requires 0 <= i < |items| => items[i].prepared.task.taskId)
  }

  function BatchOf(items: seq<Dispatch>): (r: seq<Prepared>)
    ensures |r| == |items| && forall i :: 0 <= i < |r| ==> r[i] == items[i].prepared
  {
    seq(|items|, i requires 0 <= i < |items| => items[i].prepared)
  }

  /** The schedule entry of a batch. */
  function BatchRecord(wave: nat, number: nat, items: seq<Dispatch>): Batch {
    Batch(wave, number, IdsOf(items), |items| > 1, |items|)
  }

  /** Every dispatched task id, batch after batch. */
  function Dispatched(log: Log): seq<string> {
    if log == [] then [] else Dispatched(log[..|log| - 1]) + IdsOf(log[|log| - 1])
  }

  /** The memory changes of a batch, in the order its results are recorded. */
  function ChangesOf(runId: string, items: seq<Dispatch>): seq<Change> {
    if items == [] then []
    else
      var last := items[|items| - 1];
      var updates := last.execution.output.memoryUpdates;
      ChangesOf(runId, items[..|items| - 1]) +
      if updates == map[] then []
      else [Change(last.prepared.agent.agentId, Entry(runId, last.prepared.task.taskId, updates))]
  }

  function Changes(runId: string, log: Log): seq<Change> {
    if log == [] then [] else Changes(runId, log[..|log| - 1]) + ChangesOf(runId, log[|log| - 1])
  }

  function Handoffs(task: RuntimeTask, states: States): map<string, Document> {
    map d | d in task.dependsOn && d in states :: states[d].result
  }

  /** The payload an agent gets: merged context, its memory file as it is, its dependencies' results. */
  function PayloadFor(run: Run, task: RuntimeTask, agent: AgentSpec, files: Files, states: States): AgentInput {
    AgentInput(run.runId, task, agent, run.shared + task.context, Loaded(files, agent.agentId).data, Handoffs(task, states))
  }

  function StatusOf(output: AgentOutput): Status {
    if output.status == OutputPassed then Passed else Failed
  }

  function ErrorOf(output: AgentOutput): Option<TaskError> {
    if output.error.Some? then Some(Reported(output.error.value)) else None
  }

  /** The state recorded for a dispatched task. */
  function Recorded(item: Dispatch, wave: nat): TaskState {
    var output := item.execution.output;
    TaskState(StatusOf(output), item.execution.attempts, output.result, ErrorOf(output), output.evidence, [],
              Some(item.prepared.agent.agentId), Some(wave))
  }

  /** A dispatched task ran on the payload its batch called for, and its state is what came of it. */
  ghost predicate Faithful(run: Run, states: States, files: Files, wave: nat, item: Dispatch) {
    var p := item.prepared;
    var t := p.task.taskId;
    && t in run.tasks && run.tasks[t] == p.task
    && p.agent.agentId in run.setting.agents && run.setting.agents[p.agent.agentId] == p.agent
    && p.agent.adapter in run.setting.adapters && p.adapter == run.setting.adapters[p.agent.adapter]
    && p.payload == PayloadFor(run, p.task, p.agent, files, states)
    && IsExecution(p, item.execution)
    && t in states && states[t] == Recorded(item, wave)
  }

  /** One batch: its size, its capacity, its wave, its memory snapshot, and each of its tasks. */
  ghost predicate BatchFaithful(run: Run, states: States, files: Files, batch: Batch, number: nat, items: seq<Dispatch>) {
    && 1 <= |items| <= run.setting.maxWorkers
    && batch == BatchRecord(batch.wave, number, items)
    && Elements(IdsOf(items)) <= Wave(run.g, batch.wave)
    && WellAssigned(run.setting, BatchOf(items))
    && forall i :: 0 <= i < |items| ==> Faithful(run, states, files, batch.wave, items[i])
  }

  /** Batch `b` of the log was dispatched on the memory its predecessors left. */
  ghost predicate BatchAt(run: Run, states: States, files0: Files, schedule: seq<Batch>, log: Log, b: nat)
    requires b < |log| == |schedule|
  {
    BatchFaithful(run, states, AppliedAll(files0, Changes(run.runId, log[..b])), schedule[b], b + 1, log[b])
  }

  /** The dependencies a task is blocked by, as listed. */
  function NotPassed(states: States, dependencies: seq<string>): seq<string> {
    if dependencies == [] then []
    else
      var last := dependencies[|dependencies| - 1];
      NotPassed(states, dependencies[..|dependencies| - 1]) +
      if last in states && states[last].status == Passed then [] else [last]
  }

  /** A task settled without being dispatched. */
  ghost predicate SettledAside(run: Run, states: States, t: string)
    requires t in states && t in run.tasks
  {
    && states[t].attempts == []
    && states[t].status in {Failed, Blocked}
    && (states[t].status == Blocked ==> states[t].blockedBy == NotPassed(states, run.tasks[t].dependsOn))
  }

  /** The schedule of a run against its log. */
  ghost predicate History(run: Run, states: States, settled: set<string>, files0: Files, schedule: seq<Batch>, log: Log) {
    && |schedule| == |log|
    && NoDuplicates(Dispatched(log))
    && Elements(Dispatched(log)) <= settled
    && (forall b {:trigger BatchAt(run, states, files0, schedule, log, b)} ::
          0 <= b < |log| ==> BatchAt(run, states, files0, schedule, log, b))
    && forall t {:trigger SettledAside(run, states, t)} ::
         t in settled && t !in Dispatched(log) && t in states && t in run.tasks ==> SettledAside(run, states, t)
  }

  // ---------------------------------------------------------------- how the history grows

  /** States that agree on what is settled. */
  ghost predicate AgreeOn(a: States, b: States, settled: set<string>) {
    a.Keys == b.Keys && forall t :: t in settled && t in a ==> a[t] == b[t]
  }

  lemma {:induction false} NotPassedKept(a: States, b: States, dependencies: seq<string>)
    requires AgreeOn(a, b, Elements(dependencies))
    ensures NotPassed(a, dependencies) == NotPassed(b, dependencies)
  {
    if dependencies != [] {
      var init, last := dependencies[..|dependencies| - 1], dependencies[|dependencies| - 1];
      assert dependencies == init + [last];
      assert last in Elements(dependencies);
      NotPassedKept(a, b, init);
    }
  }

  lemma {:induction false} NotPassedMembers(states: States, dependencies: seq<string>)
    ensures forall d :: d in NotPassed(states, dependencies) <==>
      d in dependencies && !(d in states && states[d].status == Passed)
  {
    if dependencies != [] {
      NotPassedMembers(states, dependencies[..|dependencies| - 1]);
      assert dependencies == dependencies[..|dependencies| - 1] + [dependencies[|dependencies| - 1]];
    }
  }

  lemma {:induction false} DispatchedMembers(log: Log, b: nat, i: nat)
    requires b < |log| && i < |log[b]|
    ensures log[b][i].prepared.task.taskId in Dispatched(log)
  {
    var init := log[..|log| - 1];
    if b < |log| - 1 {
      DispatchedMembers(init, b, i);
    } else {
      assert IdsOf(log[b])[i] == log[b][i].prepared.task.taskId;
    }
  }

  lemma {:induction false} HandoffsKept(run: Run, a: States, b: States, settled: set<string>, t: string)
    requires WellFormed(run) && AgreeOn(a, b, settled) && t in run.tasks && run.g[t] <= settled
    ensures Handoffs(run.tasks[t], a) == Handoffs(run.tasks[t], b)
  {
    forall d | d in run.tasks[t].dependsOn ensures d in settled { assert d in Elements(run.tasks[t].dependsOn); }
  }

  lemma {:induction false} FaithfulKept(run: Run, a: States, b: States, settled: set<string>, files: Files, wave: nat, item: Dispatch)
    requires WellFormed(run) && AgreeOn(a, b, settled)
    requires Faithful(run, a, files, wave, item) && item.prepared.task.taskId in settled
    requires run.g[item.prepared.task.taskId] <= settled
    ensures Faithful(run, b, files, wave, item)
  {
    HandoffsKept(run, a, b, settled, item.prepared.task.taskId);
  }

  lemma {:induction false} BatchKept(run: Run, a: States, b: States, settled: set<string>, files0: Files, schedule: seq<Batch>,
                  log: Log, n: nat)
    requires WellFormed(run) && AgreeOn(a, b, settled) && Settled(run, a, settled)
    requires History(run, a, settled, files0, schedule, log) && n < |log|
    ensures BatchAt(run, b, files0, schedule, log, n)
  {
    assert BatchAt(run, a, files0, schedule, log, n);
    var files := AppliedAll(files0, Changes(run.runId, log[..n]));
    forall i | 0 <= i < |log[n]| ensures Faithful(run, b, files, schedule[n].wave, log[n][i]) {
      DispatchedMembers(log, n, i);
      var t := log[n][i].prepared.task.taskId;
      assert t in Elements(Dispatched(log));
      assert Justified(run, a, settled, t);
      FaithfulKept(run, a, b, settled, files, schedule[n].wave, log[n][i]);
    }
  }

  /** History survives new states and newly settled tasks, as long as what was settled stays. */
  lemma {:induction false} HistoryKept(run: Run, a: States, b: States, settled: set<string>, aside: set<string>, files0: Files,
                    schedule: seq<Batch>, log: Log)
    requires WellFormed(run) && AgreeOn(a, b, settled) && Settled(run, a, settled)
    requires History(run, a, settled, files0, schedule, log)
    requires aside !! settled && forall t :: t in aside ==> t in b && t in run.tasks && SettledAside(run, b, t)
    ensures History(run, b, settled + aside, files0, schedule, log)
  {
    forall n | 0 <= n < |log| ensures BatchAt(run, b, files0, schedule, log, n) {
      BatchKept(run, a, b, settled, files0, schedule, log, n);
    }
    forall t | t in settled && t !in Dispatched(log) && t in run.tasks ensures SettledAside(run, b, t) {
      assert Justified(run, a, settled, t) && SettledAside(run, a, t);
      NotPassedKept(a, b, run.tasks[t].dependsOn);
    }
  }

  /** A recorded batch extends the history. */
  lemma {:induction false} HistoryBatch(run: Run, states: States, settled: set<string>, files0: Files, schedule: seq<Batch>, log: Log,
                     batch: Batch, items: seq<Dispatch>)
    requires History(run, states, settled, files0, schedule, log)
    requires NoDuplicates(IdsOf(items)) && Elements(IdsOf(items)) !! settled
    requires BatchFaithful(run, states, AppliedAll(files0, Changes(run.runId, log)), batch, |log| + 1, items)
    ensures History(run, states, settled + Elements(IdsOf(items)), files0, schedule + [batch], log + [items])
  {
    var log2, schedule2 := log + [items], schedule + [batch];
    assert log2[..|log|] == log;
    var ids, more := Dispatched(log), IdsOf(items);
    assert Dispatched(log2) == ids + more;
    NoDuplicatesConcat(ids, more);
    forall n | 0 <= n < |log2| ensures BatchAt(run, states, files0, schedule2, log2, n) {
      if n < |log| {
        assert BatchAt(run, states, files0, schedule, log, n);
        assert log2[..n] == log[..n];
      }
    }
    assert forall t :: t in Elements(more) ==> t in Dispatched(log2);
    forall t | t in settled && t !in Dispatched(log2) && t in states && t in run.tasks ensures SettledAside(run, states, t) {
      assert t !in Dispatched(log);
    }
  }

  // ---------------------------------------------------------------- how statuses settle

  /** Tasks whose dependencies all passed may settle as passed or failed. */
  lemma {:induction false} SettleRan(run: Run, a: States, b: States, settled: set<string>, ran: set<string>)
    requires WellFormed(run) && Settled(run, a, settled)
    requires a.Keys == b.Keys && ran !! settled && ran <= run.g.Keys
    requires forall t :: t in run.g && t !in ran ==> a[t] == b[t]
    requires forall t :: t in ran ==>
      b[t].status in {Passed, Failed} && run.g[t] <= settled && forall d :: d in run.g[t] && d in a ==> a[d].status == Passed
    ensures Settled(run, b, settled + ran)
  {
    forall t | t in settled + ran ensures Justified(run, b, settled + ran, t) {
      if t in settled {
        assert Justified(run, a, settled, t);
        assert forall d :: d in run.g[t] ==> a[d] == b[d];
      }
    }
    forall t | t in run.g && t !in settled + ran ensures Untouched(b, t) { assert Untouched(a, t); }
  }

  lemma {:induction false} SettleBlocked(run: Run, a: States, settled: set<string>, t: string, s: TaskState)
    requires WellFormed(run) && Settled(run, a, settled) && t in run.g && t !in settled && run.g[t] <= settled
    requires s.status == Blocked && exists d :: d in run.g[t] && d in a && a[d].status != Passed
    ensures Settled(run, a[t := s], settled + {t})
  {
    var b := a[t := s];
    assert b.Keys == a.Keys;
    forall u | u in settled + {t} ensures Justified(run, b, settled + {t}, u) {
      if u in settled {
        assert Justified(run, a, settled, u);
        assert forall d :: d in run.g[u] ==> a[d] == b[d];
        if a[u].status == Blocked {
          var d :| d in run.g[u] && d in a && a[d].status in {Failed, Blocked};
          assert b[d].status in {Failed, Blocked};
        }
      } else {
        var d :| d in run.g[t] && d in a && a[d].status != Passed;
        assert Justified(run, a, settled, d);
        assert d in b && b[d].status in {Failed, Blocked};
      }
    }
    forall u | u in run.g && u !in settled + {t} ensures Untouched(b, u) { assert Untouched(a, u); }
  }

  /** The task is still pending and all its dependencies have passed. */
  ghost predicate Runnable(run: Run, states: States, settled: set<string>, t: string) {
    && t in run.g && run.g[t] <= settled
    && forall d :: d in run.g[t] && d in states ==> states[d].status == Passed
  }

  ghost predicate AllRunnable(run: Run, states: States, settled: set<string>, ids: seq<string>) {
    forall t {:trigger Runnable(run, states, settled, t)} :: t in ids ==> Runnable(run, states, settled, t)
  }

  lemma {:induction false} RunnableAdded(run: Run, states: States, settled: set<string>, ids: seq<string>, t: string)
    requires AllRunnable(run, states, settled, ids)
    ensures Runnable(run, states, settled, t) ==> AllRunnable(run, states, settled, ids + [t])
  {
  }

  lemma {:induction false} RunnableKept(run: Run, a: States, b: States, settled: set<string>, more: set<string>, ids: seq<string>)
    requires AgreeOn(a, b, settled)
    requires AllRunnable(run, a, settled, ids)
    ensures AllRunnable(run, b, settled + more, ids)
  {
    forall t | t in ids ensures Runnable(run, b, settled + more, t) {
      assert Runnable(run, a, settled, t);
    }
  }

  /** Settling more tasks stops the run when one of them failed under the stop policy. */
  lemma {:induction false} StoppedGrows(run: Run, a: States, b: States, settled: set<string>, more: set<string>)
    requires AgreeOn(a, b, settled) && more !! settled && settled + more <= a.Keys && a.Keys == run.tasks.Keys
    ensures Stopped(run, b, settled + more)
      <==> Stopped(run, a, settled) || exists t :: t in more && t in b && StopFailure(run, b, t)
  {
    if t :| t in more && t in b && StopFailure(run, b, t) {
      assert t in settled + more;
    }
    if Stopped(run, a, settled) {
      var t :| t in settled && t in a && t in run.tasks && StopFailure(run, a, t);
      assert t in settled + more && StopFailure(run, b, t);
    }
    if Stopped(run, b, settled + more) {
      var t :| t in settled + more && t in b && t in run.tasks && StopFailure(run, b, t);
      assert t in settled ==> StopFailure(run, a, t);
    }
  }

  /** What a run keeps between tasks. */
  ghost predicate Kept(run: Run, states: States, settled: set<string>, files0: Files, schedule: seq<Batch>, log: Log) {
    && WellFormed(run)
    && Settled(run, states, settled)
    && History(run, states, settled, files0, schedule, log)
  }

  lemma {:induction false} FailAside(run: Run, a: States, settled: set<string>, files0: Files, schedule: seq<Batch>, log: Log,
                  t: string, s: TaskState)
    requires Kept(run, a, settled, files0, schedule, log)
    requires t !in settled && Runnable(run, a, settled, t)
    requires s.status == Failed && s.attempts == []
    ensures Kept(run, a[t := s], settled + {t}, files0, schedule, log)
    ensures Stopped(run, a[t := s], settled + {t})
      <==> Stopped(run, a, settled) || run.tasks[t].failurePolicy == Stop
  {
    var b := a[t := s];
    assert b.Keys == a.Keys;
    SettleRan(run, a, b, settled, {t});
    HistoryKept(run, a, b, settled, {t}, files0, schedule, log);
    StoppedGrows(run, a, b, settled, {t});
    assert t in {t};
  }

  lemma {:induction false} BlockAside(run: Run, a: States, settled: set<string>, files0: Files, schedule: seq<Batch>, log: Log,
                   t: string, s: TaskState)
    requires Kept(run, a, settled, files0, schedule, log)
    requires t in run.g && t !in settled && run.g[t] <= settled
    requires NotPassed(a, run.tasks[t].dependsOn) != []
    requires s == Initial.(status := Blocked, blockedBy := NotPassed(a, run.tasks[t].dependsOn))
    ensures Kept(run, a[t := s], settled + {t}, files0, schedule, log)
    ensures Stopped(run, a[t := s], settled + {t}) <==> Stopped(run, a, settled)
  {
    var b, list := a[t := s], run.tasks[t].dependsOn;
    assert b.Keys == a.Keys;
    var d := NotPassed(a, list)[0];
    NotPassedMembers(a, list);
    assert d in NotPassed(a, list) && d in Elements(list);
    SettleBlocked(run, a, settled, t, s);
    NotPassedKept(a, b, list);
    HistoryKept(run, a, b, settled, {t}, files0, schedule, log);
    StoppedGrows(run, a, b, settled, {t});
  }

  lemma {:induction false} RunnableIfAllPassed(run: Run, a: States, settled: set<string>, t: string)
    requires WellFormed(run) && a.Keys == run.g.Keys && t in run.g && run.g[t] <= settled
    ensures NotPassed(a, run.tasks[t].dependsOn) == [] ==> Runnable(run, a, settled, t)
  {
    var list := run.tasks[t].dependsOn;
    NotPassedMembers(a, list);
    if NotPassed(a, list) == [] {
      forall d | d in run.g[t] ensures a[d].status == Passed { assert d in Elements(list); }
    }
  }

  /** `all` beyond `done` is divided into the eligible tasks and those settled already. */
  ghost predicate Divided(done: set<string>, all: set<string>, eligible: seq<string>, settled: set<string>) {
    && done <= settled
    && NoDuplicates(eligible)
    && Elements(eligible) !! settled
    && settled + Elements(eligible) == all
  }

  lemma {:induction false} DivideStep(done: set<string>, wave: seq<string>, i: nat, eligible: seq<string>, settled: set<string>)
    requires i < |wave| && NoDuplicates(wave) && Elements(wave) !! done
    requires Divided(done, done + Elements(wave[..i]), eligible, settled)
    ensures wave[i] in Elements(wave) && wave[i] !in settled
    ensures Divided(done, done + Elements(wave[..i + 1]), eligible, settled + {wave[i]})
    ensures Divided(done, done + Elements(wave[..i + 1]), eligible + [wave[i]], settled)
  {
    var t := wave[i];
    assert wave[..i + 1] == wave[..i] + [t];
    Appended(wave[..i], t);
    Appended(eligible, t);
    assert t in Elements(wave);
  }

  /** A wave starts after what is done, and its tasks depend on that only. */
  lemma {:induction false} WaveIsOpen(g: Graph, w: nat)
    ensures Wave(g, w) !! Done(g, w) && Done(g, w) + Wave(g, w) == Done(g, w + 1)
    ensures forall t :: t in Wave(g, w) ==> t in g && g[t] <= Done(g, w)
  {
    DoneGrows(g, w, w + 1);
  }

  // ---------------------------------------------------------------- preparing a batch

  /** A prepared task carries its registered agent and adapter, and the payload called for. */
  ghost predicate IsPrepared(run: Run, states: States, files: Files, p: Prepared) {
    && p.task.taskId in run.tasks && run.tasks[p.task.taskId] == p.task
    && p.agent.agentId in run.setting.agents && run.setting.agents[p.agent.agentId] == p.agent
    && p.agent.adapter in run.setting.adapters && p.adapter == run.setting.adapters[p.agent.adapter]
    && p.payload == PayloadFor(run, p.task, p.agent, files, states)
  }

  ghost predicate AllPrepared(run: Run, states: States, files: Files, batch: seq<Prepared>) {
    forall i {:trigger IsPrepared(run, states, files, batch[i])} ::
      0 <= i < |batch| ==> IsPrepared(run, states, files, batch[i])
  }

  lemma {:induction false} PreparedKept(run: Run, a: States, b: States, settled: set<string>, files: Files, batch: seq<Prepared>)
    requires WellFormed(run) && AgreeOn(a, b, settled) && AllPrepared(run, a, files, batch)
    requires forall i :: 0 <= i < |batch| ==> batch[i].task.taskId in run.g && run.g[batch[i].task.taskId] <= settled
    ensures AllPrepared(run, b, files, batch)
  {
    forall i | 0 <= i < |batch| ensures IsPrepared(run, b, files, batch[i]) {
      assert IsPrepared(run, a, files, batch[i]);
      HandoffsKept(run, a, b, settled, batch[i].task.taskId);
    }
  }

  /** Each task seen so far is prepared, deferred or failed, once. */
  ghost predicate Portioned(seen: seq<string>, prepared: seq<Prepared>, deferred: seq<string>, failed: set<string>) {
    multiset(seen) == multiset(TaskIds(prepared)) + multiset(deferred) + multiset(failed)
  }

  lemma {:induction false} PortionPrepared(seen: seq<string>, prepared: seq<Prepared>, deferred: seq<string>, failed: set<string>, p: Prepared)
    requires Portioned(seen, prepared, deferred, failed)
    ensures Portioned(seen + [p.task.taskId], prepared + [p], deferred, failed)
  {
    assert TaskIds(prepared + [p]) == TaskIds(prepared) + [p.task.taskId];
  }

  lemma {:induction false} PortionDeferred(seen: seq<string>, prepared: seq<Prepared>, deferred: seq<string>, failed: set<string>, rest: seq<string>)
    requires Portioned(seen, prepared, deferred, failed)
    ensures Portioned(seen + rest, prepared, deferred + rest, failed)
  {
    assert multiset(seen + rest) == multiset(seen) + multiset(rest);
    assert multiset(deferred + rest) == multiset(deferred) + multiset(rest);
  }

  lemma {:induction false} PortionFailed(seen: seq<string>, prepared: seq<Prepared>, deferred: seq<string>, failed: set<string>, t: string)
    requires Portioned(seen, prepared, deferred, failed) && t !in failed
    ensures Portioned(seen + [t], prepared, deferred, failed + {t})
  {
    assert multiset(failed + {t}) == multiset(failed) + multiset{t};
  }

  lemma {:induction false} NextIsFresh(remaining: seq<string>, i: nat, prepared: seq<Prepared>, deferred: seq<string>, failed: set<string>)
    requires i < |remaining| && NoDuplicates(remaining) && Portioned(remaining[..i], prepared, deferred, failed)
    ensures remaining[i] !in failed && remaining[..i] + [remaining[i]] == remaining[..i + 1]
  {
    assert remaining[i] !in multiset(remaining[..i]);
  }

  lemma {:induction false} AssignOne(s: Setting, batch: seq<Prepared>, p: Prepared)
    requires WellAssigned(s, batch) && IsChosen(s, p.task, LoadsOf(batch), p.agent)
    requires s.scheduling.Some? ==> BelowCapacity(s.scheduling.value.profiles, LoadsOf(batch), p.agent.agentId)
    ensures WellAssigned(s, batch + [p])
  {
    var all := batch + [p];
    assert all[..|batch|] == batch;
    if s.scheduling.Some? {
      forall a | Assigned(all, a) > 0 ensures Assigned(all, a) <= ProfileOf(s.scheduling.value.profiles, a).capacity {
        LoadsAreCounts(batch, a);
      }
    }
    forall i | 0 <= i < |all| ensures ChosenAt(s, all, i) {
      if i < |batch| {
        assert ChosenAt(s, batch, i);
        assert all[..i] == batch[..i];
      }
    }
  }

  /** The dispatch loop's variables; `next` is the task to look at. */
  datatype Fill = Fill(
    states: States, prepared: seq<Prepared>, deferred: seq<string>, loads: Loads, next: nat, stop: bool)

  /** What the dispatch loop keeps: `failed` is what it has failed on the way. */
  ghost predicate Filling(run: Run, base: States, settled: set<string>, failed: set<string>, files: Files,
                          remaining: seq<string>, f: Fill) {
    && WellFormed(run)
    && f.next <= |remaining|
    && NoDuplicates(remaining)
    && failed !! settled && Elements(remaining) !! settled
    && Portioned(remaining[..f.next], f.prepared, f.deferred, failed)
    && AgreeOn(base, f.states, settled)
    && AllRunnable(run, f.states, settled + failed, remaining)
    && AllPrepared(run, f.states, files, f.prepared)
    && (f.next < |remaining| ==> |f.prepared| < run.setting.maxWorkers)
    && |f.prepared| <= run.setting.maxWorkers
    && WellAssigned(run.setting, f.prepared)
    && f.loads == LoadsOf(f.prepared)
    && (f.prepared == [] ==> f.deferred == [])
    && (f.stop <==> Stopped(run, f.states, settled + failed))
  }

  lemma {:induction false} NextIsOpen(run: Run, base: States, settled: set<string>, failed: set<string>, files: Files,
                   remaining: seq<string>, f: Fill)
    requires f.next < |remaining| && Filling(run, base, settled, failed, files, remaining, f)
    ensures remaining[f.next] !in settled + failed && Runnable(run, f.states, settled + failed, remaining[f.next])
  {
    assert remaining[f.next] in Elements(remaining);
    NextIsFresh(remaining, f.next, f.prepared, f.deferred, failed);
  }

  lemma {:induction false} PortionMember(remaining: seq<string>, i: nat, prepared: seq<Prepared>, deferred: seq<string>, failed: set<string>,
                      k: nat)
    requires i <= |remaining| && Portioned(remaining[..i], prepared, deferred, failed) && k < |prepared|
    ensures prepared[k].task.taskId in remaining
  {
    assert TaskIds(prepared)[k] in multiset(TaskIds(prepared));
    assert TaskIds(prepared)[k] in multiset(remaining[..i]);
  }

  lemma {:induction false} FillFailed(run: Run, base: States, settled: set<string>, failed: set<string>, files: Files,
                   remaining: seq<string>, f: Fill, g: Fill)
    requires f.next < |remaining| && Filling(run, base, settled, failed, files, remaining, f)
    requires g == f.(states := g.states, next := f.next + 1, stop := g.stop)
    requires AgreeOn(f.states, g.states, settled + failed)
    requires g.stop <==> Stopped(run, g.states, settled + failed + {remaining[f.next]})
    ensures settled + (failed + {remaining[f.next]}) == settled + failed + {remaining[f.next]}
    ensures Filling(run, base, settled, failed + {remaining[f.next]}, files, remaining, g)
  {
    var t := remaining[f.next];
    assert t in Elements(remaining);
    NextIsFresh(remaining, f.next, f.prepared, f.deferred, failed);
    PortionFailed(remaining[..f.next], f.prepared, f.deferred, failed, t);
    RunnableKept(run, f.states, g.states, settled + failed, {t}, remaining);
    assert settled + (failed + {t}) == settled + failed + {t};
    forall k | 0 <= k < |f.prepared|
      ensures f.prepared[k].task.taskId in run.g && run.g[f.prepared[k].task.taskId] <= settled + failed
    {
      PortionMember(remaining, f.next, f.prepared, f.deferred, failed, k);
      assert Runnable(run, f.states, settled + failed, f.prepared[k].task.taskId);
    }
    PreparedKept(run, f.states, g.states, settled + failed, files, f.prepared);
  }

  lemma {:induction false} FillDeferred(run: Run, base: States, settled: set<string>, failed: set<string>, files: Files,
                     remaining: seq<string>, f: Fill)
    requires f.next < |remaining| && Filling(run, base, settled, failed, files, remaining, f) && f.loads != map[]
    ensures Filling(run, base, settled, failed, files, remaining,
                    f.(deferred := f.deferred + [remaining[f.next]], next := f.next + 1))
  {
    NextIsFresh(remaining, f.next, f.prepared, f.deferred, failed);
    PortionDeferred(remaining[..f.next], f.prepared, f.deferred, failed, [remaining[f.next]]);
  }

  lemma {:induction false} PreparedAdded(run: Run, states: States, files: Files, batch: seq<Prepared>, p: Prepared)
    requires AllPrepared(run, states, files, batch) && IsPrepared(run, states, files, p)
    ensures AllPrepared(run, states, files, batch + [p])
  {
    forall k | 0 <= k < |batch + [p]| ensures IsPrepared(run, states, files, (batch + [p])[k]) {
      if k < |batch| { assert IsPrepared(run, states, files, batch[k]); }
    }
  }

  /** The loop's variables with one more task prepared; a full batch defers the rest. */
  function WithPrepared(f: Fill, p: Prepared, maxWorkers: int, remaining: seq<string>): Fill
    requires f.next < |remaining|
  {
    var full := |f.prepared| + 1 >= maxWorkers;
    Fill(f.states, f.prepared + [p],
         if full then f.deferred + remaining[f.next + 1..] else f.deferred,
         f.loads[p.agent.agentId := LoadOf(f.loads, p.agent.agentId) + 1],
         if full then |remaining| else f.next + 1,
         f.stop)
  }

  lemma {:induction false} PortionWithPrepared(f: Fill, p: Prepared, maxWorkers: int, remaining: seq<string>, failed: set<string>)
    requires f.next < |remaining| && NoDuplicates(remaining) && p.task.taskId == remaining[f.next]
    requires Portioned(remaining[..f.next], f.prepared, f.deferred, failed)
    ensures var g := WithPrepared(f, p, maxWorkers, remaining);
      g.next <= |remaining| && Portioned(remaining[..g.next], g.prepared, g.deferred, failed)
  {
    NextIsFresh(remaining, f.next, f.prepared, f.deferred, failed);
    PortionPrepared(remaining[..f.next], f.prepared, f.deferred, failed, p);
    PortionDeferred(remaining[..f.next + 1], f.prepared + [p], f.deferred, failed, remaining[f.next + 1..]);
    assert remaining[..f.next + 1] + remaining[f.next + 1..] == remaining == remaining[..|remaining|];
  }

  lemma {:induction false} FillPrepared(run: Run, base: States, settled: set<string>, failed: set<string>, files: Files,
                     remaining: seq<string>, f: Fill, p: Prepared)
    requires f.next < |remaining| && Filling(run, base, settled, failed, files, remaining, f)
    requires IsPrepared(run, f.states, files, p) && p.task.taskId == remaining[f.next]
    requires IsChosen(run.setting, p.task, f.loads, p.agent)
    requires run.setting.scheduling.Some? ==>
      BelowCapacity(run.setting.scheduling.value.profiles, f.loads, p.agent.agentId)
    ensures Filling(run, base, settled, failed, files, remaining, WithPrepared(f, p, run.setting.maxWorkers, remaining))
  {
    PortionWithPrepared(f, p, run.setting.maxWorkers, remaining, failed);
    AssignOne(run.setting, f.prepared, p);
    LoadsMore(f.prepared, p);
    PreparedAdded(run, f.states, files, f.prepared, p);
  }

  // ---------------------------------------------------------------- recording a batch

  /** A full look at the remaining tasks divides them. */
  lemma {:induction false} PortionDivides(remaining: seq<string>, prepared: seq<Prepared>, deferred: seq<string>, failed: set<string>)
    requires NoDuplicates(remaining) && Portioned(remaining, prepared, deferred, failed)
    ensures NoDuplicates(TaskIds(prepared)) && NoDuplicates(deferred)
    ensures Elements(remaining) == Elements(TaskIds(prepared)) + Elements(deferred) + failed
    ensures Elements(TaskIds(prepared)) !! Elements(deferred) !! failed
    ensures |remaining| == |prepared| + |deferred| + |failed|
  {
    var ids := TaskIds(prepared);
    NoDuplicatesCounts(remaining);
    NoDuplicatesCounts(ids);
    NoDuplicatesCounts(deferred);
    forall x
      ensures x in remaining <==> x in multiset(remaining)
      ensures multiset(remaining)[x] == multiset(ids)[x] + multiset(deferred)[x] + multiset(failed)[x]
    {
    }
    assert |multiset(remaining)| == |multiset(ids)| + |multiset(deferred)| + |multiset(failed)|;
  }

  function Dispatches(prepared: seq<Prepared>, executions: seq<Execution>): (r: seq<Dispatch>)
    requires |prepared| == |executions|
    ensures |r| == |prepared| && forall i :: 0 <= i < |r| ==> r[i] == Dispatch(prepared[i], executions[i])
  {
    seq(|prepared|, i requires 0 <= i < |prepared| => Dispatch(prepared[i], executions[i]))
  }

  /** `after` holds the recorded results of the batch and is `before` elsewhere. */
  ghost predicate ResultsRecorded(before: States, after: States, items: seq<Dispatch>, wave: nat) {
    && after.Keys == before.Keys
    && (forall t :: t in before && t !in IdsOf(items) ==> after[t] == before[t])
    && forall i :: 0 <= i < |items| ==>
         IdsOf(items)[i] in after && after[IdsOf(items)[i]] == Recorded(items[i], wave)
  }

  /** A batch that can be recorded: prepared on the present state and memory, executed, and within bounds. */
  ghost predicate Recordable(run: Run, states: States, settled: set<string>, files: Files, items: seq<Dispatch>, wave: nat) {
    && 1 <= |items| <= run.setting.maxWorkers
    && NoDuplicates(IdsOf(items)) && Elements(IdsOf(items)) !! settled
    && Elements(IdsOf(items)) <= Wave(run.g, wave)
    && AllRunnable(run, states, settled, IdsOf(items))
    && AllPrepared(run, states, files, BatchOf(items))
    && WellAssigned(run.setting, BatchOf(items))
    && forall i :: 0 <= i < |items| ==> IsExecution(items[i].prepared, items[i].execution)
  }

  lemma {:induction false} ItemIsFaithful(run: Run, a: States, b: States, settled: set<string>, files: Files, items: seq<Dispatch>,
                                          wave: nat, i: nat)
    requires WellFormed(run) && a.Keys == run.g.Keys && i < |items|
    requires Recordable(run, a, settled, files, items, wave) && ResultsRecorded(a, b, items, wave)
    requires AgreeOn(a, b, settled)
    ensures Faithful(run, b, files, wave, items[i])
  {
    var p := items[i].prepared;
    assert BatchOf(items)[i] == p && IsPrepared(run, a, files, BatchOf(items)[i]);
    assert IdsOf(items)[i] == p.task.taskId;
    assert Runnable(run, a, settled, p.task.taskId);
    HandoffsKept(run, a, b, settled, p.task.taskId);
  }

  lemma {:induction false} BatchIsFaithful(run: Run, a: States, b: States, settled: set<string>, files: Files, items: seq<Dispatch>,
                        wave: nat, number: nat)
    requires WellFormed(run) && a.Keys == run.g.Keys
    requires Recordable(run, a, settled, files, items, wave) && ResultsRecorded(a, b, items, wave)
    requires AgreeOn(a, b, settled)
    ensures BatchFaithful(run, b, files, BatchRecord(wave, number, items), number, items)
  {
    forall i | 0 <= i < |items| ensures Faithful(run, b, files, wave, items[i]) {
      ItemIsFaithful(run, a, b, settled, files, items, wave, i);
    }
  }

  lemma {:induction false} BatchRecorded(run: Run, a: States, b: States, settled: set<string>, files0: Files, schedule: seq<Batch>, log: Log,
                      items: seq<Dispatch>, wave: nat)
    requires Kept(run, a, settled, files0, schedule, log)
    requires Recordable(run, a, settled, AppliedAll(files0, Changes(run.runId, log)), items, wave)
    requires ResultsRecorded(a, b, items, wave)
    ensures AgreeOn(a, b, settled)
    ensures Kept(run, b, settled + Elements(IdsOf(items)), files0,
                 schedule + [BatchRecord(wave, |log| + 1, items)], log + [items])
  {
    var ids := IdsOf(items);
    assert AgreeOn(a, b, settled) by {
      forall t | t in settled && t in a ensures a[t] == b[t] { assert t !in Elements(ids); }
    }
    forall t | t in Elements(ids)
      ensures b[t].status in {Passed, Failed} && run.g[t] <= settled
      ensures forall d :: d in run.g[t] && d in a ==> a[d].status == Passed
    {
      var i :| 0 <= i < |ids| && ids[i] == t;
      assert b[ids[i]] == Recorded(items[i], wave);
      assert Runnable(run, a, settled, t);
    }
    SettleRan(run, a, b, settled, Elements(ids));
    HistoryKept(run, a, b, settled, {}, files0, schedule, log);
    assert settled + {} == settled;
    BatchIsFaithful(run, a, b, settled, AppliedAll(files0, Changes(run.runId, log)), items, wave, |log| + 1);
    HistoryBatch(run, b, settled, files0, schedule, log, BatchRecord(wave, |log| + 1, items), items);
  }

  predicate Stops(item: Dispatch) {
    item.execution.output.status == OutputFailed && item.prepared.task.failurePolicy == Stop
  }

  ghost predicate AnyStops(items: seq<Dispatch>) {
    exists i {:trigger Stops(items[i])} :: 0 <= i < |items| && Stops(items[i])
  }

  lemma {:induction false} ItemStops(run: Run, a: States, b: States, settled: set<string>, files: Files, items: seq<Dispatch>, wave: nat, i: nat)
    requires WellFormed(run) && a.Keys == run.g.Keys && i < |items|
    requires Recordable(run, a, settled, files, items, wave) && ResultsRecorded(a, b, items, wave)
    ensures var id := IdsOf(items)[i];
      id in Elements(IdsOf(items)) && id in b && id in run.tasks && (StopFailure(run, b, id) <==> Stops(items[i]))
  {
    assert BatchOf(items)[i] == items[i].prepared && IsPrepared(run, a, files, BatchOf(items)[i]);
  }

  /** Recording stops the run when a task of the batch fails under the stop policy. */
  lemma {:induction false} BatchStops(run: Run, a: States, b: States, settled: set<string>, files: Files, items: seq<Dispatch>, wave: nat)
    requires WellFormed(run) && a.Keys == run.g.Keys && settled <= run.g.Keys
    requires Recordable(run, a, settled, files, items, wave) && ResultsRecorded(a, b, items, wave)
    requires AgreeOn(a, b, settled)
    ensures Stopped(run, b, settled + Elements(IdsOf(items))) <==>
      Stopped(run, a, settled) || AnyStops(items)
  {
    var ids := IdsOf(items);
    StoppedGrows(run, a, b, settled, Elements(ids));
    if t :| t in Elements(ids) && t in b && StopFailure(run, b, t) {
      var i :| 0 <= i < |ids| && ids[i] == t;
      ItemStops(run, a, b, settled, files, items, wave, i);
    }
    if i :| 0 <= i < |items| && Stops(items[i]) {
      ItemStops(run, a, b, settled, files, items, wave, i);
    }
  }

  lemma {:induction false} AnyStopsStep(items: seq<Dispatch>, i: nat)
    requires i < |items|
    ensures AnyStops(items[..i + 1]) <==> AnyStops(items[..i]) || Stops(items[i])
  {
    var some, more := items[..i], items[..i + 1];
    if AnyStops(some) {
      var k :| 0 <= k < |some| && Stops(some[k]);
      assert Stops(more[k]);
    }
    if Stops(items[i]) { assert Stops(more[i]); }
    if AnyStops(more) {
      var k :| 0 <= k < |more| && Stops(more[k]);
      if k < i { assert Stops(some[k]); }
    }
  }

  lemma {:induction false} ChangesAppend(runId: string, items: seq<Dispatch>, item: Dispatch)
    ensures ChangesOf(runId, items + [item]) == ChangesOf(runId, items) +
      if item.execution.output.memoryUpdates == map[] then []
      else [Change(item.prepared.agent.agentId, Entry(runId, item.prepared.task.taskId, item.execution.output.memoryUpdates))]
  {
    assert (items + [item])[..|items|] == items;
  }

  lemma {:induction false} LogAppend(runId: string, files: Files, log: Log, items: seq<Dispatch>)
    ensures AppliedAll(files, Changes(runId, log + [items]))
      == AppliedAll(AppliedAll(files, Changes(runId, log)), ChangesOf(runId, items))
  {
    assert (log + [items])[..|log|] == log;
    AppliedAllAppend(files, Changes(runId, log), ChangesOf(runId, items));
  }

  function Marked(s: TaskState, p: Prepared, wave: nat): TaskState {
    s.(status := Running, agentId := Some(p.agent.agentId), wave := Some(wave))
  }

  function WithResult(s: TaskState, e: Execution): TaskState {
    s.(status := StatusOf(e.output), attempts := e.attempts, result := e.output.result, error := ErrorOf(e.output),
       evidence := e.output.evidence)
  }

  function Written(states: States, item: Dispatch): States {
    var t := item.prepared.task.taskId;
    if t in states then states[t := WithResult(states[t], item.execution)] else states
  }

  function WrittenAll(states: States, items: seq<Dispatch>): States {
    if items == [] then states else Written(WrittenAll(states, items[..|items| - 1]), items[|items| - 1])
  }

  function MarkedAll(states: States, prepared: seq<Prepared>, wave: nat): States {
    if prepared == [] then states
    else
      var before, last := MarkedAll(states, prepared[..|prepared| - 1], wave), prepared[|prepared| - 1];
      var t := last.task.taskId;
      if t in before then before[t := Marked(before[t], last, wave)] else before
  }

  lemma {:induction false} OneMoreChange(files: Files, changes: seq<Change>, change: Change)
    ensures AppliedAll(files, changes + [change]) == Applied(AppliedAll(files, changes), change)
  {
    assert (changes + [change])[..|changes|] == changes;
  }

  lemma {:induction false} WrittenAppend(states: States, items: seq<Dispatch>, item: Dispatch)
    ensures WrittenAll(states, items + [item]) == Written(WrittenAll(states, items), item)
  {
    assert (items + [item])[..|items|] == items;
  }

  lemma {:induction false} ChangesSplit(runId: string, items: seq<Dispatch>, item: Dispatch)
    ensures ChangesOf(runId, items + [item]) == ChangesOf(runId, items) + ChangesOf(runId, [item])
  {
    ChangesAppend(runId, items, item);
    ChangesAppend(runId, [], item);
    assert [] + [item] == [item];
    assert ChangesOf(runId, []) == [];
  }

  lemma {:induction false} RecordStep(files: Files, states: States, runId: string, items: seq<Dispatch>, i: nat)
    requires i < |items|
    ensures WrittenAll(states, items[..i + 1]) == Written(WrittenAll(states, items[..i]), items[i])
    ensures AppliedAll(files, ChangesOf(runId, items[..i + 1]))
      == AppliedAll(AppliedAll(files, ChangesOf(runId, items[..i])), ChangesOf(runId, [items[i]]))
  {
    var item := items[i];
    assert items[..i + 1] == items[..i] + [item];
    WrittenAppend(states, items[..i], item);
    ChangesSplit(runId, items[..i], item);
    AppliedAllAppend(files, ChangesOf(runId, items[..i]), ChangesOf(runId, [item]));
  }

  lemma {:induction false} MarkedAt(states: States, prepared: seq<Prepared>, wave: nat)
    requires NoDuplicates(TaskIds(prepared)) && Elements(TaskIds(prepared)) <= states.Keys
    ensures MarkedAll(states, prepared, wave).Keys == states.Keys
    ensures forall t :: t in states && t !in TaskIds(prepared) ==> MarkedAll(states, prepared, wave)[t] == states[t]
    ensures forall i :: 0 <= i < |prepared| && TaskIds(prepared)[i] in states ==>
      MarkedAll(states, prepared, wave)[TaskIds(prepared)[i]] == Marked(states[TaskIds(prepared)[i]], prepared[i], wave)
  {
    if prepared != [] {
      var init, last := prepared[..|prepared| - 1], prepared[|prepared| - 1];
      assert TaskIds(prepared) == TaskIds(init) + [last.task.taskId];
      Appended(TaskIds(init), last.task.taskId);
      MarkedAt(states, init, wave);
    }
  }

  lemma {:induction false} WrittenAt(states: States, items: seq<Dispatch>)
    requires NoDuplicates(IdsOf(items)) && Elements(IdsOf(items)) <= states.Keys
    ensures WrittenAll(states, items).Keys == states.Keys
    ensures forall t :: t in states && t !in IdsOf(items) ==> WrittenAll(states, items)[t] == states[t]
    ensures forall i :: 0 <= i < |items| && IdsOf(items)[i] in states ==>
      WrittenAll(states, items)[IdsOf(items)[i]] == WithResult(states[IdsOf(items)[i]], items[i].execution)
  {
    if items != [] {
      var init, last := items[..|items| - 1], items[|items| - 1];
      assert IdsOf(items) == IdsOf(init) + [last.prepared.task.taskId];
      Appended(IdsOf(init), last.prepared.task.taskId);
      WrittenAt(states, init);
    }
  }

  /** Marking a batch running and recording its results leaves the recorded states, and nothing else changed. */
  lemma {:induction false} MarkedThenWritten(states: States, items: seq<Dispatch>, wave: nat)
    requires NoDuplicates(IdsOf(items)) && Elements(IdsOf(items)) <= states.Keys
    requires forall i :: 0 <= i < |items| && IdsOf(items)[i] in states ==> states[IdsOf(items)[i]] == Initial
    ensures ResultsRecorded(states, WrittenAll(MarkedAll(states, BatchOf(items), wave), items), items, wave)
  {
    assert TaskIds(BatchOf(items)) == IdsOf(items);
    MarkedAt(states, BatchOf(items), wave);
    WrittenAt(MarkedAll(states, BatchOf(items), wave), items);
    forall i | 0 <= i < |items| ensures IdsOf(items)[i] in states { assert IdsOf(items)[i] in Elements(IdsOf(items)); }
  }

  /** Between batches of a wave: what remains is runnable, and makes up the wave with what is settled. */
  ghost predicate Dispatching(run: Run, states: States, settled: set<string>, files0: Files, schedule: seq<Batch>, log: Log,
                              remaining: seq<string>, level: set<string>, stop: bool) {
    && Kept(run, states, settled, files0, schedule, log)
    && NoDuplicates(remaining)
    && Elements(remaining) !! settled && settled + Elements(remaining) == level
    && AllRunnable(run, states, settled, remaining)
    && (stop <==> Stopped(run, states, settled))
  }

  /** After a full look, the remaining tasks are divided into prepared, deferred and failed ones. */
  lemma {:induction false} FullLook(remaining: seq<string>, failed: set<string>, f: Fill)
    requires NoDuplicates(remaining) && f.next == |remaining|
    requires Portioned(remaining[..f.next], f.prepared, f.deferred, failed)
    ensures NoDuplicates(TaskIds(f.prepared)) && NoDuplicates(f.deferred)
    ensures Elements(remaining) == Elements(TaskIds(f.prepared)) + Elements(f.deferred) + failed
    ensures Elements(TaskIds(f.prepared)) !! Elements(f.deferred) !! failed
    ensures |remaining| == |f.prepared| + |f.deferred| + |failed|
  {
    assert remaining[..f.next] == remaining;
    PortionDivides(remaining, f.prepared, f.deferred, failed);
  }

  /** A look at the remaining tasks that prepared nothing: all of them failed. */
  lemma {:induction false} NothingPrepared(run: Run, states: States, settled: set<string>, failed: set<string>, files: Files,
                        files0: Files, schedule: seq<Batch>, log: Log, remaining: seq<string>, level: set<string>, f: Fill)
    requires Dispatching(run, states, settled, files0, schedule, log, remaining, level, false) && remaining != []
    requires f.next == |remaining| && Filling(run, states, settled, failed, files, remaining, f) && f.prepared == []
    requires Kept(run, f.states, settled + failed, files0, schedule, log)
    ensures f.deferred == []
    ensures Dispatching(run, f.states, settled + failed, files0, schedule, log, [], level, f.stop)
  {
    FullLook(remaining, failed, f);
    assert Elements(TaskIds(f.prepared)) == {} && Elements(f.deferred) == {};
    assert settled + failed + Elements([]) == level;
  }

  /** The batch and the deferred tasks are what is left of the remaining ones. */
  lemma {:induction false} FilledSets(remaining: seq<string>, settled: set<string>, failed: set<string>, f: Fill, items: seq<Dispatch>)
    requires NoDuplicates(remaining) && f.next == |remaining| && Elements(remaining) !! settled
    requires Portioned(remaining[..f.next], f.prepared, f.deferred, failed)
    requires BatchOf(items) == f.prepared && f.prepared != []
    ensures NoDuplicates(IdsOf(items)) && Elements(IdsOf(items)) !! settled + failed
    ensures Elements(IdsOf(items)) <= Elements(remaining)
    ensures |f.deferred| < |remaining| && NoDuplicates(f.deferred) && Elements(f.deferred) <= Elements(remaining)
    ensures Elements(f.deferred) !! settled + failed + Elements(IdsOf(items))
    ensures settled + failed + Elements(IdsOf(items)) + Elements(f.deferred) == settled + Elements(remaining)
  {
    FullLook(remaining, failed, f);
    assert |items| == |BatchOf(items)|;
    assert IdsOf(items) == TaskIds(f.prepared);
  }

  /** The prepared tasks can be recorded once executed. */
  lemma {:induction false} FilledBatch(run: Run, states: States, settled: set<string>, failed: set<string>, files: Files,
                    remaining: seq<string>, wave: nat, f: Fill, items: seq<Dispatch>)
    requires f.next == |remaining| && Filling(run, states, settled, failed, files, remaining, f) && f.prepared != []
    requires Elements(remaining) <= Wave(run.g, wave)
    requires BatchOf(items) == f.prepared && forall i :: 0 <= i < |items| ==> IsExecution(items[i].prepared, items[i].execution)
    ensures Recordable(run, f.states, settled + failed, files, items, wave)
  {
    FilledSets(remaining, settled, failed, f, items);
    assert |items| == |BatchOf(items)|;
    forall t | t in IdsOf(items) ensures Runnable(run, f.states, settled + failed, t) {
      assert t in Elements(IdsOf(items)) && t in Elements(remaining) && t in remaining;
    }
  }

  lemma {:induction false} BatchDone(run: Run, states: States, settled: set<string>, failed: set<string>, files0: Files, schedule: seq<Batch>,
                  log: Log, remaining: seq<string>, wave: nat, f: Fill, items: seq<Dispatch>, after: States)
    requires Kept(run, f.states, settled + failed, files0, schedule, log)
    requires f.next == |remaining| && f.prepared != []
    requires Filling(run, states, settled, failed, AppliedAll(files0, Changes(run.runId, log)), remaining, f)
    requires Elements(remaining) <= Wave(run.g, wave)
    requires BatchOf(items) == f.prepared && forall i :: 0 <= i < |items| ==> IsExecution(items[i].prepared, items[i].execution)
    requires after == WrittenAll(MarkedAll(f.states, f.prepared, wave), items)
    ensures Dispatching(run, after, settled + failed + Elements(IdsOf(items)), files0,
                        schedule + [BatchRecord(wave, |log| + 1, items)], log + [items],
                        f.deferred, settled + Elements(remaining),
                        f.stop || AnyStops(items))
    ensures |f.deferred| < |remaining| && Elements(f.deferred) <= Elements(remaining) && AgreeOn(states, after, settled)
  {
    var files := AppliedAll(files0, Changes(run.runId, log));
    var closed, ids := settled + failed, IdsOf(items);
    FilledSets(remaining, settled, failed, f, items);
    FilledBatch(run, states, settled, failed, files, remaining, wave, f, items);
    forall i | 0 <= i < |items| ensures ids[i] in f.states && f.states[ids[i]] == Initial {
      assert ids[i] in Elements(ids);
      assert Untouched(f.states, ids[i]);
    }
    assert Elements(ids) <= f.states.Keys;
    MarkedThenWritten(f.states, items, wave);
    BatchRecorded(run, f.states, after, closed, files0, schedule, log, items, wave);
    BatchStops(run, f.states, after, closed, files, items, wave);
    forall t | t in f.deferred ensures Runnable(run, f.states, closed, t) {
      assert t in Elements(f.deferred) && t in remaining;
    }
    RunnableKept(run, f.states, after, closed, Elements(ids), f.deferred);
  }

  lemma {:induction false} AgentsCanRun(run: Run, states: States, files: Files, batch: seq<Prepared>)
    requires WellFormed(run) && AllPrepared(run, states, files, batch)
    ensures forall i :: 0 <= i < |batch| ==> batch[i].agent.maxAttempts >= 1
  {
    forall i | 0 <= i < |batch| ensures batch[i].agent.maxAttempts >= 1 {
      assert IsPrepared(run, states, files, batch[i]);
    }
  }

  lemma {:induction false} PreparedAreKnown(run: Run, states: States, settled: set<string>, failed: set<string>, files: Files,
                         remaining: seq<string>, f: Fill)
    requires f.next == |remaining| && Filling(run, states, settled, failed, files, remaining, f)
    requires f.states.Keys == run.g.Keys
    ensures Elements(TaskIds(f.prepared)) <= f.states.Keys
  {
    forall t | t in TaskIds(f.prepared) ensures t in run.g {
      var k :| 0 <= k < |f.prepared| && TaskIds(f.prepared)[k] == t;
      assert IsPrepared(run, f.states, files, f.prepared[k]);
    }
  }

  // ---------------------------------------------------------------- the end of a run

  /** `skipped` for every task still pending. */
  function SkipPending(states: States): States {
    map t | t in states :: if states[t].status == Pending then states[t].(status := Skipped) else states[t]
  }

  predicate AllPassed(states: States) {
    forall t :: t in states ==> states[t].status == Passed
  }

  /** No settled task lies in a later wave than one that failed under the stop policy. */
  ghost predicate NothingAfterStop(run: Run, states: States, settled: set<string>) {
    forall t, u, k: nat {:trigger StopFailure(run, states, t), u in Done(run.g, k)} ::
      t in settled && t in states && t in run.tasks && StopFailure(run, states, t) && t in Done(run.g, k) && u in settled
      ==> u in Done(run.g, k)
  }

  /** The whole outcome of a run; `settled` are the tasks it got to. */
  ghost predicate Ended(run: Run, states: States, settled: set<string>, files0: Files, files: Files,
                        schedule: seq<Batch>, log: Log) {
    && WellFormed(run)
    && states.Keys == run.g.Keys && settled <= run.g.Keys
    && (forall t {:trigger Justified(run, states, settled, t)} :: t in settled ==> Justified(run, states, settled, t))
    && (forall t :: t in run.g && t !in settled ==> states[t] == Initial.(status := Skipped))
    && (settled == run.g.Keys || Stopped(run, states, settled))
    && NothingAfterStop(run, states, settled)
    && History(run, states, settled, files0, schedule, log)
    && files == AppliedAll(files0, Changes(run.runId, log))
  }

  /** The tasks that failed under the stop policy are not within the first `w` waves. */
  ghost predicate NoStopWithin(run: Run, states: States, settled: set<string>, w: nat) {
    forall t :: t in settled && t in states && t in run.tasks && StopFailure(run, states, t) ==> t !in Done(run.g, w)
  }

  lemma {:induction false} StopsAreNew(run: Run, a: States, b: States, settled: set<string>, w: nat)
    requires !Stopped(run, a, Done(run.g, w)) && AgreeOn(a, b, Done(run.g, w))
    ensures NoStopWithin(run, b, settled, w)
  {
  }

  lemma {:induction false} SkipKeepsSettled(run: Run, states: States, settled: set<string>, stop: bool)
    requires Settled(run, states, settled)
    ensures var final := if stop then SkipPending(states) else states;
      && AgreeOn(states, final, settled)
      && (forall t :: t in settled ==> Justified(run, final, settled, t))
      && (stop ==> forall t :: t in run.g && t !in settled ==> final[t] == Initial.(status := Skipped))
  {
    var final := if stop then SkipPending(states) else states;
    forall t | t in settled ensures final[t] == states[t] && run.g[t] <= settled {
      assert Justified(run, states, settled, t);
    }
    forall t | t in settled ensures Justified(run, final, settled, t) {
      assert Justified(run, states, settled, t);
    }
    if stop {
      forall t | t in run.g && t !in settled ensures final[t] == Initial.(status := Skipped) {
        assert Untouched(states, t);
      }
    }
  }

  lemma {:induction false} StopIsLast(run: Run, states: States, settled: set<string>, w: nat)
    requires NoStopWithin(run, states, settled, w) && settled <= Done(run.g, w + 1)
    ensures NothingAfterStop(run, states, settled)
  {
    forall t, u, k: nat | t in settled && t in states && t in run.tasks && StopFailure(run, states, t)
      && t in Done(run.g, k) && u in settled
      ensures u in Done(run.g, k)
    {
      if k <= w { DoneGrows(run.g, k, w); } else { DoneGrows(run.g, w + 1, k); }
    }
  }

  lemma {:induction false} StopsStay(run: Run, a: States, b: States, settled: set<string>, w: nat)
    requires AgreeOn(a, b, settled) && NoStopWithin(run, a, settled, w)
    ensures NoStopWithin(run, b, settled, w)
  {
    forall t | t in settled && t in b && t in run.tasks && StopFailure(run, b, t) ensures t !in Done(run.g, w) {
      assert StopFailure(run, a, t);
    }
  }

  lemma {:induction false} NoStopsAtAll(run: Run, states: States, settled: set<string>)
    requires !Stopped(run, states, settled)
    ensures NothingAfterStop(run, states, settled)
  {
  }

  lemma {:induction false} SkippingEnds(run: Run, states: States, settled: set<string>, files0: Files, files: Files, schedule: seq<Batch>,
                     log: Log, stop: bool, w: nat)
    requires Kept(run, states, settled, files0, schedule, log)
    requires stop <==> Stopped(run, states, settled)
    requires !stop ==> settled == run.g.Keys
    requires stop ==> settled <= Done(run.g, w + 1) && NoStopWithin(run, states, settled, w)
    requires files == AppliedAll(files0, Changes(run.runId, log))
    ensures Ended(run, if stop then SkipPending(states) else states, settled, files0, files, schedule, log)
  {
    var final := if stop then SkipPending(states) else states;
    SkipKeepsSettled(run, states, settled, stop);
    assert settled + {} == settled;
    HistoryKept(run, states, final, settled, {}, files0, schedule, log);
    StoppedGrows(run, states, final, settled, {});
    if stop {
      StopsStay(run, states, final, settled, w);
      StopIsLast(run, final, settled, w);
    } else {
      NoStopsAtAll(run, final, settled);
    }
  }

  function TaskMap(tasks: seq<RuntimeTask>): map<string, RuntimeTask> {
    if tasks == [] then map[]
    else TaskMap(tasks[..|tasks| - 1])[tasks[|tasks| - 1].taskId := tasks[|tasks| - 1]]
  }

  lemma {:induction false} TaskMapIs(tasks: seq<RuntimeTask>)
    ensures TaskMap(tasks).Keys == GraphOf(Nodes(tasks)).Keys
    ensures forall t :: t in TaskMap(tasks) ==>
      TaskMap(tasks)[t].taskId == t && Elements(TaskMap(tasks)[t].dependsOn) == GraphOf(Nodes(tasks))[t]
  {
    if tasks != [] {
      var init := tasks[..|tasks| - 1];
      assert Nodes(tasks)[..|tasks| - 1] == Nodes(init);
      TaskMapIs(init);
    }
  }

  /** After `w` waves. */
  ghost predicate BetweenWaves(run: Run, states: States, settled: set<string>, files0: Files, schedule: seq<Batch>,
                               log: Log, w: nat, stop: bool) {
    && Kept(run, states, settled, files0, schedule, log)
    && (stop <==> Stopped(run, states, settled))
    && (!stop ==> settled == Done(run.g, w))
    && (stop ==> w >= 1 && settled <= Done(run.g, w) && NoStopWithin(run, states, settled, w - 1))
  }

  /** A run between two waves, with the memory its batches so far have left. */
  ghost predicate Reached(run: Run, states: States, settled: set<string>, files0: Files, files: Files, schedule: seq<Batch>,
                          log: Log, w: nat, stop: bool) {
    BetweenWaves(run, states, settled, files0, schedule, log, w, stop) && files == AppliedAll(files0, Changes(run.runId, log))
  }

  lemma {:induction false} StartIsBetween(run: Run, states: States, files0: Files)
    requires WellFormed(run) && states.Keys == run.g.Keys && forall t :: t in states ==> states[t] == Initial
    ensures Reached(run, states, {}, files0, files0, [], [], 0, false)
  {
  }

  lemma {:induction false} NextWave(run: Run, w: nat)
    requires WellFormed(run) && w < |Waves(run.g)|
    ensures NoDuplicates(Waves(run.g)[w]) && Elements(Waves(run.g)[w]) == Wave(run.g, w)
  {
    WavesEnd(run.g, w);
    SortedHasNoDuplicates(Waves(run.g)[w]);
  }

  lemma {:induction false} WavesAreDone(run: Run, states: States, settled: set<string>, files0: Files, files: Files, schedule: seq<Batch>,
                     log: Log, w: nat, stop: bool, final: States)
    requires Reached(run, states, settled, files0, files, schedule, log, w, stop)
    requires w == |Waves(run.g)| || stop
    requires final == if stop then SkipPending(states) else states
    ensures Ended(run, final, settled, files0, files, schedule, log)
  {
    if !stop { WavesEnd(run.g, w); }
    SkippingEnds(run, states, settled, files0, files, schedule, log, stop, if stop then w - 1 else w);
  }
}
