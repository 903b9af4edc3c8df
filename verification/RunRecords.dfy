/** What a run records, told by the replies of the adapters: results, payloads and memory. */
module RunRecords {
  import opened Wrappers
  import opened Ordering
  import opened Json
  import opened ExecutionGraph
  import opened AgentContracts
  import opened AgentRegistry
  import opened AgentMemory
  import opened RuntimeModel
  import opened RunOutcome
  import opened RunProperties

  // ---------------------------------------------------------------- results

  /** What the adapter replied at attempt `n` of a dispatched task. */
  function ReplyAt(item: Dispatch, n: nat): Reply {
    item.prepared.adapter(item.prepared.payload, n)
  }

  /** The reply that decided the task. */
  function LastReply(item: Dispatch): Reply {
    ReplyAt(item, |item.execution.attempts|)
  }

  function AsReported(error: Option<string>): Option<TaskError> {
    if error.Some? then Some(Reported(error.value)) else None
  }

  /** The attempt record of a reply; an exception is a failure without evidence. */
  predicate RecordsAttempt(attempt: Attempt, number: nat, reply: Reply) {
    && attempt.number == number
    && match reply
       case Returned(output) => attempt.status == output.status && attempt.error == output.error && attempt.evidence == output.evidence
       case Raised(message) =>
         attempt.status == OutputFailed && attempt.error == Some("Adapter error: " + message) && attempt.evidence == []
  }

  /** The state of a task after its last reply. */
  predicate RecordsReply(s: TaskState, reply: Reply) {
    match reply
    case Returned(output) =>
      && s.status == (if output.status == OutputPassed then Passed else Failed)
      && s.result == output.result && s.evidence == output.evidence && s.error == AsReported(output.error)
    case Raised(message) =>
      s.status == Failed && s.result == map[] && s.evidence == [] && s.error == Some(Reported("Adapter error: " + message))
  }

  predicate Passes(reply: Reply) {
    reply.Returned? && reply.output.status == OutputPassed
  }

  /**
   The recorded state of a dispatched task is what its adapter replied: every
   attempt up to the first that passes or the last allowed one is listed,
   and result, evidence and error are those of the last reply.
   */
  lemma {:induction false} ResultsComeFromReplies(run: Run, states: States, settled: set<string>, files0: Files, files: Files,
                                                  schedule: seq<Batch>, log: Log, b: nat, i: nat)
    requires Ended(run, states, settled, files0, files, schedule, log) && b < |log| && i < |log[b]|
    ensures |schedule| == |log| && log[b][i].prepared.task.taskId in states
    ensures var item := log[b][i];
      var s, agent := states[item.prepared.task.taskId], item.prepared.agent;
      && agent.adapter in run.setting.adapters && item.prepared.adapter == run.setting.adapters[agent.adapter]
      && s.agentId == Some(agent.agentId) && s.wave == Some(schedule[b].wave) && s.blockedBy == []
      && 1 <= |s.attempts| == |item.execution.attempts| <= agent.maxAttempts
      && (forall k :: 0 <= k < |s.attempts| ==> RecordsAttempt(s.attempts[k], k + 1, ReplyAt(item, k + 1)))
      && (forall n :: 1 <= n < |s.attempts| ==> !Passes(ReplyAt(item, n)))
      && (Passes(LastReply(item)) || |s.attempts| == agent.maxAttempts)
      && RecordsReply(s, LastReply(item))
  {
    assert BatchAt(run, states, files0, schedule, log, b);
    assert Faithful(run, states, AppliedAll(files0, Changes(run.runId, log[..b])), schedule[b].wave, log[b][i]);
    var item := log[b][i];
    forall n | 1 <= n < |item.execution.attempts| ensures !Passes(ReplyAt(item, n)) { assert !PassesAt(item.prepared, n); }
  }

  // ---------------------------------------------------------------- the order of the waves

  ghost predicate WavesInOrder(schedule: seq<Batch>) {
    forall i, j :: 0 <= i < j < |schedule| ==> schedule[i].wave <= schedule[j].wave
  }

  /** The batches so far are in order and belong to the first `w` waves. */
  ghost predicate ScheduledBefore(schedule: seq<Batch>, w: nat) {
    WavesInOrder(schedule) && forall i :: 0 <= i < |schedule| ==> schedule[i].wave < w
  }

  lemma {:induction false} RoundsStayInOrder(run: Run, w: nat, p: Progress)
    requires Keyed(run.setting.agents) && AllKnown(run, p.remaining) && ScheduledBefore(p.schedule, w + 1)
    ensures ScheduledBefore(Rounds(run, w, p).schedule, w + 1)
    decreases |p.remaining|
  {
    if p.remaining != [] && !p.stop { RoundsStayInOrder(run, w, Round(run, w, p)); }
  }

  /** A step from any wave keeps the order. */
  ghost predicate KeepsOrder(step: (nat, Progress) -> Progress) {
    forall w: nat, p: Progress {:trigger step(w, p)} :: ScheduledBefore(p.schedule, w) ==> ScheduledBefore(step(w, p).schedule, w + 1)
  }

  lemma {:induction false} WavesKeepOrder(run: Run)
    requires WellFormed(run)
    ensures KeepsOrder(WaveStep(run))
  {
    forall w: nat, p: Progress | ScheduledBefore(p.schedule, w) ensures ScheduledBefore(WaveStep(run)(w, p).schedule, w + 1) {
      if w < |Waves(run.g)| {
        var wave := Waves(run.g)[w];
        WaveIsKnown(run, w);
        RoundsStayInOrder(run, w, p.(states := BlockedAll(run, p.states, wave), remaining := EligibleOf(run, p.states, wave)));
      }
    }
  }

  lemma {:induction false} AfterIsInOrder(step: (nat, Progress) -> Progress, start: Progress, w: nat)
    requires KeepsOrder(step) && ScheduledBefore(start.schedule, 0)
    ensures ScheduledBefore(After(step, start, w).schedule, w)
  {
    if w > 0 { AfterIsInOrder(step, start, w - 1); }
  }

  /** The batches of a run follow its waves. */
  lemma {:induction false} BatchesFollowWaves(run: Run, states: States, files0: Files, files: Files, schedule: seq<Batch>, log: Log)
    requires IsOutcome(run, states, files0, files, schedule, log)
    ensures WavesInOrder(schedule)
  {
    WavesKeepOrder(run);
    AfterIsInOrder(WaveStep(run), AtStart(run, files0), |Waves(run.g)|);
  }

  lemma {:induction false} DependencyIsEarlier(run: Run, t: string, d: string, w: nat, v: nat)
    requires t in Wave(run.g, w) && d in Wave(run.g, v) && t in run.g && d in run.g[t]
    ensures v < w
  {
    WaveIsOpen(run.g, w);
    if w <= v { DoneGrows(run.g, w, v); }
  }

  // ---------------------------------------------------------------- payloads

  /** `item` ran task `d` and its last reply passed with this result. */
  predicate PassedWith(item: Dispatch, d: string, result: Document) {
    && item.prepared.task.taskId == d
    && LastReply(item).Returned? && LastReply(item).output.status == OutputPassed && LastReply(item).output.result == result
  }

  /** Some batch before `b` ran task `d` with this result. */
  ghost predicate RanBefore(log: Log, b: nat, d: string, result: Document) {
    exists c, j {:trigger log[c][j]} :: 0 <= c < b && c < |log| && 0 <= j < |log[c]| && PassedWith(log[c][j], d, result)
  }

  /** The task's own context wins over the shared one, key by key. */
  ghost predicate Merges(context: Document, shared: Document, own: Document) {
    && (forall k :: k in context <==> k in shared || k in own)
    && forall k :: k in context ==> if k in own then context[k] == own[k] else k in shared && context[k] == shared[k]
  }

  lemma {:induction false} PassedIsDispatched(run: Run, states: States, settled: set<string>, files0: Files, files: Files,
                                              schedule: seq<Batch>, log: Log, d: string)
    requires Ended(run, states, settled, files0, files, schedule, log) && d in states
    ensures d in Dispatched(log) || states[d].status != Passed
  {
    assert d in settled && d !in Dispatched(log) ==> SettledAside(run, states, d);
  }

  lemma {:induction false} PassedWasDispatched(run: Run, states: States, settled: set<string>, files0: Files, files: Files,
                                               schedule: seq<Batch>, log: Log, d: string) returns (c: nat, j: nat)
    requires Ended(run, states, settled, files0, files, schedule, log) && d in states && states[d].status == Passed
    ensures c < |log| && j < |log[c]| && PassedWith(log[c][j], d, states[d].result)
    ensures |schedule| == |log| && d in Wave(run.g, schedule[c].wave)
  {
    PassedIsDispatched(run, states, settled, files0, files, schedule, log, d);
    c, j := Located(log, d);
    ResultsComeFromReplies(run, states, settled, files0, files, schedule, log, c, j);
    assert BatchAt(run, states, files0, schedule, log, c);
    assert IdsOf(log[c])[j] == d && d in Elements(IdsOf(log[c]));
  }

  /** The wave of a dispatched task. */
  lemma {:induction false} DispatchedInWave(run: Run, states: States, settled: set<string>, files0: Files, files: Files,
                                            schedule: seq<Batch>, log: Log, b: nat, i: nat)
    requires Ended(run, states, settled, files0, files, schedule, log) && b < |log| && i < |log[b]|
    ensures b < |schedule| && log[b][i].prepared.task.taskId in Wave(run.g, schedule[b].wave)
  {
    assert BatchAt(run, states, files0, schedule, log, b);
    assert IdsOf(log[b])[i] in Elements(IdsOf(log[b]));
  }

  /** A dependency of a dispatched task ran in an earlier batch, with the result that was handed over. */
  lemma {:induction false} HandoffRanBefore(run: Run, states: States, settled: set<string>, files0: Files, files: Files,
                                            schedule: seq<Batch>, log: Log, b: nat, i: nat, d: string)
    requires Ended(run, states, settled, files0, files, schedule, log) && WavesInOrder(schedule)
    requires b < |log| && i < |log[b]| && d in log[b][i].prepared.payload.handoffs
    ensures RanBefore(log, b, d, log[b][i].prepared.payload.handoffs[d])
  {
    PayloadIsSnapshot(run, states, settled, files0, files, schedule, log, b, i);
    var c, j := PassedWasDispatched(run, states, settled, files0, files, schedule, log, d);
    DispatchedInWave(run, states, settled, files0, files, schedule, log, b, i);
    DependencyIsEarlier(run, log[b][i].prepared.task.taskId, d, schedule[b].wave, schedule[c].wave);
  }

  /** What the payload of one task says besides results and memory. */
  lemma {:induction false} PayloadIsAddressed(run: Run, states: States, files: Files, wave: nat, item: Dispatch)
    requires WellFormed(run) && states.Keys == run.g.Keys && Faithful(run, states, files, wave, item)
    ensures var p := item.prepared;
      && p.task.taskId in run.tasks && p.task == run.tasks[p.task.taskId] == p.payload.task
      && p.agent.agentId in run.setting.agents && p.agent == run.setting.agents[p.agent.agentId] == p.payload.agent
      && p.payload.runId == run.runId && Merges(p.payload.context, run.shared, p.task.context)
      && forall d :: d in p.payload.handoffs <==> d in p.task.dependsOn
  {
    var p := item.prepared;
    forall d ensures d in p.payload.handoffs <==> d in p.task.dependsOn {
      assert d in p.task.dependsOn <==> d in Elements(p.task.dependsOn);
    }
  }

  /**
   The payload of a dispatched task: the run, the task and the agent it is
   meant for, the merged context, and for every dependency the result its
   adapter returned in an earlier batch.
   */
  lemma {:induction false} PayloadComesFromReplies(run: Run, states: States, settled: set<string>, files0: Files, files: Files,
                                                   schedule: seq<Batch>, log: Log, b: nat, i: nat)
    requires Ended(run, states, settled, files0, files, schedule, log)
    requires IsOutcome(run, states, files0, files, schedule, log) && b < |log| && i < |log[b]|
    ensures var p := log[b][i].prepared;
      && p.task.taskId in run.tasks && p.task == run.tasks[p.task.taskId] == p.payload.task
      && p.agent.agentId in run.setting.agents && p.agent == run.setting.agents[p.agent.agentId] == p.payload.agent
      && p.payload.runId == run.runId && Merges(p.payload.context, run.shared, p.task.context)
      && (forall d :: d in p.payload.handoffs <==> d in p.task.dependsOn)
      && forall d :: d in p.payload.handoffs ==> RanBefore(log, b, d, p.payload.handoffs[d])
  {
    var p := log[b][i].prepared;
    BatchesFollowWaves(run, states, files0, files, schedule, log);
    forall d | d in p.payload.handoffs ensures RanBefore(log, b, d, p.payload.handoffs[d]) {
      HandoffRanBefore(run, states, settled, files0, files, schedule, log, b, i, d);
    }
    assert BatchAt(run, states, files0, schedule, log, b);
    PayloadIsAddressed(run, states, AppliedAll(files0, Changes(run.runId, log[..b])), schedule[b].wave, log[b][i]);
  }

  // ---------------------------------------------------------------- memory

  /** The memory updates of the last reply. */
  function UpdatesOf(item: Dispatch): Document {
    match LastReply(item)
    case Returned(output) => output.memoryUpdates
    case Raised(_) => map[]
  }

  /** The task's agent shares the memory file of `agentId` and its last reply updates `key`. */
  predicate Writes(item: Dispatch, agentId: string, key: string) {
    Path(item.prepared.agent.agentId) == Path(agentId) && key in UpdatesOf(item)
  }

  /** The dispatches of a log one after the other. */
  function InOrder(log: Log): seq<Dispatch> {
    if log == [] then [] else InOrder(log[..|log| - 1]) + log[|log| - 1]
  }

  ghost predicate AllExecuted(items: seq<Dispatch>) {
    forall i :: 0 <= i < |items| ==> IsExecution(items[i].prepared, items[i].execution)
  }

  ghost predicate WritesLast(items: seq<Dispatch>, agentId: string, key: string, i: nat) {
    && i < |items| && Writes(items[i], agentId, key)
    && forall j :: i < j < |items| ==> !Writes(items[j], agentId, key)
  }

  /** The value of `key` is the one written last, or the one from before. */
  ghost predicate KeyAsWritten(items: seq<Dispatch>, agentId: string, key: string, before: Document, after: Document) {
    && (forall i: nat {:trigger WritesLast(items, agentId, key, i)} ::
          WritesLast(items, agentId, key, i) ==> key in after && after[key] == UpdatesOf(items[i])[key])
    && ((forall i :: 0 <= i < |items| ==> !Writes(items[i], agentId, key)) ==>
        (key in after <==> key in before) && (key in after ==> after[key] == before[key]))
  }

  lemma {:induction false} OneUpdate(files: Files, agent: string, entry: Entry, agentId: string)
    ensures Loaded(AppliedAll(files, [Change(agent, entry)]), agentId).data
      == if Path(agent) == Path(agentId) then Loaded(files, agentId).data + entry.updates else Loaded(files, agentId).data
  {
    var change := Change(agent, entry);
    assert [change][..0] == [] && AppliedAll(files, [change]) == Applied(files, change);
  }

  /** A dispatched task changes memory by one entry of its own, or not at all. */
  lemma {:induction false} OneChange(runId: string, item: Dispatch)
    requires IsExecution(item.prepared, item.execution)
    ensures ChangesOf(runId, [item]) ==
      if UpdatesOf(item) == map[] then []
      else [Change(item.prepared.agent.agentId, Entry(runId, item.prepared.task.taskId, UpdatesOf(item)))]
  {
    assert [item][..0] == [] && ChangesOf(runId, []) == [];
  }

  lemma {:induction false} OneItem(files: Files, runId: string, item: Dispatch, agentId: string)
    requires IsExecution(item.prepared, item.execution)
    ensures var m, n := Loaded(files, agentId).data, Loaded(AppliedAll(files, ChangesOf(runId, [item])), agentId).data;
      n == if Path(item.prepared.agent.agentId) == Path(agentId) then m + UpdatesOf(item) else m
  {
    var agent, updates, m := item.prepared.agent.agentId, UpdatesOf(item), Loaded(files, agentId).data;
    var entry := Entry(runId, item.prepared.task.taskId, updates);
    OneChange(runId, item);
    if updates == map[] {
      assert m + map[] == m;
    } else {
      OneUpdate(files, agent, entry, agentId);
    }
  }

  lemma {:induction false} KeyStep(init: seq<Dispatch>, last: Dispatch, agentId: string, key: string,
                                   before: Document, mid: Document, after: Document)
    requires KeyAsWritten(init, agentId, key, before, mid)
    requires after == if Path(last.prepared.agent.agentId) == Path(agentId) then mid + UpdatesOf(last) else mid
    ensures KeyAsWritten(init + [last], agentId, key, before, after)
  {
    var items := init + [last];
    forall i: nat | WritesLast(items, agentId, key, i) ensures key in after && after[key] == UpdatesOf(items[i])[key] {
      if i < |init| {
        assert !Writes(items[|init|], agentId, key);
        forall j | i < j < |init| ensures !Writes(init[j], agentId, key) { assert items[j] == init[j]; }
        assert WritesLast(init, agentId, key, i);
      }
    }
    if forall i :: 0 <= i < |items| ==> !Writes(items[i], agentId, key) {
      assert !Writes(items[|init|], agentId, key);
      forall i | 0 <= i < |init| ensures !Writes(init[i], agentId, key) { assert items[i] == init[i]; }
    }
  }

  lemma {:induction false} ItemsWrite(files: Files, runId: string, items: seq<Dispatch>, agentId: string, key: string)
    requires AllExecuted(items)
    ensures KeyAsWritten(items, agentId, key, Loaded(files, agentId).data,
                         Loaded(AppliedAll(files, ChangesOf(runId, items)), agentId).data)
  {
    if items != [] {
      var init, last := items[..|items| - 1], items[|items| - 1];
      assert items == init + [last];
      ItemsWrite(files, runId, init, agentId, key);
      ChangesSplit(runId, init, last);
      AppliedAllAppend(files, ChangesOf(runId, init), ChangesOf(runId, [last]));
      OneItem(AppliedAll(files, ChangesOf(runId, init)), runId, last, agentId);
      KeyStep(init, last, agentId, key, Loaded(files, agentId).data,
              Loaded(AppliedAll(files, ChangesOf(runId, init)), agentId).data,
              Loaded(AppliedAll(files, ChangesOf(runId, items)), agentId).data);
    }
  }

  lemma {:induction false} ChangesConcat(runId: string, a: seq<Dispatch>, b: seq<Dispatch>)
    ensures ChangesOf(runId, a + b) == ChangesOf(runId, a) + ChangesOf(runId, b)
  {
    if b == [] {
      assert a + b == a;
    } else {
      var init, last := b[..|b| - 1], b[|b| - 1];
      assert a + b == (a + init) + [last] && b == init + [last];
      ChangesConcat(runId, a, init);
      ChangesSplit(runId, a + init, last);
      ChangesSplit(runId, init, last);
    }
  }

  lemma {:induction false} ChangesInOrder(runId: string, log: Log)
    ensures Changes(runId, log) == ChangesOf(runId, InOrder(log))
  {
    if log != [] {
      ChangesInOrder(runId, log[..|log| - 1]);
      ChangesConcat(runId, InOrder(log[..|log| - 1]), log[|log| - 1]);
    }
  }

  lemma {:induction false} AllWereExecuted(run: Run, states: States, settled: set<string>, files0: Files, files: Files,
                                           schedule: seq<Batch>, log: Log, b: nat)
    requires Ended(run, states, settled, files0, files, schedule, log) && b <= |log|
    ensures AllExecuted(InOrder(log[..b]))
  {
    if b > 0 {
      AllWereExecuted(run, states, settled, files0, files, schedule, log, b - 1);
      assert log[..b][..b - 1] == log[..b - 1];
      assert BatchAt(run, states, files0, schedule, log, b - 1);
      var items := log[b - 1];
      forall i | 0 <= i < |items| ensures IsExecution(items[i].prepared, items[i].execution) {
        assert Faithful(run, states, AppliedAll(files0, Changes(run.runId, log[..b - 1])), schedule[b - 1].wave, items[i]);
      }
    }
  }

  /**
   The memory a run leaves, key by key: the value the last reply wrote, in the
   order of the batches and within them, or the value from before the run.
   */
  lemma {:induction false} MemoryComesFromReplies(run: Run, states: States, settled: set<string>, files0: Files, files: Files,
                                                  schedule: seq<Batch>, log: Log, agentId: string, key: string)
    requires Ended(run, states, settled, files0, files, schedule, log)
    ensures KeyAsWritten(InOrder(log), agentId, key, Loaded(files0, agentId).data, Loaded(files, agentId).data)
  {
    AllWereExecuted(run, states, settled, files0, files, schedule, log, |log|);
    assert log[..|log|] == log;
    ChangesInOrder(run.runId, log);
    ItemsWrite(files0, run.runId, InOrder(log), agentId, key);
  }

  /** The memory a task is given is the one that the batches before its own leave. */
  lemma {:induction false} PayloadMemoryComesFromReplies(run: Run, states: States, settled: set<string>, files0: Files, files: Files,
                                                         schedule: seq<Batch>, log: Log, b: nat, i: nat, key: string)
    requires Ended(run, states, settled, files0, files, schedule, log) && b < |log| && i < |log[b]|
    ensures var p := log[b][i].prepared;
      KeyAsWritten(InOrder(log[..b]), p.agent.agentId, key, Loaded(files0, p.agent.agentId).data, p.payload.memory)
  {
    AllWereExecuted(run, states, settled, files0, files, schedule, log, b);
    ChangesInOrder(run.runId, log[..b]);
    ItemsWrite(files0, run.runId, InOrder(log[..b]), log[b][i].prepared.agent.agentId, key);
    assert BatchAt(run, states, files0, schedule, log, b);
    assert Faithful(run, states, AppliedAll(files0, Changes(run.runId, log[..b])), schedule[b].wave, log[b][i]);
  }

  // ---------------------------------------------------------------- blocked tasks

  lemma {:induction false} NotPassedConcat(states: States, a: seq<string>, b: seq<string>)
    ensures NotPassed(states, a + b) == NotPassed(states, a) + NotPassed(states, b)
  {
    if b == [] {
      assert a + b == a;
    } else {
      assert (a + b)[..|a + b| - 1] == a + b[..|b| - 1];
      NotPassedConcat(states, a, b[..|b| - 1]);
    }
  }

  lemma {:induction false} BlockedIsAside(run: Run, states: States, settled: set<string>, files0: Files, files: Files,
                                          schedule: seq<Batch>, log: Log, t: string)
    requires Ended(run, states, settled, files0, files, schedule, log) && t in states && states[t].status == Blocked
    ensures t in run.tasks && Elements(run.tasks[t].dependsOn) <= run.g.Keys
    ensures states[t].attempts == [] && states[t].blockedBy == NotPassed(states, run.tasks[t].dependsOn)
  {
    assert t in settled && Justified(run, states, settled, t);
    if t in Dispatched(log) {
      var b, i := Located(log, t);
      ResultsComeFromReplies(run, states, settled, files0, files, schedule, log, b, i);
    }
    assert t !in Dispatched(log) ==> SettledAside(run, states, t);
  }

  /** A blocked task lists, as its dependencies are listed, exactly those that did not pass. */
  lemma {:induction false} BlockedListsWhatDidNotPass(run: Run, states: States, settled: set<string>, files0: Files, files: Files,
                                                      schedule: seq<Batch>, log: Log, t: string, before: seq<string>, d: string,
                                                      after: seq<string>)
    requires Ended(run, states, settled, files0, files, schedule, log)
    requires t in states && states[t].status == Blocked && run.tasks[t].dependsOn == before + [d] + after
    ensures d in states && states[t].attempts == []
    ensures states[t].blockedBy ==
      NotPassed(states, before) + (if states[d].status == Passed then [] else [d]) + NotPassed(states, after)
  {
    BlockedIsAside(run, states, settled, files0, files, schedule, log, t);
    assert d in Elements(run.tasks[t].dependsOn);
    NotPassedConcat(states, before + [d], after);
    NotPassedConcat(states, before, [d]);
    assert [d][..0] == [];
  }
}
