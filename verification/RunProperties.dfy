/** What follows for every finished run, and for every interleaving of the workers of a batch. */
module RunProperties {
  import opened Wrappers
  import opened Ordering
  import opened ExecutionGraph
  import opened AgentContracts
  import opened AgentMemory
  import opened AgentRegistry
  import opened CapabilityGraph
  import opened AgentScheduler
  import opened RuntimeModel
  import opened RunOutcome

  /** `t` depends on `d`, directly or through other tasks. */
  ghost predicate DependsOn(g: Graph, t: string, d: string) {
    exists p :: |p| >= 2 && p[0] == t && p[|p| - 1] == d && IsChain(g, p)
  }

  lemma {:induction false} DirectDependency(g: Graph, t: string, d: string)
    requires t in g && d in g[t] && d in g
    ensures DependsOn(g, t, d)
  {
    assert IsChain(g, [t, d]);
  }

  lemma {:induction false} DependencyExtends(g: Graph, t: string, d: string, e: string)
    requires t in g && d in g[t] && DependsOn(g, d, e)
    ensures DependsOn(g, t, e)
  {
    var p :| |p| >= 2 && p[0] == d && p[|p| - 1] == e && IsChain(g, p);
    assert IsChain(g, [t] + p);
  }

  lemma {:induction false} PassedAlongChain(run: Run, states: States, settled: set<string>, files0: Files, files: Files,
                                            schedule: seq<Batch>, log: Log, p: seq<string>)
    requires Ended(run, states, settled, files0, files, schedule, log)
    requires |p| >= 1 && IsChain(run.g, p) && states[p[0]].status == Passed
    ensures states[p[|p| - 1]].status == Passed
  {
    if |p| > 1 {
      assert p[0] in settled && Justified(run, states, settled, p[0]);
      PassedAlongChain(run, states, settled, files0, files, schedule, log, p[1..]);
    }
  }

  /** A passed task's dependencies, direct and transitive, have all passed. */
  lemma {:induction false} PassedNeedsAll(run: Run, states: States, settled: set<string>, files0: Files, files: Files,
                                          schedule: seq<Batch>, log: Log, t: string, d: string)
    requires Ended(run, states, settled, files0, files, schedule, log)
    requires t in states && states[t].status == Passed && DependsOn(run.g, t, d)
    ensures d in states && states[d].status == Passed
  {
    var p :| |p| >= 2 && p[0] == t && p[|p| - 1] == d && IsChain(run.g, p);
    PassedAlongChain(run, states, settled, files0, files, schedule, log, p);
  }

  lemma {:induction false} BlockedLeadsToFailed(run: Run, states: States, settled: set<string>, files0: Files, files: Files,
                                                schedule: seq<Batch>, log: Log, t: string, k: nat) returns (d: string)
    requires Ended(run, states, settled, files0, files, schedule, log)
    requires t in Done(run.g, k) && states[t].status == Blocked
    ensures d in states && states[d].status == Failed && DependsOn(run.g, t, d)
    decreases k
  {
    assert t in settled && Justified(run, states, settled, t);
    d :| d in run.g[t] && d in states && states[d].status in {Failed, Blocked};
    if states[d].status == Failed {
      DirectDependency(run.g, t, d);
    } else {
      var via := d;
      d := BlockedLeadsToFailed(run, states, settled, files0, files, schedule, log, via, k - 1);
      DependencyExtends(run.g, t, via, d);
    }
  }

  lemma {:induction false} FailureBlocks(run: Run, states: States, settled: set<string>, files0: Files, files: Files,
                                         schedule: seq<Batch>, log: Log, t: string, d: string)
    requires Ended(run, states, settled, files0, files, schedule, log) && t in settled
    requires d in states && states[d].status == Failed && DependsOn(run.g, t, d)
    ensures states[t].status == Blocked
  {
    assert Justified(run, states, settled, t);
    var p :| |p| >= 2 && p[0] == t && p[|p| - 1] == d && IsChain(run.g, p);
    assert p[1] in run.g[t];
    if states[p[1]].status == Passed {
      PassedAlongChain(run, states, settled, files0, files, schedule, log, p[1..]);
    }
  }

  /** A task the run got to is blocked exactly when some dependency, direct or transitive, failed. */
  lemma {:induction false} BlockedIffDependencyFailed(run: Run, states: States, settled: set<string>, files0: Files,
                                                      files: Files, schedule: seq<Batch>, log: Log, t: string)
    requires Ended(run, states, settled, files0, files, schedule, log) && t in settled
    ensures states[t].status == Blocked
      <==> exists d :: d in states && states[d].status == Failed && DependsOn(run.g, t, d)
  {
    if states[t].status == Blocked {
      WavesAre(run.g);
      var d := BlockedLeadsToFailed(run, states, settled, files0, files, schedule, log, t, |Waves(run.g)|);
    }
    if d :| d in states && states[d].status == Failed && DependsOn(run.g, t, d) {
      FailureBlocks(run, states, settled, files0, files, schedule, log, t, d);
    }
  }

  /** Every task ends passed, failed, blocked or skipped; skipping needs a failure under the stop policy. */
  lemma {:induction false} StatusesAreFinal(run: Run, states: States, settled: set<string>, files0: Files, files: Files,
                                            schedule: seq<Batch>, log: Log, t: string)
    requires Ended(run, states, settled, files0, files, schedule, log) && t in run.g
    ensures states[t].status in {Passed, Failed, Blocked, Skipped}
    ensures states[t].status == Skipped <==> t !in settled
    ensures states[t].status == Skipped ==>
      states[t].attempts == [] && states[t].agentId == None && states[t].result == map[] && states[t].blockedBy == []
    ensures states[t].status == Skipped ==>
      exists u :: u in states && u in run.tasks && states[u].status == Failed && run.tasks[u].failurePolicy == Stop
  {
    if t in settled {
      assert Justified(run, states, settled, t);
    } else {
      var u :| u in settled && u in states && u in run.tasks && StopFailure(run, states, u);
    }
  }

  /** Once a task has failed under the stop policy, every task of a later wave is skipped. */
  lemma {:induction false} LaterWavesAreSkipped(run: Run, states: States, settled: set<string>, files0: Files, files: Files,
                                                schedule: seq<Batch>, log: Log, t: string, u: string, k: nat)
    requires Ended(run, states, settled, files0, files, schedule, log)
    requires t in run.g && states[t].status == Failed && run.tasks[t].failurePolicy == Stop && t in Done(run.g, k)
    requires u in run.g && u !in Done(run.g, k)
    ensures states[u].status == Skipped
  {
    assert StopFailure(run, states, t);
    StatusesAreFinal(run, states, settled, files0, files, schedule, log, t);
    StatusesAreFinal(run, states, settled, files0, files, schedule, log, u);
    assert u in Done(run.g, k) || u !in settled;
  }

  /** A run passes as a whole exactly when none of its tasks failed. */
  lemma {:induction false} AllPassIffNoneFailed(run: Run, states: States, settled: set<string>, files0: Files, files: Files,
                                                schedule: seq<Batch>, log: Log)
    requires Ended(run, states, settled, files0, files, schedule, log)
    ensures AllPassed(states) <==> forall t :: t in states ==> states[t].status != Failed
  {
    if forall t :: t in states ==> states[t].status != Failed {
      forall t | t in states ensures states[t].status == Passed {
        StatusesAreFinal(run, states, settled, files0, files, schedule, log, t);
        assert t in settled;
        BlockedIffDependencyFailed(run, states, settled, files0, files, schedule, log, t);
      }
    }
  }

  lemma {:induction false} Located(log: Log, t: string) returns (b: nat, i: nat)
    requires t in Dispatched(log)
    ensures b < |log| && i < |log[b]| && log[b][i].prepared.task.taskId == t
  {
    var init, last := log[..|log| - 1], log[|log| - 1];
    if t in Dispatched(init) {
      b, i := Located(init, t);
    } else {
      assert t in IdsOf(last);
      b := |log| - 1;
      i :| 0 <= i < |last| && IdsOf(last)[i] == t;
    }
  }

  /**
   A failed task used up its attempts in one batch, or failed undispatched with
   the assignments of the beginning of some batch: its agent then had no
   adapter, or no agent could be chosen then nor with nothing assigned.
   */
  lemma {:induction false} FailedIsExplained(run: Run, states: States, settled: set<string>, files0: Files, files: Files,
                                             schedule: seq<Batch>, log: Log, t: string)
    requires Ended(run, states, settled, files0, files, schedule, log)
    requires IsOutcome(run, states, files0, files, schedule, log)
    requires t in run.g && states[t].status == Failed
    ensures t !in Dispatched(log) ==> exists q | q == [] || exists b :: 0 <= b < |log| && q <= BatchOf(log[b]) ::
      && Unserved(run.setting, run.tasks[t], LoadsOf(q))
      && states[t] == Initial.(status := Failed, error := Some(FailureOf(run.setting, run.tasks[t], LoadsOf(q))))
    ensures t in Dispatched(log) ==> exists b, i | 0 <= b < |log| && 0 <= i < |log[b]| ::
      log[b][i].prepared.task.taskId == t && |states[t].attempts| == log[b][i].prepared.agent.maxAttempts
  {
    StatusesAreFinal(run, states, settled, files0, files, schedule, log, t);
    if t in Dispatched(log) {
      var b, i := Located(log, t);
      assert BatchAt(run, states, files0, schedule, log, b);
      assert Faithful(run, states, AppliedAll(files0, Changes(run.runId, log[..b])), schedule[b].wave, log[b][i]);
    } else {
      OutcomeExplains(run, files0);
      assert Explained(run, states, log, [], t);
      var q :| PartOf(log, [], q) && FailsWith(run, states[t], t, q);
    }
  }

  lemma {:induction false} FreeStaysChosen(s: Setting, task: RuntimeTask, loads: Loads)
    requires Keyed(s.agents) && CanSelect(s, task, loads) && CanSelect(s, task, map[])
    requires LoadOf(loads, Chosen(s, task, map[]).agentId) == 0
    ensures Chosen(s, task, loads) == Chosen(s, task, map[])
  {
    var agent := Chosen(s, task, map[]);
    if s.scheduling.Some? {
      var x := s.scheduling.value;
      var d :| IsBest(x.catalog, x.profiles, map[], task, Everyone(s), d) && d.agentId == agent.agentId;
      UnloadedStaysBest(x.catalog, x.profiles, loads, task, Everyone(s), d);
    }
    assert IsChosen(s, task, loads, agent);
    ChosenUnique(s, task, loads, agent, Chosen(s, task, loads));
  }

  /**
   A task may fail for good although it could have been served in a later
   batch. This happens exactly if the agent to choose now has no adapter and
   the one to choose with nothing assigned has; that one then has tasks of
   this batch already.
   */
  lemma {:induction false} FailsForTheMoment(run: Run, states: States, files: Files, task: RuntimeTask, loads: Loads)
    requires Keyed(run.setting.agents)
    ensures var s := run.setting;
      Preparing(run, states, files, task, loads).Fail? && Preparing(run, states, files, task, map[]).Prepare?
      <==> && CanSelect(s, task, loads) && Chosen(s, task, loads).adapter !in s.adapters
           && CanSelect(s, task, map[]) && Chosen(s, task, map[]).adapter in s.adapters
    ensures var s := run.setting;
      Preparing(run, states, files, task, loads).Fail? && Preparing(run, states, files, task, map[]).Prepare?
      ==> LoadOf(loads, Chosen(s, task, map[]).agentId) > 0
  {
    var s := run.setting;
    if CanSelect(s, task, loads) && CanSelect(s, task, map[]) && LoadOf(loads, Chosen(s, task, map[]).agentId) == 0 {
      FreeStaysChosen(s, task, loads);
    }
  }

  lemma {:induction false} NothingNeeded(c: Catalog)
    requires c == Catalog(map[], map[])
    ensures Expandable(c, []) && Closure(c, []) == {}
  {
    assert Canonicals(c, []) == [];
    assert Bound(c, [], {});
    ClosureUnique(c, [], {}, Closure(c, []));
  }

  lemma {:induction false} TenBeatsZero()
    ensures Rounded(0.0) == 0.0 && Rounded(10.0) == 10.0
  {
    assert (0.0 * 10000.0).Floor == 0 && (10.0 * 10000.0).Floor == 100000;
  }

  lemma {:induction false} SortedNothing()
    ensures Sorted({}) == []
  {
    ElementsEmpty(Sorted({}));
  }

  lemma {:induction false} FreeScore(c: Catalog, profile: Profile)
    requires profile.capacity == 1 && profile.cost == 0.0 && profile.reliability == 0.0
    ensures Score(c, profile, 0, {}, {}) == Rounded(profile.priority as real * 10.0)
  {
    SortedNothing();
    var nothing: set<string> := {};
    assert nothing - nothing == nothing;
    assert TotalWeight(c, []) == 0.0;
    assert 0 as real / profile.capacity as real * 20.0 == 0.0;
  }

  lemma {:induction false} ScoreOfFree(c: Catalog, profiles: Profiles, loads: Loads, task: RuntimeTask, agent: AgentSpec)
    requires c == Catalog(map[], map[]) && task.requiredCapabilities == [] && agent.capabilities == []
    requires var p := ProfileOf(profiles, agent.agentId); p.capacity == 1 && p.cost == 0.0 && p.reliability == 0.0
    requires LoadOf(loads, agent.agentId) == 0
    ensures Eligible(c, profiles, loads, task, agent)
    ensures AgentScore(c, profiles, loads, task, agent) == Rounded(ProfileOf(profiles, agent.agentId).priority as real * 10.0)
  {
    NothingNeeded(c);
    FreeScore(c, ProfileOf(profiles, agent.agentId));
  }

  /** Agents "a" and "b" take one task each, "a" has priority, and only "a" has an adapter. */
  function Pair(a: AgentSpec, b: AgentSpec, adapter: Adapter): Setting {
    Setting(map["a" := a, "b" := b], map["x" := adapter],
            Some(Scheduling(Catalog(map[], map[]),
                            map["a" := Profile("a", 1, 1, 0.0, 0.0), "b" := Profile("b", 1, 0, 0.0, 0.0)])), 2)
  }

  predicate ArePair(a: AgentSpec, b: AgentSpec) {
    a == AgentSpec("a", [], "x", 1) && b == AgentSpec("b", [], "y", 1)
  }

  lemma {:induction false} TwoAgents(s: Setting, a: AgentSpec, b: AgentSpec, agent: AgentSpec)
    requires a.agentId != b.agentId && s.agents == map[a.agentId := a, b.agentId := b]
    ensures agent in Everyone(s) <==> agent == a || agent == b
  {
    ListedContains(s.agents, Sorted(s.agents.Keys), agent);
    assert a.agentId in s.agents && b.agentId in s.agents;
    forall id ensures id in Sorted(s.agents.Keys) <==> id in s.agents {
      assert id in Elements(Sorted(s.agents.Keys)) <==> id in s.agents.Keys;
    }
  }

  lemma {:induction false} PairIsRankable(a: AgentSpec, b: AgentSpec, adapter: Adapter, task: RuntimeTask, loads: Loads)
    requires ArePair(a, b) && task.requiredCapabilities == []
    ensures var s := Pair(a, b, adapter);
      && Keyed(s.agents) && (forall agent :: agent in Everyone(s) <==> agent == a || agent == b)
      && Rankable(s.scheduling.value.catalog, s.scheduling.value.profiles, loads, task, Everyone(s))
  {
    var s := Pair(a, b, adapter);
    forall agent ensures agent in Everyone(s) <==> agent == a || agent == b { TwoAgents(s, a, b, agent); }
    NothingNeeded(s.scheduling.value.catalog);
  }

  /** An eligible agent that outscores all others is chosen. */
  lemma {:induction false} BestIs(s: Setting, task: RuntimeTask, loads: Loads, agent: AgentSpec)
    requires Keyed(s.agents) && s.scheduling.Some? && agent in Everyone(s)
    requires var x := s.scheduling.value; Rankable(x.catalog, x.profiles, loads, task, Everyone(s))
    requires var x := s.scheduling.value;
      && Eligible(x.catalog, x.profiles, loads, task, agent)
      && forall other :: other in Everyone(s) && other != agent && Eligible(x.catalog, x.profiles, loads, task, other) ==>
           AgentScore(x.catalog, x.profiles, loads, task, other) < AgentScore(x.catalog, x.profiles, loads, task, agent)
    ensures CanSelect(s, task, loads) && Chosen(s, task, loads) == agent
  {
    var x := s.scheduling.value;
    var d := DecisionOn(x.catalog, x.profiles, loads, task, agent);
    assert IsBest(x.catalog, x.profiles, loads, task, Everyone(s), d);
    ListedContains(s.agents, Sorted(s.agents.Keys), agent);
    assert IsChosen(s, task, loads, agent);
    ChosenUnique(s, task, loads, agent, Chosen(s, task, loads));
  }

  lemma {:induction false} FreeAgentServes(adapter: Adapter, task: RuntimeTask, a: AgentSpec, b: AgentSpec)
    requires ArePair(a, b) && task.requiredCapabilities == []
    ensures var s := Pair(a, b, adapter);
      Keyed(s.agents) && CanSelect(s, task, map[]) && Chosen(s, task, map[]) == a && !Unserved(s, task, map[])
  {
    var s := Pair(a, b, adapter);
    var x := s.scheduling.value;
    PairIsRankable(a, b, adapter, task, map[]);
    TenBeatsZero();
    ScoreOfFree(x.catalog, x.profiles, map[], task, a);
    ScoreOfFree(x.catalog, x.profiles, map[], task, b);
    BestIs(s, task, map[], a);
  }

  /** With such agents the second task of a batch fails, although it would be served if "a" were free. */
  lemma {:induction false} SecondTaskFails(adapter: Adapter, task: RuntimeTask, a: AgentSpec, b: AgentSpec)
    requires ArePair(a, b) && task.requiredCapabilities == []
    ensures var s := Pair(a, b, adapter);
      && Keyed(s.agents) && !Unserved(s, task, map[])
      && Unserved(s, task, map["a" := 1]) && FailureOf(s, task, map["a" := 1]) == NoAdapter("y")
  {
    var s, loads := Pair(a, b, adapter), map["a" := 1];
    FreeAgentServes(adapter, task, a, b);
    PairIsRankable(a, b, adapter, task, loads);
    ScoreOfFree(s.scheduling.value.catalog, s.scheduling.value.profiles, loads, task, b);
    BestIs(s, task, loads, b);
  }

  lemma {:induction false} LastBatchIsNew(log: Log, b: nat, i: nat, j: nat)
    requires NoDuplicates(Dispatched(log))
    requires b < |log| - 1 && i < |log[b]| && j < |log[|log| - 1]|
    ensures log[b][i].prepared.task.taskId != log[|log| - 1][j].prepared.task.taskId
  {
    var init, ids := log[..|log| - 1], IdsOf(log[|log| - 1]);
    var earlier, all := Dispatched(init), Dispatched(log);
    DispatchedMembers(init, b, i);
    var k :| 0 <= k < |earlier| && earlier[k] == init[b][i].prepared.task.taskId;
    assert all == earlier + ids;
    assert all[k] == earlier[k] && all[|earlier| + j] == ids[j];
  }

  /** No task is dispatched twice, in one batch or in two. */
  lemma {:induction false} DispatchedOnce(log: Log, b: nat, i: nat, c: nat, j: nat)
    requires NoDuplicates(Dispatched(log))
    requires b < |log| && i < |log[b]| && c < |log| && j < |log[c]|
    requires log[b][i].prepared.task.taskId == log[c][j].prepared.task.taskId
    ensures b == c && i == j
  {
    var n := |log| - 1;
    var init, ids := log[..n], IdsOf(log[n]);
    var earlier, all := Dispatched(init), Dispatched(log);
    assert all == earlier + ids;
    if b == n && c == n {
      assert all[|earlier| + i] == ids[i] && all[|earlier| + j] == ids[j];
    } else if b == n {
      LastBatchIsNew(log, c, j, i);
    } else if c == n {
      LastBatchIsNew(log, b, i, j);
    } else {
      assert NoDuplicates(earlier) by {
        forall x, y | 0 <= x < y < |earlier| ensures earlier[x] != earlier[y] {
          assert all[x] == earlier[x] && all[y] == earlier[y];
        }
      }
      DispatchedOnce(init, b, i, c, j);
    }
  }

  /** Every batch has one to `max_workers` tasks of one wave, within the capacity of its agents. */
  lemma {:induction false} BatchIsBounded(run: Run, states: States, settled: set<string>, files0: Files, files: Files,
                                          schedule: seq<Batch>, log: Log, b: nat, agentId: string)
    requires Ended(run, states, settled, files0, files, schedule, log) && b < |schedule|
    ensures |schedule| == |log| && schedule[b].taskIds == IdsOf(log[b]) && schedule[b].number == b + 1
    ensures 1 <= |schedule[b].taskIds| <= run.setting.maxWorkers
    ensures Elements(schedule[b].taskIds) <= Wave(run.g, schedule[b].wave)
    ensures run.setting.scheduling.Some? && Assigned(BatchOf(log[b]), agentId) > 0 ==>
      Assigned(BatchOf(log[b]), agentId) <= ProfileOf(run.setting.scheduling.value.profiles, agentId).capacity
  {
    assert BatchAt(run, states, files0, schedule, log, b);
  }

  lemma {:induction false} PayloadMemoryIsWritten(run: Run, states: States, settled: set<string>, files0: Files, files: Files,
                                                  schedule: seq<Batch>, log: Log, b: nat, i: nat)
    requires Ended(run, states, settled, files0, files, schedule, log) && b < |log| && i < |log[b]|
    ensures var p, changes := log[b][i].prepared, Changes(run.runId, log[..b]);
      && p.payload.memory == Folded(Loaded(files0, p.agent.agentId).data, FileEntries(changes, p.agent.agentId))
      && (OwnsFile(changes, p.agent.agentId) ==> FileEntries(changes, p.agent.agentId) == Own(changes, p.agent.agentId))
  {
    var p, changes := log[b][i].prepared, Changes(run.runId, log[..b]);
    assert BatchAt(run, states, files0, schedule, log, b);
    assert Faithful(run, states, AppliedAll(files0, changes), schedule[b].wave, log[b][i]);
    MemoryIsWritten(files0, changes, p.agent.agentId);
    OwnIsAllWritten(changes, p.agent.agentId);
  }

  /**
   A dispatched task got the results of its dependencies, and the memory its
   agent's file held before the run, folded with all that earlier batches wrote
   to that file: the agent's own updates, when no other agent shares it.
   */
  lemma {:induction false} PayloadIsSnapshot(run: Run, states: States, settled: set<string>, files0: Files, files: Files,
                                             schedule: seq<Batch>, log: Log, b: nat, i: nat)
    requires Ended(run, states, settled, files0, files, schedule, log) && b < |log| && i < |log[b]|
    ensures var p, changes := log[b][i].prepared, Changes(run.runId, log[..b]);
      && p.payload.memory == Folded(Loaded(files0, p.agent.agentId).data, FileEntries(changes, p.agent.agentId))
      && (OwnsFile(changes, p.agent.agentId) ==> FileEntries(changes, p.agent.agentId) == Own(changes, p.agent.agentId))
      && p.task.taskId in run.g && p.payload.handoffs.Keys == run.g[p.task.taskId]
      && forall d :: d in p.payload.handoffs ==>
           d in states && states[d].status == Passed && p.payload.handoffs[d] == states[d].result
  {
    PayloadMemoryIsWritten(run, states, settled, files0, files, schedule, log, b, i);
    var p := log[b][i].prepared;
    assert BatchAt(run, states, files0, schedule, log, b);
    assert Faithful(run, states, AppliedAll(files0, Changes(run.runId, log[..b])), schedule[b].wave, log[b][i]);
    DispatchedMembers(log, b, i);
    assert p.task.taskId in Elements(Dispatched(log));
    assert Justified(run, states, settled, p.task.taskId);
    forall d ensures d in p.task.dependsOn <==> d in run.g[p.task.taskId] {
      assert d in p.task.dependsOn <==> d in Elements(p.task.dependsOn);
    }
  }

  // ---------------------------------------------------------------- interleavings

  /** The workers after the attempts of `order`: each entry lets one worker make its next attempt. */
  function Interleaved(workers: seq<Worker>, order: seq<nat>): (r: seq<Worker>)
    ensures |r| == |workers|
  {
    if order == [] then workers
    else
      var before, i := Interleaved(workers, order[..|order| - 1]), order[|order| - 1];
      if i < |before| && !Finished(before[i]) then before[i := Attempted(before[i])] else before
  }

  lemma {:induction false} WorkersStayOnTrack(batch: seq<Prepared>, order: seq<nat>, i: nat)
    requires i < |batch| && batch[i].agent.maxAttempts >= 1
    ensures OnTrack(batch[i], Interleaved(Started(batch), order)[i])
  {
    if order != [] {
      WorkersStayOnTrack(batch, order[..|order| - 1], i);
      var before := Interleaved(Started(batch), order[..|order| - 1])[i];
      if order[|order| - 1] == i && !Finished(before) {
        assert before.attempts != [] ==> !PassesAt(batch[i], |before.attempts|);
      }
    }
  }

  /**
   However the attempts of a batch interleave, a worker that finishes has the
   execution of its task run alone; so the recorded results do not depend on
   the interleaving.
   */
  lemma {:induction false} InterleavingDoesNotMatter(batch: seq<Prepared>, order: seq<nat>, i: nat, alone: Execution)
    requires i < |batch| && batch[i].agent.maxAttempts >= 1
    requires Finished(Interleaved(Started(batch), order)[i]) && IsExecution(batch[i], alone)
    ensures ResultOf(Interleaved(Started(batch), order)[i]) == alone
  {
    WorkersStayOnTrack(batch, order, i);
    var w := Interleaved(Started(batch), order)[i];
    ExecutionUnique(batch[i], ResultOf(w), alone);
  }

  /** Hence two interleavings that finish a batch leave its workers alike. */
  lemma {:induction false} BatchesAgree(batch: seq<Prepared>, order: seq<nat>, other: seq<nat>)
    requires forall i :: 0 <= i < |batch| ==> batch[i].agent.maxAttempts >= 1
    requires forall i :: 0 <= i < |batch| ==> Finished(Interleaved(Started(batch), order)[i])
    requires forall i :: 0 <= i < |batch| ==> Finished(Interleaved(Started(batch), other)[i])
    ensures Interleaved(Started(batch), order) == Interleaved(Started(batch), other)
  {
    var a, b := Interleaved(Started(batch), order), Interleaved(Started(batch), other);
    forall i | 0 <= i < |batch| ensures a[i] == b[i] {
      WorkersStayOnTrack(batch, order, i);
      WorkersStayOnTrack(batch, other, i);
      assert IsExecution(batch[i], ResultOf(b[i]));
      InterleavingDoesNotMatter(batch, order, i, ResultOf(b[i]));
    }
  }

  /** In a finished run every batch has the results that any interleaving of its workers would have given. */
  lemma {:induction false} InterleavingGivesTheLog(run: Run, states: States, settled: set<string>, files0: Files, files: Files,
                                                   schedule: seq<Batch>, log: Log, b: nat, order: seq<nat>, i: nat)
    requires Ended(run, states, settled, files0, files, schedule, log) && b < |log| && i < |log[b]|
    requires Finished(Interleaved(Started(BatchOf(log[b])), order)[i])
    ensures ResultOf(Interleaved(Started(BatchOf(log[b])), order)[i]) == log[b][i].execution
  {
    assert BatchAt(run, states, files0, schedule, log, b);
    assert Faithful(run, states, AppliedAll(files0, Changes(run.runId, log[..b])), schedule[b].wave, log[b][i]);
    InterleavingDoesNotMatter(BatchOf(log[b]), order, i, log[b][i].execution);
  }

  /** Two finished runs that start alike end alike, in the tasks they got to, the states, the memory, the schedule and the results. */
  lemma {:induction false} RunsAgree(run: Run, files0: Files, states: States, settled: set<string>, files: Files, schedule: seq<Batch>,
                                     log: Log, otherStates: States, otherSettled: set<string>, otherFiles: Files,
                                     otherSchedule: seq<Batch>, otherLog: Log)
    requires Ended(run, states, settled, files0, files, schedule, log)
    requires Ended(run, otherStates, otherSettled, files0, otherFiles, otherSchedule, otherLog)
    requires IsOutcome(run, states, files0, files, schedule, log)
    requires IsOutcome(run, otherStates, files0, otherFiles, otherSchedule, otherLog)
    ensures states == otherStates && files == otherFiles && schedule == otherSchedule && log == otherLog
    ensures settled == otherSettled
  {
    forall t | t in run.g ensures t in settled <==> t in otherSettled {
      StatusesAreFinal(run, states, settled, files0, files, schedule, log, t);
      StatusesAreFinal(run, otherStates, otherSettled, files0, otherFiles, otherSchedule, otherLog, t);
    }
  }
}
