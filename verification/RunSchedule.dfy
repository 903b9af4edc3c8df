/** How a run dispatches its tasks: in order, none held back without reason, and nothing after a stop. */
module RunSchedule {
  import opened Wrappers
  import opened Ordering
  import opened ExecutionGraph
  import opened AgentContracts
  import opened AgentRegistry
  import opened AgentMemory
  import opened AgentScheduler
  import opened RuntimeModel
  import opened RunOutcome
  import opened RunProperties
  import opened RunRecords

  // ---------------------------------------------------------------- batches are filled in order

  predicate AllAfter(x: string, remaining: seq<string>, n: nat) {
    forall k :: n <= k < |remaining| ==> Less(x, remaining[k])
  }

  /** These tasks are taken from the remaining ones before number `n`, in their order. */
  ghost predicate TakenInOrder(ids: seq<string>, remaining: seq<string>, n: nat) {
    && StrictlySorted(ids)
    && forall x {:trigger AllAfter(x, remaining, n)} :: x in ids ==> x in remaining && AllAfter(x, remaining, n)
  }

  lemma {:induction false} OneMoreTaken(ids: seq<string>, remaining: seq<string>, n: nat)
    requires StrictlySorted(remaining) && TakenInOrder(ids, remaining, n) && n < |remaining|
    ensures TakenInOrder(ids + [remaining[n]], remaining, n + 1) && TakenInOrder(ids, remaining, n + 1)
  {
    var more := ids + [remaining[n]];
    forall x | x in more ensures x in remaining && AllAfter(x, remaining, n + 1) {
      if x in ids { assert AllAfter(x, remaining, n); }
    }
    forall i, j | 0 <= i < j < |more| ensures Less(more[i], more[j]) {
      if j == |ids| { assert AllAfter(ids[i], remaining, n); }
    }
    forall x | x in ids ensures AllAfter(x, remaining, n + 1) { assert x in more; }
  }

  lemma {:induction false} AllTheRestTaken(ids: seq<string>, remaining: seq<string>, n: nat)
    requires StrictlySorted(remaining) && TakenInOrder(ids, remaining, n) && n <= |remaining|
    ensures TakenInOrder(ids + remaining[n..], remaining, |remaining|) && TakenInOrder(ids, remaining, |remaining|)
  {
    var more := ids + remaining[n..];
    forall i, j | 0 <= i < j < |more| ensures Less(more[i], more[j]) {
      if i < |ids| <= j { assert AllAfter(ids[i], remaining, n); }
    }
    forall x | x in more ensures x in remaining && AllAfter(x, remaining, |remaining|) {
      if x in ids { assert AllAfter(x, remaining, n); }
    }
  }

  ghost predicate FilledInOrder(remaining: seq<string>, f: Fill) {
    && f.next <= |remaining| && StrictlySorted(remaining)
    && TakenInOrder(TaskIds(f.prepared), remaining, f.next) && TakenInOrder(f.deferred, remaining, f.next)
  }

  lemma {:induction false} TakenStaysInOrder(run: Run, remaining: seq<string>, f: Fill, outcome: Preparation)
    requires FilledInOrder(remaining, f) && f.next < |remaining| && remaining[f.next] in run.tasks
    requires outcome.Prepare? ==> outcome.prepared.task.taskId == remaining[f.next]
    ensures FilledInOrder(remaining, Taken(run, remaining, f, outcome))
  {
    OneMoreTaken(TaskIds(f.prepared), remaining, f.next);
    OneMoreTaken(f.deferred, remaining, f.next);
    if outcome.Prepare? {
      assert TaskIds(f.prepared + [outcome.prepared]) == TaskIds(f.prepared) + [remaining[f.next]];
      AllTheRestTaken(f.deferred, remaining, f.next + 1);
      AllTheRestTaken(TaskIds(f.prepared) + [remaining[f.next]], remaining, f.next + 1);
    }
  }

  lemma {:induction false} FillingStaysInOrder(run: Run, files: Files, remaining: seq<string>, f: Fill)
    requires WellFormed(run) && AllKnown(run, remaining) && FilledInOrder(remaining, f)
    ensures FilledInOrder(remaining, FilledUp(run, files, remaining, f))
    decreases |remaining| - f.next
  {
    if f.next < |remaining| {
      var outcome := Preparing(run, f.states, files, run.tasks[remaining[f.next]], f.loads);
      TakenIsFurther(run, remaining, f, outcome);
      TakenStaysInOrder(run, remaining, f, outcome);
      FillingStaysInOrder(run, files, remaining, Look(run, files, remaining, f));
    }
  }

  // ---------------------------------------------------------------- what every run keeps

  predicate FailsUnderStop(item: Dispatch) {
    item.execution.output.status == OutputFailed && item.prepared.task.failurePolicy == Stop
  }

  /** A batch that did not take task `t`: it was full, or had no agent left for it. */
  ghost predicate HeldBack(run: Run, items: seq<Dispatch>, t: string) {
    |items| >= run.setting.maxWorkers || WaitsAmong(run, BatchOf(items), t)
  }

  /** Batch `b` is in order, and the last one if a task of it failed under the stop policy. */
  ghost predicate RegularBatch(p: Progress, b: nat)
    requires b < |p.log|
  {
    && StrictlySorted(IdsOf(p.log[b]))
    && forall i :: 0 <= i < |p.log[b]| && FailsUnderStop(p.log[b][i]) ==> p.stop && b + 1 == |p.log|
  }

  /** The tasks of batch `c` could not have gone with batch `b` of the same wave. */
  ghost predicate NoneEarlier(run: Run, p: Progress, b: nat, c: nat)
    requires b < c < |p.log| == |p.schedule|
  {
    p.schedule[b].wave == p.schedule[c].wave ==> forall t :: t in IdsOf(p.log[c]) ==> HeldBack(run, p.log[b], t)
  }

  ghost predicate Regular(run: Run, p: Progress) {
    && |p.log| == |p.schedule|
    && (forall b {:trigger RegularBatch(p, b)} :: 0 <= b < |p.log| ==> RegularBatch(p, b))
    && forall b, c {:trigger NoneEarlier(run, p, b, c)} :: 0 <= b < c < |p.log| ==> NoneEarlier(run, p, b, c)
  }

  /** The tasks that remain of wave `w` could not have gone with batch `b`. */
  ghost predicate LeftOver(run: Run, w: nat, p: Progress, b: nat)
    requires b < |p.log| == |p.schedule|
  {
    p.schedule[b].wave == w ==> forall t :: t in p.remaining ==> HeldBack(run, p.log[b], t)
  }

  ghost predicate InRound(run: Run, w: nat, p: Progress) {
    && Regular(run, p) && AllKnown(run, p.remaining) && StrictlySorted(p.remaining)
    && forall b {:trigger LeftOver(run, w, p, b)} :: 0 <= b < |p.log| ==> LeftOver(run, w, p, b)
  }

  /** Nothing has failed under the stop policy while the run goes on. */
  lemma {:induction false} NoneStoppedYet(run: Run, p: Progress, b: nat, i: nat)
    requires Regular(run, p) && !p.stop && b < |p.log| && i < |p.log[b]|
    ensures !FailsUnderStop(p.log[b][i])
  {
    assert RegularBatch(p, b);
  }

  lemma {:induction false} StoppedOrNot(run: Run, w: nat, p: Progress, r: Progress)
    requires InRound(run, w, p) && !p.stop
    requires r.log == p.log && r.schedule == p.schedule && r.remaining == []
    ensures InRound(run, w, r)
  {
    forall b | 0 <= b < |r.log| ensures RegularBatch(r, b) && LeftOver(run, w, r, b) {
      assert RegularBatch(p, b);
      forall i | 0 <= i < |r.log[b]| ensures !FailsUnderStop(r.log[b][i]) { NoneStoppedYet(run, p, b, i); }
    }
    forall b, c | 0 <= b < c < |r.log| ensures NoneEarlier(run, r, b, c) { assert NoneEarlier(run, p, b, c); }
  }

  lemma {:induction false} OneMoreBatch(run: Run, w: nat, p: Progress, r: Progress, items: seq<Dispatch>)
    requires InRound(run, w, p) && !p.stop && AllKnown(run, r.remaining)
    requires r.log == p.log + [items] && |r.schedule| == |p.schedule| + 1 && r.schedule[..|p.schedule|] == p.schedule
    requires r.schedule[|p.schedule|].wave == w
    requires StrictlySorted(IdsOf(items)) && forall t :: t in IdsOf(items) ==> t in p.remaining
    requires (exists i :: 0 <= i < |items| && FailsUnderStop(items[i])) ==> r.stop
    requires StrictlySorted(r.remaining) && forall t :: t in r.remaining ==> t in p.remaining && HeldBack(run, items, t)
    ensures InRound(run, w, r)
  {
    var n := |p.log|;
    forall b | 0 <= b < |r.log| ensures RegularBatch(r, b) && LeftOver(run, w, r, b) {
      if b < n {
        assert RegularBatch(p, b) && LeftOver(run, w, p, b) && r.schedule[b] == r.schedule[..n][b];
        forall i | 0 <= i < |r.log[b]| ensures !FailsUnderStop(r.log[b][i]) { NoneStoppedYet(run, p, b, i); }
      }
    }
    forall b, c | 0 <= b < c < |r.log| ensures NoneEarlier(run, r, b, c) {
      assert r.schedule[b] == r.schedule[..n][b];
      if c < n {
        assert NoneEarlier(run, p, b, c) && r.schedule[c] == r.schedule[..n][c];
      } else {
        assert LeftOver(run, w, p, b);
      }
    }
  }

  /** What a batch is filled with, and what is left of the wave. */
  ghost predicate FilledRight(run: Run, remaining: seq<string>, f: Fill) {
    && FilledInOrder(remaining, f) && (f.prepared == [] ==> f.deferred == [])
    && forall t :: t in f.deferred ==> |f.prepared| >= run.setting.maxWorkers || WaitsAmong(run, f.prepared, t)
  }

  lemma {:induction false} BatchesAreFilledRight(run: Run, files: Files, remaining: seq<string>, states: States, stop: bool)
    requires WellFormed(run) && AllKnown(run, remaining) && StrictlySorted(remaining)
    ensures FilledRight(run, remaining, FilledUp(run, files, remaining, Fill(states, [], [], map[], 0, stop)))
  {
    var start := Fill(states, [], [], map[], 0, stop);
    assert Consistent(start) && TaskIds([]) == [];
    FillingStaysInOrder(run, files, remaining, start);
    forall t | t in FilledUp(run, files, remaining, start).deferred
      ensures |FilledUp(run, files, remaining, start).prepared| >= run.setting.maxWorkers
        || WaitsAmong(run, FilledUp(run, files, remaining, start).prepared, t)
    {
      DeferredIsExplained(run, files, remaining, start, t);
    }
  }

  lemma {:induction false} BatchStaysRegular(run: Run, w: nat, p: Progress, f: Fill)
    requires WellFormed(run) && InRound(run, w, p) && !p.stop && FilledRight(run, p.remaining, f)
    ensures InRound(run, w, BatchRun(run, w, p, f))
  {
    var r := BatchRun(run, w, p, f);
    forall t | t in f.deferred ensures t in p.remaining { assert AllAfter(t, p.remaining, f.next) || t in p.remaining; }
    if f.prepared == [] {
      StoppedOrNot(run, w, p, r);
    } else {
      var items := DispatchesOf(f.prepared);
      assert BatchOf(items) == f.prepared && IdsOf(items) == TaskIds(f.prepared);
      forall t | t in IdsOf(items) ensures t in p.remaining { assert AllAfter(t, p.remaining, f.next) || t in p.remaining; }
      assert forall i :: 0 <= i < |items| && FailsUnderStop(items[i]) ==> Stops(items[i]);
      OneMoreBatch(run, w, p, r, items);
    }
  }

  lemma {:induction false} RoundStaysRegular(run: Run, w: nat, p: Progress)
    requires WellFormed(run) && InRound(run, w, p) && !p.stop
    ensures InRound(run, w, Round(run, w, p))
  {
    BatchesAreFilledRight(run, p.files, p.remaining, p.states, p.stop);
    BatchStaysRegular(run, w, p, FilledUp(run, p.files, p.remaining, NothingFilled(p)));
  }

  lemma {:induction false} RoundsStayRegular(run: Run, w: nat, p: Progress)
    requires WellFormed(run) && InRound(run, w, p)
    ensures Regular(run, Rounds(run, w, p))
    decreases |p.remaining|
  {
    if p.remaining != [] && !p.stop {
      RoundStaysRegular(run, w, p);
      RoundsStayRegular(run, w, Round(run, w, p));
    }
  }

  lemma {:induction false} EligibleNext(run: Run, states: States, wave: seq<string>)
    requires wave != [] && AllKnown(run, wave)
    ensures var before, last := EligibleOf(run, states, wave[..|wave| - 1]), wave[|wave| - 1];
      EligibleOf(run, states, wave) == before || EligibleOf(run, states, wave) == before + [last]
  {
    var before := EligibleOf(run, states, wave[..|wave| - 1]);
    assert before + [] == before;
  }

  lemma {:induction false} SortedMore(some: seq<string>, wave: seq<string>)
    requires wave != [] && StrictlySorted(wave) && StrictlySorted(some) && forall t :: t in some ==> t in wave[..|wave| - 1]
    ensures StrictlySorted(some + [wave[|wave| - 1]])
  {
    var init, last := wave[..|wave| - 1], wave[|wave| - 1];
    forall t | t in some ensures Less(t, last) {
      var i :| 0 <= i < |init| && init[i] == t;
      assert Less(wave[i], wave[|wave| - 1]);
    }
  }

  lemma {:induction false} EligibleInOrder(run: Run, states: States, wave: seq<string>)
    requires AllKnown(run, wave) && StrictlySorted(wave)
    ensures StrictlySorted(EligibleOf(run, states, wave)) && forall t :: t in EligibleOf(run, states, wave) ==> t in wave
  {
    if wave != [] {
      var init := wave[..|wave| - 1];
      EligibleInOrder(run, states, init);
      EligibleNext(run, states, wave);
      SortedMore(EligibleOf(run, states, init), wave);
    }
  }

  lemma {:induction false} WithoutRemaining(run: Run, p: Progress, remaining: seq<string>)
    requires Regular(run, p)
    ensures Regular(run, p.(remaining := remaining))
  {
    var r := p.(remaining := remaining);
    forall b | 0 <= b < |r.log| ensures RegularBatch(r, b) { assert RegularBatch(p, b); }
    forall b, c | 0 <= b < c < |r.log| ensures NoneEarlier(run, r, b, c) { assert NoneEarlier(run, p, b, c); }
  }

  lemma {:induction false} WaveStaysRegular(run: Run, w: nat, wave: seq<string>, p: Progress)
    requires WellFormed(run) && AllKnown(run, wave) && StrictlySorted(wave)
    requires Regular(run, p) && !p.stop && ScheduledBefore(p.schedule, w)
    ensures Regular(run, WaveDone(run, w, wave, p)) && ScheduledBefore(WaveDone(run, w, wave, p).schedule, w + 1)
  {
    var start := p.(states := BlockedAll(run, p.states, wave), remaining := EligibleOf(run, p.states, wave));
    EligibleInOrder(run, p.states, wave);
    forall b | 0 <= b < |start.log| ensures RegularBatch(start, b) && LeftOver(run, w, start, b) { assert RegularBatch(p, b); }
    forall b, c | 0 <= b < c < |start.log| ensures NoneEarlier(run, start, b, c) { assert NoneEarlier(run, p, b, c); }
    RoundsStayRegular(run, w, start);
    RoundsStayInOrder(run, w, start);
    WithoutRemaining(run, Rounds(run, w, start), []);
  }

  /** A step of a run that goes on. */
  ghost predicate KeepsRegular(run: Run, step: (nat, Progress) -> Progress) {
    forall w: nat, p: Progress {:trigger step(w, p)} :: Regular(run, p) && !p.stop && ScheduledBefore(p.schedule, w) ==>
      Regular(run, step(w, p)) && ScheduledBefore(step(w, p).schedule, w + 1)
  }

  lemma {:induction false} WaveIsSorted(run: Run, w: nat)
    requires w < |Waves(run.g)|
    ensures StrictlySorted(Waves(run.g)[w])
  {
    WavesFromAt(run.g, 0, w);
  }

  lemma {:induction false} WavesStayRegular(run: Run)
    requires WellFormed(run)
    ensures KeepsRegular(run, WaveStep(run))
  {
    forall w: nat, p: Progress | Regular(run, p) && !p.stop && ScheduledBefore(p.schedule, w)
      ensures Regular(run, WaveStep(run)(w, p)) && ScheduledBefore(WaveStep(run)(w, p).schedule, w + 1)
    {
      if w < |Waves(run.g)| {
        WaveIsKnown(run, w);
        WaveIsSorted(run, w);
        WaveStaysRegular(run, w, Waves(run.g)[w], p);
      }
    }
  }

  lemma {:induction false} AfterIsRegular(run: Run, step: (nat, Progress) -> Progress, start: Progress, w: nat)
    requires KeepsRegular(run, step) && Regular(run, start) && ScheduledBefore(start.schedule, 0)
    ensures Regular(run, After(step, start, w)) && ScheduledBefore(After(step, start, w).schedule, w)
  {
    if w > 0 { AfterIsRegular(run, step, start, w - 1); }
  }

  lemma {:induction false} RunIsRegular(run: Run, states: States, files0: Files, files: Files, schedule: seq<Batch>, log: Log)
    returns (p: Progress)
    requires IsOutcome(run, states, files0, files, schedule, log)
    ensures Regular(run, p) && p.schedule == schedule && p.log == log
  {
    WavesStayRegular(run);
    AfterIsRegular(run, WaveStep(run), AtStart(run, files0), |Waves(run.g)|);
    p := AfterWaves(run, files0, |Waves(run.g)|);
  }

  // ---------------------------------------------------------------- what every run shows

  /** The schedule lists the batches as they were dispatched, each with its tasks in the order of their ids. */
  lemma {:induction false} ScheduleTellsTheLog(run: Run, states: States, settled: set<string>, files0: Files, files: Files,
                                               schedule: seq<Batch>, log: Log, b: nat)
    requires Ended(run, states, settled, files0, files, schedule, log)
    requires IsOutcome(run, states, files0, files, schedule, log) && b < |schedule|
    ensures |schedule| == |log| && StrictlySorted(schedule[b].taskIds) && |schedule[b].taskIds| == |log[b]|
    ensures forall i :: 0 <= i < |log[b]| ==> schedule[b].taskIds[i] == log[b][i].prepared.task.taskId
    ensures schedule[b].number == b + 1 && schedule[b].capacity == |log[b]| && (schedule[b].parallel <==> |log[b]| > 1)
  {
    assert BatchAt(run, states, files0, schedule, log, b);
    var p := RunIsRegular(run, states, files0, files, schedule, log);
    assert RegularBatch(p, b);
  }

  /** With the assignments of some beginning of the batch no agent had room for the task, though one could take it alone. */
  ghost predicate HadNoRoom(s: Setting, task: RuntimeTask, batch: seq<Prepared>) {
    && s.scheduling.Some? && CanSelect(s, task, map[])
    && exists n {:trigger batch[..n]} :: 0 <= n <= |batch| && !CanSelect(s, task, LoadsOf(batch[..n]))
  }

  lemma {:induction false} WaitingMeansNoRoom(run: Run, batch: seq<Prepared>, t: string)
    requires WaitsAmong(run, batch, t)
    ensures t in run.tasks && HadNoRoom(run.setting, run.tasks[t], batch)
  {
    var q :| q <= batch && Waits(run.setting, run.tasks[t], LoadsOf(q));
    assert batch[..|q|] == q;
  }

  /**
   No task is held back without reason: a task dispatched in a later batch of
   the same wave found the earlier one full, or no agent that had room for it.
   */
  lemma {:induction false} NothingIsHeldBack(run: Run, states: States, files0: Files, files: Files, schedule: seq<Batch>, log: Log,
                                             b: nat, c: nat, t: string)
    requires IsOutcome(run, states, files0, files, schedule, log)
    requires b < c < |log| == |schedule| && schedule[b].wave == schedule[c].wave && t in IdsOf(log[c])
    ensures |log[b]| >= run.setting.maxWorkers || (t in run.tasks && HadNoRoom(run.setting, run.tasks[t], BatchOf(log[b])))
  {
    var p := RunIsRegular(run, states, files0, files, schedule, log);
    assert NoneEarlier(run, p, b, c);
    assert HeldBack(run, log[b], t);
    if |log[b]| < run.setting.maxWorkers { WaitingMeansNoRoom(run, BatchOf(log[b]), t); }
  }

  /** After a batch in which a task failed under the stop policy there is no further one. */
  lemma {:induction false} NothingFollowsAStop(run: Run, states: States, settled: set<string>, files0: Files, files: Files,
                                               schedule: seq<Batch>, log: Log, b: nat, i: nat)
    requires Ended(run, states, settled, files0, files, schedule, log)
    requires IsOutcome(run, states, files0, files, schedule, log) && b < |log| && i < |log[b]|
    ensures var t := log[b][i].prepared.task.taskId;
      t in states && t in run.tasks && (states[t].status == Failed && run.tasks[t].failurePolicy == Stop ==> b + 1 == |log|)
  {
    var p := RunIsRegular(run, states, files0, files, schedule, log);
    assert BatchAt(run, states, files0, schedule, log, b) && RegularBatch(p, b);
    assert Faithful(run, states, AppliedAll(files0, Changes(run.runId, log[..b])), schedule[b].wave, log[b][i]);
  }

  /** A task that failed undispatched: its agent has no adapter, or no agent can be chosen, not even with nothing assigned. */
  lemma {:induction false} FailureTells(s: Setting, task: RuntimeTask, loads: Loads) returns (agent: AgentSpec)
    requires Keyed(s.agents) && Unserved(s, task, loads)
    ensures match FailureOf(s, task, loads)
      case NoAdapter(name) => IsChosen(s, task, loads, agent) && name == agent.adapter && name !in s.adapters
      case NotSelected(FromRegistry(error)) =>
        s.scheduling.None? && !Selectable(s.agents, task) && error == Refusal(s.agents, task)
      case NotSelected(FromScheduler(error)) =>
        && s.scheduling.Some? && !CanSelect(s, task, loads) && !CanSelect(s, task, map[])
        && error == Complaint(s.scheduling.value.catalog, s.scheduling.value.profiles, loads, task, Everyone(s))
      case Reported(_) => false
  {
    agent := if CanSelect(s, task, loads) then Chosen(s, task, loads) else AgentSpec("", [], "", 0);
  }
}
