/** Many processes installing into one store: the lock, its critical section, and recovery outside it. */
module InstallRaces {
  import opened Wrappers
  import opened Ordering
  import opened StoreModel
  import opened StoreProperties

  /**
   Where an installing process stands. From `Entered` to `Pointed`, and in
   `Refused`, it holds the lock; `Collided` is the branch that finds its
   directory already there; `Struck` has failed, let go of the lock, and has yet to recover.
   */
  datatype Phase =
    | Waiting | Entered | Loaded(loaded: Inventory) | Moved(loaded: Inventory) | Saved(original: Inventory)
    | Pointed | Refused | Collided | Struck(original: Inventory) | Committed | Aborted

  datatype Process = Process(package: Package, phase: Phase)

  /** `log` lists the processes that committed, in the order in which they let go of the lock. */
  datatype System = System(store: Store, lock: Option<nat>, processes: seq<Process>, log: seq<nat>)

  predicate HoldsLock(phase: Phase) {
    phase.Entered? || phase.Loaded? || phase.Moved? || phase.Saved? || phase.Pointed? || phase.Refused? || phase.Collided?
  }

  function At(s: System, i: nat, phase: Phase): System
    requires i < |s.processes|
  {
    s.(processes := s.processes[i := s.processes[i].(phase := phase)])
  }

  /** The next step of process `i`. */
  function Advance(s: System, i: nat): System
    requires i < |s.processes|
  {
    var p := s.processes[i].package;
    match s.processes[i].phase
    case Waiting =>
      if s.lock.Some? then At(s, i, Aborted) else At(s, i, Entered).(lock := Some(i))
    case Entered =>
      At(s, i, if HasVersion(s.store.inventory, p.pluginId, p.version) then Refused else Loaded(s.store.inventory))
    case Loaded(inventory) =>
      if PlaceOf(p) in s.store.packages then At(s, i, Collided)
      else At(s, i, Moved(inventory)).(store := s.store.(packages := s.store.packages[PlaceOf(p) := p.tree]))
    case Moved(inventory) =>
      At(s, i, Saved(inventory)).(store := s.store.(inventory := InventoryWith(inventory, p)))
    case Saved(original) =>
      At(s, i, Pointed).(store := s.store.(pointers := s.store.pointers[p.pluginId := PointerTo(p.pluginId, RecordOf(p))]))
    case Pointed =>
      At(s, i, Committed).(lock := None, log := s.log + [i])
    case Refused =>
      At(s, i, Aborted).(lock := None)
    case _ => s
  }

  function Run(s: System, schedule: seq<nat>): System
    requires forall k :: 0 <= k < |schedule| ==> schedule[k] < |s.processes|
    ensures |Run(s, schedule).processes| == |s.processes|
  {
    if schedule == [] then s else Advance(Run(s, schedule[..|schedule| - 1]), schedule[|schedule| - 1])
  }

  ghost predicate Starts(s: System, start: Store) {
    && s.store == start && Consistent(start) && s.lock.None? && s.log == []
    && forall i :: 0 <= i < |s.processes| ==> s.processes[i].phase.Waiting? && Sound(s.processes[i].package.tree)
  }

  // ---------------------------------------------------------------- every interleaving is a sequence of installations

  /** `base` is the initial store with the packages of `log` installed one after the other. */
  ghost predicate Replays(start: Store, processes: seq<Process>, log: seq<nat>, base: Store) {
    if log == [] then base == start
    else
      var last := log[|log| - 1];
      last < |processes| && exists before {:trigger Replays(start, processes, log[..|log| - 1], before)} ::
        && Replays(start, processes, log[..|log| - 1], before)
        && CanInstall(before, processes[last].package) && base == Installed(before, processes[last].package)
  }

  /** What the holder of the lock has done so far to the store it found. */
  ghost predicate PartWay(base: Store, p: Package, phase: Phase, store: Store) {
    match phase
    case Entered => store == base
    case Refused => store == base
    case Loaded(loaded) => store == base && loaded == base.inventory && CanInstall(base, p)
    case Moved(loaded) =>
      loaded == base.inventory && CanInstall(base, p) && store == base.(packages := base.packages[PlaceOf(p) := p.tree])
    case Saved(original) =>
      original == base.inventory && CanInstall(base, p) && store == Installed(base, p).(pointers := base.pointers)
    case Pointed => CanInstall(base, p) && store == Installed(base, p)
    case _ => false
  }

  /** The one process that may hold the lock does, and the log names exactly the committed ones. */
  predicate Accounted(s: System, i: nat)
    requires i < |s.processes|
  {
    var process := s.processes[i];
    && (HoldsLock(process.phase) <==> s.lock == Some(i)) && !process.phase.Struck?
    && (process.phase.Committed? <==> i in s.log) && Sound(process.package.tree)
  }

  ghost predicate Orderly(s: System) {
    && (forall i {:trigger Accounted(s, i)} :: 0 <= i < |s.processes| ==> Accounted(s, i))
    && (s.lock.Some? ==> s.lock.value < |s.processes|)
    && NoDuplicates(s.log)
  }

  /** The store is that of the serial run `base`, up to what the holder of the lock has done to it. */
  ghost predicate StoredAs(base: Store, s: System) {
    && Consistent(base)
    && (s.lock.None? ==> s.store == base)
    && (s.lock.Some? ==> s.lock.value < |s.processes|)
    && (s.lock.Some? ==> PartWay(base, s.processes[s.lock.value].package, s.processes[s.lock.value].phase, s.store))
  }

  ghost predicate Serial(start: Store, s: System, base: Store) {
    Orderly(s) && StoredAs(base, s) && Replays(start, s.processes, s.log, base)
  }

  ghost predicate SamePackages(a: seq<Process>, b: seq<Process>) {
    |a| == |b| && forall i :: 0 <= i < |a| ==> a[i].package == b[i].package
  }

  lemma {:induction false} ReplaysSame(start: Store, a: seq<Process>, b: seq<Process>, log: seq<nat>, base: Store)
    requires Replays(start, a, log, base) && SamePackages(a, b)
    ensures Replays(start, b, log, base)
  {
    if log != [] {
      var last := log[|log| - 1];
      var before :| Replays(start, a, log[..|log| - 1], before)
        && CanInstall(before, a[last].package) && base == Installed(before, a[last].package);
      ReplaysSame(start, a, b, log[..|log| - 1], before);
    }
  }

  lemma {:induction false} NothingCollides(base: Store, p: Package)
    requires Consistent(base) && Sound(p.tree) && !HasVersion(base.inventory, p.pluginId, p.version)
    ensures CanInstall(base, p)
  {
    ConsistentIsHealthy(base);
    assert Matched(base, PlaceOf(p));
  }

  lemma {:induction false} OrderlyStep(s: System, i: nat)
    requires Orderly(s) && i < |s.processes| && !s.processes[i].phase.Collided?
    requires !(s.processes[i].phase.Loaded? && PlaceOf(s.processes[i].package) in s.store.packages)
    ensures Orderly(Advance(s, i))
  {
    var after := Advance(s, i);
    assert Accounted(s, i);
    forall k | 0 <= k < |after.processes| ensures Accounted(after, k) { assert Accounted(s, k); }
  }

  ghost function BaseAfter(s: System, base: Store, i: nat): Store
    requires i < |s.processes|
  {
    if s.processes[i].phase.Pointed? then Installed(base, s.processes[i].package) else base
  }

  lemma {:induction false} StoredStep(s: System, base: Store, i: nat)
    requires Orderly(s) && StoredAs(base, s) && i < |s.processes|
    ensures StoredAs(BaseAfter(s, base, i), Advance(s, i))
    ensures !s.processes[i].phase.Collided?
    ensures s.processes[i].phase.Loaded? ==> PlaceOf(s.processes[i].package) !in s.store.packages
    ensures s.processes[i].phase.Pointed? ==> CanInstall(base, s.processes[i].package)
  {
    var p := s.processes[i].package;
    assert Accounted(s, i);
    match s.processes[i].phase
    case Entered =>
      if !HasVersion(base.inventory, p.pluginId, p.version) { NothingCollides(base, p); }
    case Pointed =>
      InstalledIsConsistent(base, p);
    case _ =>
  }

  lemma {:induction false} ReplaysMore(start: Store, processes: seq<Process>, log: seq<nat>, base: Store, i: nat)
    requires Replays(start, processes, log, base) && i < |processes| && CanInstall(base, processes[i].package)
    ensures Replays(start, processes, log + [i], Installed(base, processes[i].package))
  {
    assert (log + [i])[..|log| + 1 - 1] == log;
  }

  lemma {:induction false} AdvanceLogs(s: System, i: nat)
    requires i < |s.processes|
    ensures SamePackages(s.processes, Advance(s, i).processes)
    ensures Advance(s, i).log == if s.processes[i].phase.Pointed? then s.log + [i] else s.log
  {
  }

  lemma {:induction false} ReplaysStep(start: Store, s: System, base: Store, i: nat)
    requires Replays(start, s.processes, s.log, base) && i < |s.processes|
    requires s.processes[i].phase.Pointed? ==> CanInstall(base, s.processes[i].package)
    ensures Replays(start, Advance(s, i).processes, Advance(s, i).log, BaseAfter(s, base, i))
  {
    AdvanceLogs(s, i);
    ReplaysSame(start, s.processes, Advance(s, i).processes, s.log, base);
    if s.processes[i].phase.Pointed? {
      ReplaysMore(start, Advance(s, i).processes, s.log, base, i);
    }
  }

  lemma {:induction false} SerialStep(start: Store, s: System, base: Store, i: nat)
    requires Serial(start, s, base) && i < |s.processes|
    ensures Serial(start, Advance(s, i), BaseAfter(s, base, i))
  {
    StoredStep(s, base, i);
    OrderlyStep(s, i);
    ReplaysStep(start, s, base, i);
  }

  lemma {:induction false} PackagesStay(s: System, schedule: seq<nat>)
    requires forall k :: 0 <= k < |schedule| ==> schedule[k] < |s.processes|
    ensures SamePackages(s.processes, Run(s, schedule).processes)
  {
    if schedule != [] { PackagesStay(s, schedule[..|schedule| - 1]); }
  }

  /** Every interleaving leaves what installing the committed packages one after the other leaves. */
  lemma {:induction false} RunIsSerial(s: System, start: Store, schedule: seq<nat>) returns (base: Store)
    requires Starts(s, start) && forall k :: 0 <= k < |schedule| ==> schedule[k] < |s.processes|
    ensures Serial(start, Run(s, schedule), base)
  {
    if schedule == [] {
      base := start;
      forall i | 0 <= i < |s.processes| ensures Accounted(s, i) {}
    } else {
      var init, last := schedule[..|schedule| - 1], schedule[|schedule| - 1];
      var before := RunIsSerial(s, start, init);
      SerialStep(start, Run(s, init), before, last);
      base := BaseAfter(Run(s, init), before, last);
    }
  }

  /** A committed package is recorded with its own record, and its directory is there. */
  predicate InStore(store: Store, p: Package) {
    && HasVersion(store.inventory, p.pluginId, p.version)
    && store.inventory.plugins[p.pluginId].versions[p.version] == RecordOf(p)
    && PlaceOf(p) in store.packages && store.packages[PlaceOf(p)] == p.tree
  }

  lemma {:induction false} InstallKeeps(s: Store, p: Package, q: Package)
    requires CanInstall(s, p) && InStore(s, q)
    ensures InStore(Installed(s, p), q)
  {
  }

  lemma {:induction false} InstallKeepsVersions(s: Store, p: Package)
    requires CanInstall(s, p)
    ensures forall id, v :: HasVersion(s.inventory, id, v) ==> HasVersion(Installed(s, p).inventory, id, v)
    ensures InStore(Installed(s, p), p)
  {
  }

  lemma {:induction false} ReplayedStay(start: Store, processes: seq<Process>, log: seq<nat>, base: Store)
    requires Replays(start, processes, log, base)
    ensures base.inventory.revision == start.inventory.revision + |log|
    ensures forall k :: 0 <= k < |log| ==> log[k] < |processes| && InStore(base, processes[log[k]].package)
    ensures forall id, v :: HasVersion(start.inventory, id, v) ==> HasVersion(base.inventory, id, v)
  {
    if log != [] {
      var init, last := log[..|log| - 1], log[|log| - 1];
      var before :| Replays(start, processes, init, before)
        && CanInstall(before, processes[last].package) && base == Installed(before, processes[last].package);
      ReplayedStay(start, processes, init, before);
      forall k | 0 <= k < |log| ensures log[k] < |processes| && InStore(base, processes[log[k]].package) {
        if k < |log| - 1 {
          assert init[k] == log[k];
          InstallKeeps(before, processes[last].package, processes[log[k]].package);
        }
      }
      InstallKeepsVersions(before, processes[last].package);
    }
  }

  lemma {:induction false} PartWayKeeps(base: Store, p: Package, phase: Phase, store: Store, q: Package)
    requires PartWay(base, p, phase, store) && InStore(base, q)
    ensures InStore(store, q)
  {
  }

  ghost function CommittedProcesses(s: System): set<nat> {
    set i | 0 <= i < |s.processes| && s.processes[i].phase.Committed?
  }

  ghost predicate AtMostOneHolds(s: System) {
    forall i, j :: 0 <= i < j < |s.processes| ==> !(HoldsLock(s.processes[i].phase) && HoldsLock(s.processes[j].phase))
  }

  ghost predicate CommitsAreKept(s: System) {
    forall i :: 0 <= i < |s.processes| && s.processes[i].phase.Committed? ==> InStore(s.store, s.processes[i].package)
  }

  lemma {:induction false} OrderlyIsExclusive(s: System)
    requires Orderly(s)
    ensures AtMostOneHolds(s)
  {
    forall i, j | 0 <= i < j < |s.processes| ensures !(HoldsLock(s.processes[i].phase) && HoldsLock(s.processes[j].phase)) {
      assert Accounted(s, i) && Accounted(s, j);
    }
  }

  lemma {:induction false} SerialKeepsCommits(start: Store, s: System, base: Store)
    requires Serial(start, s, base)
    ensures CommitsAreKept(s)
    ensures forall i :: 0 <= i < |s.processes| ==> !s.processes[i].phase.Collided?
    ensures forall id, v :: HasVersion(start.inventory, id, v) ==> HasVersion(s.store.inventory, id, v)
  {
    ReplayedStay(start, s.processes, s.log, base);
    forall i | 0 <= i < |s.processes|
      ensures !s.processes[i].phase.Collided?
      ensures s.processes[i].phase.Committed? ==> InStore(s.store, s.processes[i].package)
    {
      assert Accounted(s, i);
      if s.lock.Some? {
        var h := s.processes[s.lock.value];
        assert !h.phase.Collided?;
        if s.processes[i].phase.Committed? { PartWayKeeps(base, h.package, h.phase, s.store, s.processes[i].package); }
      }
    }
  }

  lemma {:induction false} LogCounts(s: System)
    requires Orderly(s) && forall k :: 0 <= k < |s.log| ==> s.log[k] < |s.processes|
    ensures |CommittedProcesses(s)| == |s.log|
  {
    ElementsCount(s.log);
    forall i ensures i in CommittedProcesses(s) <==> i in Elements(s.log) {
      if 0 <= i < |s.processes| { assert Accounted(s, i); }
    }
    assert CommittedProcesses(s) == Elements(s.log);
  }

  /**
   Safety of every interleaving of installing processes: at most one holds the
   lock, no directory ever collides, no version committed by a process or there
   from the start is lost, and while the lock is free the store is healthy and
   the revision has grown by the number of commits.
   */
  lemma {:induction false} InstallsAreSafe(s: System, start: Store, schedule: seq<nat>)
    requires Starts(s, start) && forall k :: 0 <= k < |schedule| ==> schedule[k] < |s.processes|
    ensures AtMostOneHolds(Run(s, schedule))
    ensures forall i :: 0 <= i < |s.processes| ==> !Run(s, schedule).processes[i].phase.Collided?
    ensures CommitsAreKept(Run(s, schedule))
    ensures forall id, v :: HasVersion(start.inventory, id, v) ==> HasVersion(Run(s, schedule).store.inventory, id, v)
    ensures Run(s, schedule).lock.None? ==> Consistent(Run(s, schedule).store) && Healthy(Run(s, schedule).store)
    ensures Run(s, schedule).lock.None? ==>
      Run(s, schedule).store.inventory.revision == start.inventory.revision + |CommittedProcesses(Run(s, schedule))|
  {
    var after := Run(s, schedule);
    var base := RunIsSerial(s, start, schedule);
    OrderlyIsExclusive(after);
    SerialKeepsCommits(start, after, base);
    if after.lock.None? {
      ConsistentIsHealthy(base);
      ReplayedStay(start, after.processes, after.log, base);
      LogCounts(after);
    }
  }

  function StepsLeft(phase: Phase): nat {
    match phase
    case Waiting => 6
    case Entered => 5
    case Loaded(_) => 4
    case Moved(_) => 3
    case Saved(_) => 2
    case Pointed => 1
    case Refused => 1
    case _ => 0
  }

  lemma {:induction false} StepCounts(s: System, j: nat, i: nat)
    requires i < |s.processes| && j < |s.processes|
    ensures var before, left := StepsLeft(s.processes[i].phase), StepsLeft(Advance(s, j).processes[i].phase);
      if i == j then left == 0 || left + 1 <= before else left == before
  {
  }

  lemma {:induction false} StepsRunOut(s: System, schedule: seq<nat>, i: nat)
    requires i < |s.processes| && forall k :: 0 <= k < |schedule| ==> schedule[k] < |s.processes|
    ensures var left := StepsLeft(Run(s, schedule).processes[i].phase);
      left == 0 || left + multiset(schedule)[i] <= StepsLeft(s.processes[i].phase)
  {
    if schedule != [] {
      var init, last := schedule[..|schedule| - 1], schedule[|schedule| - 1];
      assert schedule == init + [last];
      var taken: multiset<nat> := multiset(init);
      assert multiset(schedule) == taken + multiset{last};
      StepsRunOut(s, init, i);
      StepCounts(Run(s, init), last, i);
    }
  }

  /** Nobody waits for anybody: six steps of its own, however interleaved, bring every process to its end. */
  lemma {:induction false} InstallsEnd(s: System, start: Store, schedule: seq<nat>, i: nat)
    requires Starts(s, start) && forall k :: 0 <= k < |schedule| ==> schedule[k] < |s.processes|
    requires i < |s.processes| && multiset(schedule)[i] >= 6
    ensures var phase := Run(s, schedule).processes[i].phase; phase.Committed? || phase.Aborted?
  {
    StepsRunOut(s, schedule, i);
    InstallsAreSafe(s, start, schedule);
    var base := RunIsSerial(s, start, schedule);
    assert Accounted(Run(s, schedule), i);
  }

  // ---------------------------------------------------------------- recovery comes after the lock is let go

  /** The pointer write of process `i` fails: it lets go of the lock and has yet to recover. */
  function Strike(s: System, i: nat): System
    requires i < |s.processes| && s.processes[i].phase.Saved?
  {
    At(s, i, Struck(s.processes[i].phase.original)).(lock := None)
  }

  function Recover(s: System, i: nat): System
    requires i < |s.processes| && s.processes[i].phase.Struck?
  {
    var p := s.processes[i].package;
    At(s, i, Aborted).(store := Store(s.processes[i].phase.original, s.store.packages - {PlaceOf(p)}, s.store.pointers - {p.pluginId}))
  }

  ghost predicate Extends(inventory: Inventory, earlier: Inventory) {
    forall id, v {:trigger HasVersion(earlier, id, v)} :: HasVersion(earlier, id, v) ==> HasVersion(inventory, id, v)
  }

  /** Since the strike a process not in `done` goes on only if its version was not in the inventory `seen` at the strike. */
  ghost predicate Since(seen: Inventory, done: seq<nat>, store: Store, process: Process, k: nat) {
    var isNew := !HasVersion(seen, process.package.pluginId, process.package.version);
    match process.phase
    case Loaded(loaded) => isNew && Extends(loaded, seen)
    case Moved(loaded) => isNew && Extends(loaded, seen) && PlaceOf(process.package) in store.packages
    case Saved(_) => isNew && PlaceOf(process.package) in store.packages
    case Pointed => isNew && PlaceOf(process.package) in store.packages
    case Committed => k in done || (isNew && PlaceOf(process.package) in store.packages)
    case _ => true
  }

  ghost predicate KeptPackages(now: map<Location, Tree>, earlier: map<Location, Tree>) {
    forall place :: place in earlier ==> place in now && now[place] == earlier[place]
  }

  /** What every run after the strike `struck` of process `i` keeps: inventory and directories only grow. */
  ghost predicate AfterStrike(struck: System, s: System, i: nat)
    requires i < |struck.processes|
  {
    && |s.processes| == |struck.processes| && s.processes[i] == struck.processes[i]
    && SamePackages(struck.processes, s.processes)
    && Extends(s.store.inventory, struck.store.inventory)
    && KeptPackages(s.store.packages, struck.store.packages)
    && forall k {:trigger Since(struck.store.inventory, struck.log, s.store, s.processes[k], k)} :: 0 <= k < |s.processes| ==>
      Since(struck.store.inventory, struck.log, s.store, s.processes[k], k)
  }

  lemma {:induction false} AfterStrikeStep(struck: System, s: System, i: nat, j: nat)
    requires i < |struck.processes| && struck.processes[i].phase.Struck? && AfterStrike(struck, s, i) && j < |s.processes|
    ensures AfterStrike(struck, Advance(s, j), i)
  {
    var after, seen := Advance(s, j), struck.store.inventory;
    assert Since(seen, struck.log, s.store, s.processes[j], j);
    forall k | 0 <= k < |after.processes| ensures Since(seen, struck.log, after.store, after.processes[k], k) {
      assert Since(seen, struck.log, s.store, s.processes[k], k);
    }
  }

  lemma {:induction false} AfterStrikeRun(struck: System, i: nat, schedule: seq<nat>)
    requires i < |struck.processes| && struck.processes[i].phase.Struck? && AfterStrike(struck, struck, i)
    requires forall k :: 0 <= k < |schedule| ==> schedule[k] < |struck.processes|
    ensures AfterStrike(struck, Run(struck, schedule), i)
  {
    if schedule != [] {
      var init, last := schedule[..|schedule| - 1], schedule[|schedule| - 1];
      AfterStrikeRun(struck, i, init);
      AfterStrikeStep(struck, Run(struck, init), i, last);
    }
  }

  /** At the strike nobody else is under way: those in the log have committed into `base`, the store before process `i`. */
  lemma {:induction false} AtStrike(s: System, start: Store, base: Store, i: nat)
    requires Serial(start, s, base) && i < |s.processes| && s.processes[i].phase.Saved?
    ensures AfterStrike(Strike(s, i), Strike(s, i), i)
    ensures CanInstall(base, s.processes[i].package) && s.processes[i].phase.original == base.inventory
    ensures s.store == Installed(base, s.processes[i].package).(pointers := base.pointers)
  {
    var struck := Strike(s, i);
    assert Accounted(s, i);
    forall k | 0 <= k < |struck.processes|
      ensures Since(struck.store.inventory, struck.log, struck.store, struck.processes[k], k)
    {
      assert Accounted(s, k);
    }
  }

  /** One committed process: recovery keeps it exactly if it was in the log at the strike; otherwise only its directory stays. */
  lemma {:induction false} RecoveryKeeps(struck: System, later: System, base: Store, i: nat, k: nat)
    requires i < |struck.processes| && struck.processes[i].phase == Struck(base.inventory) && AfterStrike(struck, later, i)
    requires CanInstall(base, struck.processes[i].package)
    requires struck.store == Installed(base, struck.processes[i].package).(pointers := base.pointers)
    requires k < |later.processes| && later.processes[k].phase.Committed?
    requires k in struck.log ==> InStore(base, later.processes[k].package)
    ensures var q, after := later.processes[k].package, Recover(later, i).store;
      && (InStore(after, q) <==> k in struck.log)
      && (k !in struck.log ==> !HasVersion(after.inventory, q.pluginId, q.version) && PlaceOf(q) in after.packages)
  {
    var p, q := struck.processes[i].package, later.processes[k].package;
    assert Since(struck.store.inventory, struck.log, later.store, later.processes[k], k);
    if k in struck.log {
      InstallKeeps(base, p, q);
    } else {
      InstallKeepsVersions(base, p);
    }
  }

  /** `later` has been recovered to `after`: exactly the commits in `done` are kept, and the others leave their directory behind. */
  ghost predicate KeptExactly(later: System, after: System, done: seq<nat>) {
    && (CommitsAreKept(after) <==> forall k :: k in CommittedProcesses(later) ==> k in done)
    && forall k :: k in CommittedProcesses(later) ==>
         && (InStore(after.store, later.processes[k].package) <==> k in done)
         && (k !in done ==> PlaceOf(later.processes[k].package) in after.store.packages)
  }

  lemma {:induction false} RecoveryKeepsAll(struck: System, later: System, base: Store, i: nat)
    requires i < |struck.processes| && struck.processes[i].phase == Struck(base.inventory) && AfterStrike(struck, later, i)
    requires CanInstall(base, struck.processes[i].package)
    requires struck.store == Installed(base, struck.processes[i].package).(pointers := base.pointers)
    requires forall k :: 0 <= k < |struck.processes| && k in struck.log ==> InStore(base, struck.processes[k].package)
    ensures KeptExactly(later, Recover(later, i), struck.log)
  {
    var after := Recover(later, i);
    forall k | k in CommittedProcesses(later)
      ensures InStore(after.store, later.processes[k].package) <==> k in struck.log
      ensures k !in struck.log ==> PlaceOf(later.processes[k].package) in after.store.packages
    {
      RecoveryKeeps(struck, later, base, i, k);
    }
    assert forall k :: k in CommittedProcesses(later) ==>
      k in CommittedProcesses(after) && after.processes[k].package == later.processes[k].package;
    assert CommittedProcesses(after) == CommittedProcesses(later);
  }

  /**
   Recovery after any further steps of any number of processes: a commit
   survives exactly if it had happened when the fault struck. The others are
   gone from the inventory while their directories stay behind.
   */
  lemma {:induction false} RecoveryKeepsEarlierCommits(s: System, start: Store, before: seq<nat>, i: nat, schedule: seq<nat>)
    requires Starts(s, start) && i < |s.processes|
    requires forall k :: 0 <= k < |before| ==> before[k] < |s.processes|
    requires forall k :: 0 <= k < |schedule| ==> schedule[k] < |s.processes|
    requires Run(s, before).processes[i].phase.Saved?
    ensures var struck := Strike(Run(s, before), i);
      var later := Run(struck, schedule);
      later.processes[i].phase.Struck? && KeptExactly(later, Recover(later, i), struck.log)
  {
    var reached := Run(s, before);
    var base := RunIsSerial(s, start, before);
    AtStrike(reached, start, base, i);
    AfterStrikeRun(Strike(reached, i), i, schedule);
    ReplayedStay(start, reached.processes, reached.log, base);
    RecoveryKeepsAll(Strike(reached, i), Run(Strike(reached, i), schedule), base, i);
  }

  /** Process `i` takes `n` steps in a row. */
  function Solo(s: System, i: nat, n: nat): System
    requires i < |s.processes|
    ensures |Solo(s, i, n).processes| == |s.processes|
  {
    if n == 0 then s else Advance(Solo(s, i, n - 1), i)
  }

  lemma {:induction false} SoloFails(start: Store, p: Package, q: Package) returns (s: System)
    requires Consistent(start) && CanInstall(start, p)
    ensures var begin := Solo(System(start, None, [Process(p, Waiting), Process(q, Waiting)], []), 0, 4);
      && begin.processes[0].phase.Saved? && s == Strike(begin, 0)
      && s == System(Installed(start, p).(pointers := start.pointers), None,
                     [Process(p, Struck(start.inventory)), Process(q, Waiting)], [])
  {
    var processes := [Process(p, Waiting), Process(q, Waiting)];
    var begin := System(start, None, processes, []);
    assert Solo(begin, 0, 1) == Advance(begin, 0);
    assert Solo(begin, 0, 2) == Advance(Solo(begin, 0, 1), 0);
    assert Solo(begin, 0, 3) == Advance(Solo(begin, 0, 2), 0);
    s := Strike(Solo(begin, 0, 4), 0);
    assert s.processes == [Process(p, Struck(start.inventory)), Process(q, Waiting)];
  }

  lemma {:induction false} SoloCommits(s: System, i: nat) returns (after: System)
    requires i < |s.processes| && s.processes[i].phase.Waiting? && s.lock.None? && CanInstall(s.store, s.processes[i].package)
    ensures after == Solo(s, i, 6) && |after.processes| == |s.processes|
    ensures after.store == Installed(s.store, s.processes[i].package) && after.processes[i].phase.Committed?
    ensures forall k :: 0 <= k < |s.processes| && k != i ==> after.processes[k] == s.processes[k]
  {
    assert Solo(s, i, 1) == Advance(s, i);
    assert Solo(s, i, 2) == Advance(Solo(s, i, 1), i);
    assert Solo(s, i, 3) == Advance(Solo(s, i, 2), i);
    assert Solo(s, i, 4) == Advance(Solo(s, i, 3), i);
    assert Solo(s, i, 5) == Advance(Solo(s, i, 4), i);
    after := Solo(s, i, 6);
  }

  /** A process that finds the lock taken or its version installed gives up and leaves everything else as it is. */
  lemma {:induction false} SoloGivesUp(s: System, i: nat)
    requires i < |s.processes| && s.processes[i].phase.Waiting?
    ensures s.lock.Some? ==> Solo(s, i, 1) == s.(processes := s.processes[i := s.processes[i].(phase := Aborted)])
    ensures s.lock.None? && HasVersion(s.store.inventory, s.processes[i].package.pluginId, s.processes[i].package.version) ==>
      Solo(s, i, 3) == s.(processes := s.processes[i := s.processes[i].(phase := Aborted)])
  {
    assert Solo(s, i, 1) == Advance(s, i);
    assert Solo(s, i, 2) == Advance(Solo(s, i, 1), i);
    assert Solo(s, i, 3) == Advance(Solo(s, i, 2), i);
  }

  /** Recovery right after the fault leaves the store as process `i` found it, but for the pointer of its plugin. */
  lemma {:induction false} PromptRecovery(s: System, start: Store, schedule: seq<nat>, i: nat) returns (base: Store)
    requires Starts(s, start) && i < |s.processes| && forall k :: 0 <= k < |schedule| ==> schedule[k] < |s.processes|
    requires Run(s, schedule).processes[i].phase.Saved?
    ensures Replays(start, Run(s, schedule).processes, Run(s, schedule).log, base)
    ensures Recover(Strike(Run(s, schedule), i), i).store == base.(pointers := base.pointers - {s.processes[i].package.pluginId})
  {
    var reached := Run(s, schedule);
    base := RunIsSerial(s, start, schedule);
    AtStrike(reached, start, base, i);
    PackagesStay(s, schedule);
    assert PlaceOf(reached.processes[i].package) !in base.packages;
    assert reached.store.packages - {PlaceOf(reached.processes[i].package)} == base.packages;
  }

  lemma {:induction false} SecondFits(start: Store, p: Package, q: Package)
    requires Consistent(start) && CanInstall(start, p) && CanInstall(start, q) && PlaceOf(p) != PlaceOf(q)
    ensures CanInstall(Installed(start, p).(pointers := start.pointers), q)
  {
    InstalledIsConsistent(start, p);
    ConsistentIsHealthy(Installed(start, p));
  }

  /** Two processes are enough: a commit between the strike and the recovery is lost. */
  lemma {:induction false} LateRecoveryLosesACommit(start: Store, p: Package, q: Package) returns (before: System, after: System)
    requires Consistent(start) && CanInstall(start, p) && CanInstall(start, q) && PlaceOf(p) != PlaceOf(q)
    ensures var begin := Solo(System(start, None, [Process(p, Waiting), Process(q, Waiting)], []), 0, 4);
      && begin.processes[0].phase.Saved? && before == Solo(Strike(begin, 0), 1, 6)
      && before.processes[0].phase.Struck? && after == Recover(before, 0)
    ensures before.processes[1].phase.Committed? && InStore(before.store, q)
    ensures !HasVersion(after.store.inventory, q.pluginId, q.version) && PlaceOf(q) in after.store.packages
    ensures !Consistent(after.store)
  {
    var s := SoloFails(start, p, q);
    SecondFits(start, p, q);
    before := SoloCommits(s, 1);
    after := Recover(before, 0);
    assert !Matched(after.store, PlaceOf(q));
  }
}
