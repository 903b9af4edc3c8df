/** The plugin store: install, rollback and removal as sequences of writes with compensation. */
module PluginStore {
  import opened Wrappers
  import opened Ordering
  import opened StoreModel

  datatype Operation = Install | Rollback | Remove

  datatype Status = Created | Resolving | Verified | Staged | Validated | Committed | Failed

  datatype Transaction = Transaction(operation: Operation, status: Status)

  /** The writes of an installation, in order; a fault may strike before each of them. */
  datatype InstallStep =
    | AtCreated | AtResolving | AtInspection | AtVerified | AtLock | AtExtraction | AtStaged | AtMove | AtSave | AtPointer | AtCommit

  datatype RollbackStep = BeforeCreated | BeforeLock | BeforeValidated | BeforeSave | BeforePointer | BeforeCommit

  datatype RemoveStep = OnCreated | OnLock | OnMove | OnPointer | OnSave | OnCommit

  datatype Failure =
    | Faulted | BadPackage | Locked | InvalidInventory | AlreadyInstalled | PathExists | NotInstalled | PathMissing
    | ReplacementNeeded | ReplacementNotInstalled | ReplacementIsRemoved

  // ---------------------------------------------------------------- how far an operation gets

  predicate ClearToMove(s: Store, p: Package, faults: set<InstallStep>) {
    && ValidInventory(s.inventory) && !HasVersion(s.inventory, p.pluginId, p.version)
    && faults !! {AtExtraction, AtStaged}
  }

  predicate ClearToSave(s: Store, p: Package, faults: set<InstallStep>) {
    ClearToMove(s, p, faults) && PlaceOf(p) !in s.packages && faults !! {AtMove, AtSave}
  }

  /** The installation gets as far as naming its final directory. */
  predicate NamesDirectory(s: Store, locked: bool, package: Option<Package>, faults: set<InstallStep>) {
    && package.Some? && !locked && ClearToMove(s, package.value, faults)
    && faults !! {AtCreated, AtResolving, AtInspection, AtVerified, AtLock}
  }

  /** The installation gets as far as naming its pointer file. */
  predicate NamesPointer(s: Store, locked: bool, package: Option<Package>, faults: set<InstallStep>) {
    NamesDirectory(s, locked, package, faults) && ClearToSave(s, package.value, faults)
  }

  /** A removal leaves the pointer alone only when versions stay and none of them is active. */
  predicate WritesPointer(inventory: Inventory, pluginId: string, version: string, replacement: Option<string>)
    requires HasVersion(inventory, pluginId, version)
  {
    var entry := inventory.plugins[pluginId];
    Others(entry, version) == map[] || ActiveAfter(entry, version, replacement).Some?
  }

  /** What a failed installation leaves; over an invalid inventory nothing is named. */
  function InstallUndone(s: Store, locked: bool, package: Option<Package>, faults: set<InstallStep>): Store {
    s.(packages := if NamesDirectory(s, locked, package, faults) then s.packages - {PlaceOf(package.value)} else s.packages,
       pointers := if NamesPointer(s, locked, package, faults) then s.pointers - {package.value.pluginId} else s.pointers)
  }

  /** The locals the recovery of an installation looks at. */
  datatype InstallUndo = InstallUndo(original: Option<Inventory>, saved: bool, finalPath: Option<Location>, pointer: Option<string>)

  /** The rollback gets as far as reading the pointer it may have to put back. */
  predicate RollbackReadsPointer(s: Store, locked: bool, pluginId: string, target: string, faults: set<RollbackStep>) {
    && !locked && ValidInventory(s.inventory) && HasVersion(s.inventory, pluginId, target)
    && faults !! {BeforeCreated, BeforeLock}
  }

  /** The removal gets as far as reading the pointer it may have to put back. */
  predicate RemovalReadsPointer(s: Store, locked: bool, pluginId: string, version: string, replacement: Option<string>, faults: set<RemoveStep>) {
    && !locked && ValidInventory(s.inventory) && HasVersion(s.inventory, pluginId, version)
    && ReplacementFits(s.inventory.plugins[pluginId], version, replacement)
    && faults !! {OnCreated, OnLock}
  }

  /**
   What a failed rollback leaves: the pointer is lost when the failure comes
   after the first transaction record and before the pointer is read.
   */
  function RollbackUndone(s: Store, locked: bool, pluginId: string, target: string, faults: set<RollbackStep>): Store {
    if BeforeCreated in faults || !ValidInventory(s.inventory) || RollbackReadsPointer(s, locked, pluginId, target, faults) then s
    else s.(pointers := s.pointers - {pluginId})
  }

  /** What a failed removal leaves: the pointer is lost under the same circumstances. */
  function RemovalUndone(s: Store, locked: bool, pluginId: string, version: string, replacement: Option<string>, faults: set<RemoveStep>): Store {
    if OnCreated in faults || !ValidInventory(s.inventory) || RemovalReadsPointer(s, locked, pluginId, version, replacement, faults) then s
    else s.(pointers := s.pointers - {pluginId})
  }

  /** The locals the recovery of a rollback or a removal looks at. */
  datatype SwitchUndo = SwitchUndo(original: Option<Inventory>, pointer: Option<Pointer>, moved: Option<Location>)

  /** `undo` is enough to get back to `was` from `now`, if nothing but the plugin's own pointer and `moved` changed. */
  ghost predicate CanUndo(undo: SwitchUndo, was: Store, now: Store, pluginId: string, trash: map<nat, Tree>, t: nat) {
    && undo.original == Some(was.inventory)
    && undo.pointer == (if pluginId in was.pointers then Some(was.pointers[pluginId]) else None)
    && now.pointers - {pluginId} == was.pointers - {pluginId}
    && (undo.moved.None? ==> now.packages == was.packages && trash == map[])
    && (undo.moved.Some? ==> undo.moved.value in was.packages && now.packages == was.packages - {undo.moved.value})
    && (undo.moved.Some? ==> trash == map[t := was.packages[undo.moved.value]])
  }

  /** Nothing was changed and no pointer was read. */
  ghost predicate Untouched(undo: SwitchUndo, was: Store, now: Store, trash: map<nat, Tree>) {
    && now == was && trash == map[] && undo.pointer.None? && undo.moved.None?
    && (undo.original.Some? ==> undo.original == Some(was.inventory))
  }

  /** What is wrong with the replacement of an active version. */
  function ReplacementError(entry: Entry, version: string, replacement: Option<string>): (r: Option<Failure>)
    requires entry.active == Some(version)
    ensures r.None? <==> ReplacementFits(entry, version, replacement)
    ensures r.Some? ==> r.value.ReplacementNeeded? || r.value.ReplacementNotInstalled? || r.value.ReplacementIsRemoved?
  {
    if replacement.None? then (if Others(entry, version) != map[] then Some(ReplacementNeeded) else None)
    else if replacement.value !in entry.versions then Some(ReplacementNotInstalled)
    else if replacement.value == version then Some(ReplacementIsRemoved)
    else None
  }

  /** What is left of a plugin without `version`. */
  predicate IsLeft(left: Entry, entry: Entry, version: string, replacement: Option<string>) {
    left == Entry(entry.pluginId, ActiveAfter(entry, version, replacement), Others(entry, version))
  }

  predicate ActiveIsLeft(left: Entry) {
    left.versions != map[] && left.active.Some? ==> left.active.value in left.versions
  }

  predicate NeedsPointer(left: Entry) {
    left.versions == map[] || left.active.Some?
  }

  function PointersFor(pointers: map<string, Pointer>, pluginId: string, left: Entry): map<string, Pointer>
    requires ActiveIsLeft(left)
  {
    if left.versions == map[] then pointers - {pluginId}
    else if left.active.Some? then pointers[pluginId := PointerTo(pluginId, left.versions[left.active.value])]
    else pointers
  }

  function PluginsWith(plugins: map<string, Entry>, pluginId: string, left: Entry): map<string, Entry> {
    if left.versions == map[] then plugins - {pluginId} else plugins[pluginId := left]
  }

  lemma {:induction false} LeftInInventory(inventory: Inventory, pluginId: string, version: string, replacement: Option<string>, left: Entry)
    requires ValidInventory(inventory) && HasVersion(inventory, pluginId, version)
    requires ReplacementFits(inventory.plugins[pluginId], version, replacement)
    requires IsLeft(left, inventory.plugins[pluginId], version, replacement)
    ensures ActiveIsLeft(left) && (NeedsPointer(left) <==> WritesPointer(inventory, pluginId, version, replacement))
    ensures Inventory(inventory.revision + 1, PluginsWith(inventory.plugins, pluginId, left))
      == InventoryWithout(inventory, pluginId, version, replacement)
  {
    assert ValidEntry(pluginId, inventory.plugins[pluginId]);
  }

  /** The writes computed from `left` are those of the removal. */
  lemma {:induction false} WhatIsLeft(s: Store, pluginId: string, version: string, replacement: Option<string>, left: Entry)
    requires CanRemove(s, pluginId, version, replacement)
    requires IsLeft(left, s.inventory.plugins[pluginId], version, replacement)
    ensures ActiveIsLeft(left) && (NeedsPointer(left) <==> WritesPointer(s.inventory, pluginId, version, replacement))
    ensures PointersFor(s.pointers, pluginId, left) == PointersWithout(s, pluginId, version, replacement)
    ensures PointersFor(s.pointers, pluginId, left) - {pluginId} == s.pointers - {pluginId}
    ensures Inventory(s.inventory.revision + 1, PluginsWith(s.inventory.plugins, pluginId, left))
      == InventoryWithout(s.inventory, pluginId, version, replacement)
    ensures ValidInventory(InventoryWithout(s.inventory, pluginId, version, replacement))
  {
    LeftInInventory(s.inventory, pluginId, version, replacement, left);
    SavedInventoriesAreValid(s.inventory, Package(pluginId, version, "", "", Tree(map[])), pluginId, version, replacement);
  }

  /** No fault strikes a write of the removal; `writes` tells whether the pointer is written. */
  predicate RemovalRuns(faults: set<RemoveStep>, writes: bool) {
    faults !! {OnMove, OnSave, OnCommit} && !(OnPointer in faults && writes)
  }

  lemma {:induction false} RemovalRunsThrough(faults: set<RemoveStep>, writes: bool)
    ensures RemovalRuns(faults, writes) && faults !! {OnCreated, OnLock} <==> faults <= if writes then {} else {OnPointer}
  {
    assert forall s :: s in faults ==> s.OnCreated? || s.OnLock? || s.OnMove? || s.OnPointer? || s.OnSave? || s.OnCommit?;
  }

  function PointerFile(pointers: map<string, Pointer>, pluginId: string): Option<Pointer> {
    if pluginId in pointers then Some(pointers[pluginId]) else None
  }

  lemma {:induction false} PointerPutBack(now: map<string, Pointer>, was: map<string, Pointer>, pluginId: string)
    requires now - {pluginId} == was - {pluginId}
    ensures if pluginId in was then now[pluginId := was[pluginId]] == was else now - {pluginId} == was
  {
    forall k | k != pluginId ensures k in now <==> k in was {
      assert k in now - {pluginId} <==> k in was - {pluginId};
    }
    forall k | k in now && k in was && k != pluginId ensures now[k] == was[k] {
      assert (now - {pluginId})[k] == (was - {pluginId})[k];
    }
  }

  /** What each error of the operations says about the call. */
  predicate InstallError(e: Failure, s: Store, locked: bool, package: Option<Package>, faults: set<InstallStep>) {
    match e
    case InvalidInventory => !ValidInventory(s.inventory)
    case BadPackage => package.None? || AtInspection in faults
    case Locked => locked || AtLock in faults
    case AlreadyInstalled => package.Some? && HasVersion(s.inventory, package.value.pluginId, package.value.version)
    case PathExists => package.Some? && Location(package.value.pluginId, package.value.version) in s.packages
    case Faulted => faults != {}
    case _ => false
  }

  predicate RollbackError(e: Failure, s: Store, locked: bool, pluginId: string, target: string, faults: set<RollbackStep>) {
    match e
    case InvalidInventory => !ValidInventory(s.inventory)
    case Locked => locked || BeforeLock in faults
    case NotInstalled => !HasVersion(s.inventory, pluginId, target)
    case PathMissing => HasVersion(s.inventory, pluginId, target) && s.inventory.plugins[pluginId].versions[target].path !in s.packages
    case Faulted => faults != {}
    case _ => false
  }

  predicate ActiveVersion(inventory: Inventory, pluginId: string, version: string) {
    HasVersion(inventory, pluginId, version) && inventory.plugins[pluginId].active == Some(version)
  }

  predicate RemovalError(e: Failure, s: Store, locked: bool, pluginId: string, version: string, replacement: Option<string>,
                         faults: set<RemoveStep>)
  {
    match e
    case InvalidInventory => !ValidInventory(s.inventory)
    case Locked => locked || OnLock in faults
    case NotInstalled => !HasVersion(s.inventory, pluginId, version)
    case Faulted => faults != {}
    case PathMissing => HasVersion(s.inventory, pluginId, version) && s.inventory.plugins[pluginId].versions[version].path !in s.packages
    case ReplacementNeeded =>
      ActiveVersion(s.inventory, pluginId, version) && replacement == None && s.inventory.plugins[pluginId].versions.Keys != {version}
    case ReplacementNotInstalled =>
      ActiveVersion(s.inventory, pluginId, version) && replacement.Some? && !HasVersion(s.inventory, pluginId, replacement.value)
    case ReplacementIsRemoved => ActiveVersion(s.inventory, pluginId, version) && replacement == Some(version)
    case _ => false
  }

  class PluginStore {
    var inventory: Inventory
    var packages: map<Location, Tree>
    var pointers: map<string, Pointer>
    var locked: bool
    var transactions: seq<Transaction>
    var staging: map<nat, Tree>
    var trash: map<nat, Tree>

    /** `initialize` on an empty root. */
    constructor ()
      ensures Snapshot() == Store(Inventory(0, map[]), map[], map[]) && !locked && Resting()
    {
      inventory, packages, pointers := Inventory(0, map[]), map[], map[];
      locked, transactions, staging, trash := false, [], map[], map[];
    }

    /** The part of the store that the inventory, the package directories and the active pointers make up. */
    ghost function Snapshot(): Store
      reads this
    {
      Store(inventory, packages, pointers)
    }

    /** Between operations nothing is staged and nothing lies in the trash. */
    ghost predicate Resting()
      reads this
    {
      staging == map[] && trash == map[]
    }

    /** `save_inventory`: rejects what does not validate. */
    method SaveInventory(saved: Inventory) returns (ok: bool)
      modifies this`inventory
      ensures ok == ValidInventory(saved)
      ensures inventory == if ok then saved else old(inventory)
    {
      ok := ValidInventory(saved);
      if ok { inventory := saved; }
    }

    method WriteTransaction(t: nat, operation: Operation, status: Status)
      requires t < |transactions|
      modifies this`transactions
      ensures transactions == old(transactions)[t := Transaction(operation, status)]
    {
      transactions := transactions[t := Transaction(operation, status)];
    }

    // -------------------------------------------------------------- install

    /** The last three writes of an installation: inventory, pointer and transaction record. */
    method PublishInstall(p: Package, t: nat, faults: set<InstallStep>) returns (error: Option<Failure>, saved: bool)
      requires t < |transactions| && ValidInventory(inventory)
      modifies this`inventory, this`pointers, this`transactions
      ensures saved <==> AtSave !in faults
      ensures error.None? <==> faults !! {AtSave, AtPointer, AtCommit}
      ensures error.Some? ==> error == Some(Faulted) && transactions == old(transactions)
      ensures !saved ==> inventory == old(inventory) && pointers == old(pointers)
      ensures pointers - {p.pluginId} == old(pointers) - {p.pluginId}
      ensures error.None? ==>
        && inventory == InventoryWith(old(inventory), p)
        && pointers == old(pointers)[p.pluginId := PointerTo(p.pluginId, RecordOf(p))]
        && transactions == old(transactions)[t := Transaction(Install, Committed)]
    {
      var entry := EntryOf(inventory, p.pluginId);
      var changed := entry.(pluginId := p.pluginId, active := Some(p.version),
                            versions := entry.versions[p.version := InstalledVersion(p.version, p.sha256, p.source, PlaceOf(p))]);
      if AtSave in faults { return Some(Faulted), false; }
      SavedInventoriesAreValid(inventory, p, p.pluginId, p.version, None);
      var _ := SaveInventory(Inventory(inventory.revision + 1, inventory.plugins[p.pluginId := changed]));
      if AtPointer in faults { return Some(Faulted), true; }
      pointers := pointers[p.pluginId := Pointer(p.pluginId, p.version, PlaceOf(p))];
      if AtCommit in faults { return Some(Faulted), true; }
      WriteTransaction(t, Install, Committed);
      return None, true;
    }

    /** The part of the installation that runs under the lock; `undo` says what recovery will act on. */
    method InstallUnderLock(p: Package, t: nat, faults: set<InstallStep>) returns (error: Option<Failure>, undo: InstallUndo)
      requires t + 1 == |transactions| && staging == map[] && Sound(p.tree)
      modifies this`inventory, this`packages, this`pointers, this`transactions, this`staging
      ensures staging.Keys <= {t}
      ensures |transactions| == t + 1 && transactions[..t] == old(transactions[..t])
      ensures undo.finalPath == (if ClearToMove(old(Snapshot()), p, faults) then Some(PlaceOf(p)) else None)
      ensures undo.pointer == (if ClearToSave(old(Snapshot()), p, faults) then Some(p.pluginId) else None)
      ensures undo.original == (if ValidInventory(old(inventory)) then Some(old(inventory)) else None)
      ensures undo.saved <==> undo.pointer.Some?
      ensures !undo.saved ==> inventory == old(inventory)
      ensures undo.pointer.None? ==> pointers == old(pointers)
      ensures pointers - {p.pluginId} == old(pointers) - {p.pluginId}
      ensures undo.finalPath.None? ==> packages == old(packages)
      ensures packages - {PlaceOf(p)} == old(packages) - {PlaceOf(p)}
      ensures error.None? <==> undo.saved && faults !! {AtPointer, AtCommit}
      ensures error.None? ==> CanInstall(old(Snapshot()), p) && Snapshot() == Installed(old(Snapshot()), p)
      ensures error.None? ==> transactions[t] == Transaction(Install, Committed)
      ensures error.Some? ==> InstallError(error.value, old(Snapshot()), false, Some(p), faults)
    {
      undo := InstallUndo(None, false, None, None);
      if !ValidInventory(inventory) { return Some(InvalidInventory), undo; }
      undo := undo.(original := Some(inventory));
      if HasVersion(inventory, p.pluginId, p.version) { return Some(AlreadyInstalled), undo; }
      if AtExtraction in faults { return Some(Faulted), undo; }
      staging := staging[t := p.tree];
      if AtStaged in faults { return Some(Faulted), undo; }
      WriteTransaction(t, Install, Staged);
      undo := undo.(finalPath := Some(PlaceOf(p)));
      if PlaceOf(p) in packages { return Some(PathExists), undo; }
      if AtMove in faults { return Some(Faulted), undo; }
      packages := packages[PlaceOf(p) := staging[t]];
      staging := staging - {t};
      var saved;
      error, saved := PublishInstall(p, t, faults);
      if saved { undo := undo.(saved := true, pointer := Some(p.pluginId)); }
    }

    /** What the `except` clause of `install_plugin` does. */
    method RecoverInstall(undo: InstallUndo, t: nat)
      requires t < |transactions| && staging.Keys <= {t}
      requires undo.original.Some? ==> ValidInventory(undo.original.value)
      modifies this`inventory, this`packages, this`pointers, this`transactions, this`staging
      ensures staging == map[]
      ensures inventory == if undo.saved && undo.original.Some? then undo.original.value else old(inventory)
      ensures pointers == if undo.pointer.Some? then old(pointers) - {undo.pointer.value} else old(pointers)
      ensures packages == if undo.finalPath.Some? then old(packages) - {undo.finalPath.value} else old(packages)
      ensures transactions == old(transactions)[t := Transaction(Install, Failed)]
    {
      if undo.saved && undo.original.Some? {
        var _ := SaveInventory(undo.original.value);
      }
      if undo.pointer.Some? { pointers := pointers - {undo.pointer.value}; }
      if undo.finalPath.Some? { packages := packages - {undo.finalPath.value}; }
      staging := staging - {t};
      WriteTransaction(t, Install, Failed);
    }

    /**
     `install_plugin`. It commits or fails; a failure always leaves the
     inventory as it was, but takes the directory away once it was named and
     the pointer away once it was named, whatever they held before.
     */
    method InstallPlugin(package: Option<Package>, faults: set<InstallStep>) returns (r: Result<Location, Failure>)
      requires Resting()
      requires package.Some? ==> Sound(package.value.tree)
      modifies this
      ensures locked == old(locked) && Resting()
      ensures r.Success? <==> NamesPointer(old(Snapshot()), old(locked), package, faults) && faults !! {AtPointer, AtCommit}
      ensures r.Success? ==> CanInstall(old(Snapshot()), package.value) && Snapshot() == Installed(old(Snapshot()), package.value)
      ensures r.Success? ==> r.value == Location(package.value.pluginId, package.value.version)
      ensures r.Failure? ==> Snapshot() == InstallUndone(old(Snapshot()), old(locked), package, faults)
      ensures r.Failure? ==> InstallError(r.error, old(Snapshot()), old(locked), package, faults)
      ensures !ValidInventory(old(inventory)) ==> r == Failure(InvalidInventory)
      ensures AtCreated in faults || !ValidInventory(old(inventory)) ==> transactions == old(transactions)
      ensures AtCreated !in faults && ValidInventory(old(inventory)) ==>
        transactions == old(transactions) + [Transaction(Install, if r.Success? then Committed else Failed)]
    {
      if !ValidInventory(inventory) { return Failure(InvalidInventory); }
      if AtCreated in faults { return Failure(Faulted); }
      var t := |transactions|;
      transactions := transactions + [Transaction(Install, Created)];
      var error: Option<Failure> := None;
      var undo := InstallUndo(None, false, None, None);
      label Try: {
        if AtResolving in faults { error := Some(Faulted); break Try; }
        WriteTransaction(t, Install, Resolving);
        if AtInspection in faults || package.None? { error := Some(BadPackage); break Try; }
        if AtVerified in faults { error := Some(Faulted); break Try; }
        WriteTransaction(t, Install, Verified);
        if locked || AtLock in faults { error := Some(Locked); break Try; }
        locked := true;
        error, undo := InstallUnderLock(package.value, t, faults);
        locked := false;
      }
      if error.Some? {
        RecoverInstall(undo, t);
        return Failure(error.value);
      }
      staging := staging - {t};
      return Success(PlaceOf(package.value));
    }

    // -------------------------------------------------------------- rollback

    method RollbackUnderLock(pluginId: string, target: string, t: nat, faults: set<RollbackStep>)
      returns (error: Option<Failure>, undo: SwitchUndo)
      requires t + 1 == |transactions| && trash == map[]
      modifies this`inventory, this`pointers, this`transactions
      ensures |transactions| == t + 1 && transactions[..t] == old(transactions[..t])
      ensures undo.original.Some? ==> ValidInventory(undo.original.value)
      ensures error.None? ==>
        CanRollBack(old(Snapshot()), pluginId, target) && Snapshot() == RolledBack(old(Snapshot()), pluginId, target)
      ensures error.None? ==> transactions[t] == Transaction(Rollback, Committed)
      ensures error.Some? ==> RollbackError(error.value, old(Snapshot()), false, pluginId, target, faults)
      ensures error.None? <==>
        CanRollBack(old(Snapshot()), pluginId, target) && faults !! {BeforeValidated, BeforeSave, BeforePointer, BeforeCommit}
      ensures if ValidInventory(old(inventory)) && HasVersion(old(inventory), pluginId, target)
        then CanUndo(undo, old(Snapshot()), Snapshot(), pluginId, trash, t)
        else Untouched(undo, old(Snapshot()), Snapshot(), trash)
    {
      undo := SwitchUndo(None, None, None);
      if !ValidInventory(inventory) { return Some(InvalidInventory), undo; }
      undo := undo.(original := Some(inventory));
      if !HasVersion(inventory, pluginId, target) { return Some(NotInstalled), undo; }
      undo := undo.(pointer := PointerFile(pointers, pluginId));
      if BeforeValidated in faults { return Some(Faulted), undo; }
      WriteTransaction(t, Rollback, Validated);
      var entry := inventory.plugins[pluginId];
      var record := entry.versions[target];
      if record.path !in packages { return Some(PathMissing), undo; }
      if BeforeSave in faults { return Some(Faulted), undo; }
      SavedInventoriesAreValid(inventory, Package(pluginId, target, "", "", Tree(map[])), pluginId, target, None);
      var _ := SaveInventory(Inventory(inventory.revision + 1, inventory.plugins[pluginId := entry.(active := Some(target))]));
      if BeforePointer in faults { return Some(Faulted), undo; }
      pointers := pointers[pluginId := Pointer(pluginId, target, record.path)];
      if BeforeCommit in faults { return Some(Faulted), undo; }
      WriteTransaction(t, Rollback, Committed);
      return None, undo;
    }

    /** What the `except` clauses of `rollback_plugin` and `remove_plugin_version` do. */
    method RecoverSwitch(operation: Operation, undo: SwitchUndo, pluginId: string, t: nat, ghost was: Store)
      requires t < |transactions|
      requires undo.original.Some? ==> ValidInventory(undo.original.value)
      requires CanUndo(undo, was, Snapshot(), pluginId, trash, t) || Untouched(undo, was, Snapshot(), trash)
      modifies this`inventory, this`packages, this`pointers, this`transactions, this`trash
      ensures CanUndo(undo, was, old(Snapshot()), pluginId, old(trash), t) ==> Snapshot() == was
      ensures Untouched(undo, was, old(Snapshot()), old(trash)) ==> Snapshot() == was.(pointers := was.pointers - {pluginId})
      ensures trash == map[]
      ensures transactions == old(transactions)[t := Transaction(operation, Failed)]
    {
      if undo.original.Some? {
        var _ := SaveInventory(undo.original.value);
      }
      if undo.moved.Some? && t in trash {
        packages := packages[undo.moved.value := trash[t]];
        trash := trash - {t};
      }
      if undo.pointer.None? {
        pointers := pointers - {pluginId};
      } else {
        pointers := pointers[pluginId := undo.pointer.value];
      }
      WriteTransaction(t, operation, Failed);
      if CanUndo(undo, was, old(Snapshot()), pluginId, old(trash), t) {
        PointerPutBack(old(pointers), was.pointers, pluginId);
      }
    }

    /** `rollback_plugin`: it commits, or restores everything if it got as far as reading the pointer. */
    method RollbackPlugin(pluginId: string, target: string, faults: set<RollbackStep>) returns (r: Result<Option<string>, Failure>)
      requires Resting()
      modifies this
      ensures locked == old(locked) && Resting()
      ensures r.Success? <==> !old(locked) && CanRollBack(old(Snapshot()), pluginId, target) && faults == {}
      ensures r.Success? ==> Snapshot() == RolledBack(old(Snapshot()), pluginId, target)
      ensures r.Success? ==> r.value == old(inventory.plugins[pluginId].active)
      ensures r.Success? ==> pluginId in inventory.plugins && inventory.plugins[pluginId].active == Some(target)
      ensures r.Failure? ==> Snapshot() == RollbackUndone(old(Snapshot()), old(locked), pluginId, target, faults)
      ensures r.Failure? ==> RollbackError(r.error, old(Snapshot()), old(locked), pluginId, target, faults)
      ensures !ValidInventory(old(inventory)) ==> r == Failure(InvalidInventory)
      ensures BeforeCreated in faults || !ValidInventory(old(inventory)) ==> transactions == old(transactions)
      ensures BeforeCreated !in faults && ValidInventory(old(inventory)) ==>
        transactions == old(transactions) + [Transaction(Rollback, if r.Success? then Committed else Failed)]
    {
      ghost var was := Snapshot();
      if !ValidInventory(inventory) { return Failure(InvalidInventory); }
      if BeforeCreated in faults { return Failure(Faulted); }
      var t := |transactions|;
      transactions := transactions + [Transaction(Rollback, Created)];
      var error, undo := Some(Locked), SwitchUndo(None, None, None);
      var previous := EntryOf(inventory, pluginId).active;
      if !locked && BeforeLock !in faults {
        locked := true;
        error, undo := RollbackUnderLock(pluginId, target, t, faults);
        locked := false;
      }
      if error.Some? {
        RecoverSwitch(Rollback, undo, pluginId, t, was);
        return Failure(error.value);
      }
      assert forall s :: s in faults ==> s.BeforeCreated? || s.BeforeLock?;
      return Success(previous);
    }

    // -------------------------------------------------------------- removal

    /** Points the plugin's pointer at what is left of it, or takes it away; a fault may strike before the write. */
    method RewritePointer(pluginId: string, left: Entry, struck: bool) returns (ok: bool)
      requires ActiveIsLeft(left)
      modifies this`pointers
      ensures ok <==> !(struck && NeedsPointer(left))
      ensures pointers == if ok then PointersFor(old(pointers), pluginId, left) else old(pointers)
    {
      if left.versions == map[] {
        if struck { return false; }
        pointers := pointers - {pluginId};
      } else if left.active.Some? {
        if struck { return false; }
        pointers := pointers[pluginId := PointerTo(pluginId, left.versions[left.active.value])];
      }
      return true;
    }

    /** The last two writes of a removal. */
    method SaveRemoval(saved: Inventory, t: nat, faults: set<RemoveStep>) returns (error: Option<Failure>)
      requires t < |transactions| && ValidInventory(saved)
      modifies this`inventory, this`transactions
      ensures error.None? <==> faults !! {OnSave, OnCommit}
      ensures error.None? ==> inventory == saved && transactions == old(transactions)[t := Transaction(Remove, Committed)]
      ensures error.Some? ==> transactions == old(transactions) && error == Some(Faulted)
    {
      if OnSave in faults { return Some(Faulted); }
      var _ := SaveInventory(saved);
      if OnCommit in faults { return Some(Faulted); }
      WriteTransaction(t, Remove, Committed);
      return None;
    }

    /** The writes of a removal that was found to be possible. */
    method RemoveChecked(pluginId: string, version: string, replacement: Option<string>, t: nat, faults: set<RemoveStep>)
      returns (error: Option<Failure>, undo: SwitchUndo)
      requires t + 1 == |transactions| && trash == map[]
      requires CanRemove(Snapshot(), pluginId, version, replacement)
      modifies this`inventory, this`packages, this`pointers, this`transactions, this`trash
      ensures |transactions| == t + 1 && transactions[..t] == old(transactions[..t])
      ensures error.None? <==> RemovalRuns(faults, WritesPointer(old(inventory), pluginId, version, replacement))
      ensures error.None? ==>
        && Snapshot() == Removed(old(Snapshot()), pluginId, version, replacement)
        && transactions[t] == Transaction(Remove, Committed) && trash.Keys <= {t}
      ensures error.Some? ==> error == Some(Faulted) && faults != {}
      ensures error.Some? ==> CanUndo(undo, old(Snapshot()), Snapshot(), pluginId, trash, t)
    {
      ghost var was := Snapshot();
      undo := SwitchUndo(Some(inventory), PointerFile(pointers, pluginId), None);
      var entry := inventory.plugins[pluginId];
      var path := entry.versions[version].path;
      if OnMove in faults { return Some(Faulted), undo; }
      trash := trash[t := packages[path]];
      packages := packages - {path};
      undo := undo.(moved := Some(path));
      var left := entry.(versions := entry.versions - {version},
                         active := if entry.active == Some(version) then replacement else entry.active);
      var plugins := if left.versions == map[] then inventory.plugins - {pluginId} else inventory.plugins[pluginId := left];
      WhatIsLeft(was, pluginId, version, replacement, left);
      var written := RewritePointer(pluginId, left, OnPointer in faults);
      if !written { return Some(Faulted), undo; }
      error := SaveRemoval(Inventory(inventory.revision + 1, plugins), t, faults);
    }

    method RemoveUnderLock(pluginId: string, version: string, replacement: Option<string>, t: nat, faults: set<RemoveStep>)
      returns (error: Option<Failure>, undo: SwitchUndo)
      requires t + 1 == |transactions| && trash == map[]
      modifies this`inventory, this`packages, this`pointers, this`transactions, this`trash
      ensures |transactions| == t + 1 && transactions[..t] == old(transactions[..t])
      ensures error.None? ==>
        && CanRemove(old(Snapshot()), pluginId, version, replacement)
        && Snapshot() == Removed(old(Snapshot()), pluginId, version, replacement)
        && transactions[t] == Transaction(Remove, Committed) && trash.Keys <= {t}
      ensures error.None? <==>
        && CanRemove(old(Snapshot()), pluginId, version, replacement)
        && RemovalRuns(faults, WritesPointer(old(inventory), pluginId, version, replacement))
      ensures error.Some? ==> RemovalError(error.value, old(Snapshot()), false, pluginId, version, replacement, faults)
      ensures error.Some? ==> undo.original.Some? ==> ValidInventory(undo.original.value)
      ensures error.Some? ==>
        if RemovalReadsPointer(old(Snapshot()), false, pluginId, version, replacement, {})
        then CanUndo(undo, old(Snapshot()), Snapshot(), pluginId, trash, t)
        else Untouched(undo, old(Snapshot()), Snapshot(), trash)
    {
      undo := SwitchUndo(None, None, None);
      if !ValidInventory(inventory) { return Some(InvalidInventory), undo; }
      undo := undo.(original := Some(inventory));
      if !HasVersion(inventory, pluginId, version) { return Some(NotInstalled), undo; }
      var entry := inventory.plugins[pluginId];
      if entry.active == Some(version) {
        error := ReplacementError(entry, version, replacement);
        if error.Some? { return; }
      }
      undo := undo.(pointer := PointerFile(pointers, pluginId));
      if entry.versions[version].path !in packages { return Some(PathMissing), undo; }
      error, undo := RemoveChecked(pluginId, version, replacement, t, faults);
    }

    method RemoveLocked(pluginId: string, version: string, replacement: Option<string>, t: nat, faults: set<RemoveStep>)
      returns (error: Option<Failure>, undo: SwitchUndo)
      requires t + 1 == |transactions| && trash == map[] && OnCreated !in faults
      modifies this`inventory, this`packages, this`pointers, this`locked, this`transactions, this`trash
      ensures locked == old(locked)
      ensures |transactions| == t + 1 && transactions[..t] == old(transactions[..t])
      ensures error.None? <==>
        && !locked && CanRemove(old(Snapshot()), pluginId, version, replacement)
        && faults <= if WritesPointer(old(inventory), pluginId, version, replacement) then {} else {OnPointer}
      ensures error.None? ==>
        && Snapshot() == Removed(old(Snapshot()), pluginId, version, replacement)
        && transactions[t] == Transaction(Remove, Committed) && trash.Keys <= {t}
      ensures error.Some? ==> RemovalError(error.value, old(Snapshot()), locked, pluginId, version, replacement, faults)
      ensures error.Some? ==> undo.original.Some? ==> ValidInventory(undo.original.value)
      ensures error.Some? ==>
        if RemovalReadsPointer(old(Snapshot()), locked, pluginId, version, replacement, faults)
        then CanUndo(undo, old(Snapshot()), Snapshot(), pluginId, trash, t)
        else Untouched(undo, old(Snapshot()), Snapshot(), trash)
    {
      error, undo := Some(Locked), SwitchUndo(None, None, None);
      if HasVersion(inventory, pluginId, version) {
        RemovalRunsThrough(faults, WritesPointer(inventory, pluginId, version, replacement));
      }
      if !locked && OnLock !in faults {
        locked := true;
        error, undo := RemoveUnderLock(pluginId, version, replacement, t, faults);
        locked := false;
      }
    }

    /** `remove_plugin_version`: it commits, or restores everything if it got as far as reading the pointer. */
    method RemoveVersion(pluginId: string, version: string, replacement: Option<string>, faults: set<RemoveStep>)
      returns (r: Result<(), Failure>)
      requires Resting()
      modifies this
      ensures locked == old(locked) && Resting()
      ensures r.Success? <==>
        && !old(locked) && CanRemove(old(Snapshot()), pluginId, version, replacement)
        && faults <= if WritesPointer(old(inventory), pluginId, version, replacement) then {} else {OnPointer}
      ensures r.Success? ==> Snapshot() == Removed(old(Snapshot()), pluginId, version, replacement)
      ensures r.Failure? ==> Snapshot() == RemovalUndone(old(Snapshot()), old(locked), pluginId, version, replacement, faults)
      ensures r.Failure? ==> RemovalError(r.error, old(Snapshot()), old(locked), pluginId, version, replacement, faults)
      ensures !ValidInventory(old(inventory)) ==> r == Failure(InvalidInventory)
      ensures OnCreated in faults || !ValidInventory(old(inventory)) ==> transactions == old(transactions)
      ensures OnCreated !in faults && ValidInventory(old(inventory)) ==>
        transactions == old(transactions) + [Transaction(Remove, if r.Success? then Committed else Failed)]
    {
      ghost var was := Snapshot();
      if !ValidInventory(inventory) { return Failure(InvalidInventory); }
      if OnCreated in faults { return Failure(Faulted); }
      var t := |transactions|;
      transactions := transactions + [Transaction(Remove, Created)];
      var error, undo := RemoveLocked(pluginId, version, replacement, t, faults);
      if error.Some? {
        RecoverSwitch(Remove, undo, pluginId, t, was);
        return Failure(error.value);
      }
      trash := trash - {t};
      return Success(());
    }
  }
}
