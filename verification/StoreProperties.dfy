/** What runs of committed store operations keep, and what the health check sees. */
module StoreProperties {
  import opened Wrappers
  import opened Ordering
  import opened StoreModel
  import opened PluginStore
  import opened ReleaseVersion

  // ---------------------------------------------------------------- health

  datatype IssueType =
    | MissingActiveVersion | MissingActivePointer | PointerVersionMismatch | InvalidActivePointer
    | MissingInstalledPath | MissingManifest | MissingPayload

  /** An issue of a plugin, or of one of its versions. */
  datatype Issue = Issue(pluginId: string, errorType: IssueType, version: Option<string>)

  predicate PointerAgrees(s: Store, id: string, active: Option<string>) {
    && active.Some? && id in s.pointers && s.pointers[id].Pointer? && s.pointers[id].version == active.value
  }

  predicate UnpackedAt(s: Store, record: InstalledVersion) {
    record.path in s.packages && Sound(s.packages[record.path])
  }

  /** What "healthy" means for one plugin. */
  predicate HealthyPlugin(s: Store, id: string)
    requires id in s.inventory.plugins
  {
    var entry := s.inventory.plugins[id];
    PointerAgrees(s, id, entry.active) && forall v :: v in entry.versions ==> UnpackedAt(s, entry.versions[v])
  }

  predicate Healthy(s: Store) {
    forall id :: id in s.inventory.plugins ==> HealthyPlugin(s, id)
  }

  /** What is wrong with the pointer of a plugin. */
  predicate PointerFault(s: Store, id: string, active: Option<string>, errorType: IssueType) {
    match errorType
    case MissingActiveVersion => active == None
    case MissingActivePointer => active != None && id !in s.pointers
    case InvalidActivePointer => active != None && id in s.pointers && s.pointers[id].Unreadable?
    case PointerVersionMismatch =>
      active != None && id in s.pointers && !s.pointers[id].Unreadable? && Some(s.pointers[id].version) != active
    case _ => false
  }

  /** What is wrong with the directory of a version. */
  predicate DirectoryFault(s: Store, path: Location, errorType: IssueType) {
    match errorType
    case MissingInstalledPath => path !in s.packages
    case MissingManifest => path in s.packages && "plugin.json" !in s.packages[path].files
    case MissingPayload => path in s.packages && forall f :: f in s.packages[path].files ==> !("payload/" <= f)
    case _ => false
  }

  predicate Present(s: Store, id: string, issue: Issue)
    requires id in s.inventory.plugins
  {
    var entry := s.inventory.plugins[id];
    && issue.pluginId == id
    && match issue.version
       case None => PointerFault(s, id, entry.active, issue.errorType)
       case Some(v) => v in entry.versions && DirectoryFault(s, entry.versions[v].path, issue.errorType)
  }

  method PointerIssues(s: Store, id: string) returns (issues: seq<Issue>)
    requires id in s.inventory.plugins
    ensures issues == [] <==> PointerAgrees(s, id, s.inventory.plugins[id].active)
    ensures forall issue :: issue in issues <==> issue.version.None? && Present(s, id, issue)
  {
    var active := s.inventory.plugins[id].active;
    if active.None? {
      return [Issue(id, MissingActiveVersion, None)];
    }
    if id !in s.pointers {
      return [Issue(id, MissingActivePointer, None)];
    }
    match s.pointers[id]
    case Unreadable => return [Issue(id, InvalidActivePointer, None)];
    case Pointer(_, version, _) =>
      return if version != active.value then [Issue(id, PointerVersionMismatch, None)] else [];
  }

  method DirectoryIssues(s: Store, id: string, v: string) returns (issues: seq<Issue>)
    requires id in s.inventory.plugins && v in s.inventory.plugins[id].versions
    ensures issues == [] <==> UnpackedAt(s, s.inventory.plugins[id].versions[v])
    ensures forall issue :: issue in issues <==> issue.version == Some(v) && Present(s, id, issue)
  {
    var record := s.inventory.plugins[id].versions[v];
    issues := [];
    if record.path !in s.packages {
      return [Issue(id, MissingInstalledPath, Some(v))];
    }
    if MANIFEST !in s.packages[record.path].files { issues := issues + [Issue(id, MissingManifest, Some(v))]; }
    if !HasPayload(s.packages[record.path]) { issues := issues + [Issue(id, MissingPayload, Some(v))]; }
  }

  method VersionIssues(s: Store, id: string) returns (issues: seq<Issue>)
    requires id in s.inventory.plugins
    ensures issues == [] <==>
      forall v :: v in s.inventory.plugins[id].versions ==> UnpackedAt(s, s.inventory.plugins[id].versions[v])
    ensures forall issue :: issue in issues <==> issue.version.Some? && Present(s, id, issue)
  {
    var entry := s.inventory.plugins[id];
    var names := SortedKeys(entry.versions.Keys);
    issues := [];
    for i := 0 to |names|
      invariant forall k :: 0 <= k < |names| ==> names[k] in entry.versions
      invariant issues == [] <==> forall k :: 0 <= k < i ==> UnpackedAt(s, entry.versions[names[k]])
      invariant forall issue :: issue in issues <==> issue.version.Some? && issue.version.value in names[..i] && Present(s, id, issue)
    {
      var some := DirectoryIssues(s, id, names[i]);
      assert names[..i + 1] == names[..i] + [names[i]];
      issues := issues + some;
    }
    assert names[..|names|] == names;
    forall v | v in entry.versions ensures v in names {
      assert v in Elements(names);
    }
  }

  /** `plugin_store_status`: every issue that is there is reported, no other is, and "healthy" means there is none. */
  method StoreStatus(s: Store) returns (healthy: bool, issues: seq<Issue>)
    ensures healthy <==> Healthy(s)
    ensures healthy <==> issues == []
    ensures forall issue :: issue in issues <==> issue.pluginId in s.inventory.plugins && Present(s, issue.pluginId, issue)
  {
    var ids := SortedKeys(s.inventory.plugins.Keys);
    issues := [];
    for i := 0 to |ids|
      invariant forall k :: 0 <= k < |ids| ==> ids[k] in s.inventory.plugins
      invariant issues == [] <==> forall k :: 0 <= k < i ==> HealthyPlugin(s, ids[k])
      invariant forall issue :: issue in issues <==>
        issue.pluginId in ids[..i] && issue.pluginId in s.inventory.plugins && Present(s, issue.pluginId, issue)
    {
      var pointer := PointerIssues(s, ids[i]);
      var versions := VersionIssues(s, ids[i]);
      assert ids[..i + 1] == ids[..i] + [ids[i]];
      issues := issues + pointer + versions;
    }
    assert ids[..|ids|] == ids;
    forall id | id in s.inventory.plugins ensures id in ids {
      assert id in Elements(ids);
    }
    healthy := issues == [];
  }

  // ---------------------------------------------------------------- consistency

  predicate RecordedAt(inventory: Inventory, place: Location) {
    HasVersion(inventory, place.pluginId, place.version)
  }

  predicate PointsAt(s: Store, id: string, version: string) {
    id in s.pointers && s.pointers[id] == Pointer(id, version, Location(id, version))
  }

  ghost predicate EntryConsistent(s: Store, id: string)
    requires id in s.inventory.plugins
  {
    var entry := s.inventory.plugins[id];
    && ValidEntry(id, entry) && entry.active.Some?
    && PointsAt(s, id, entry.active.value)
    && forall v :: v in entry.versions ==> entry.versions[v].path == Location(id, v)
  }

  predicate Matched(s: Store, place: Location) {
    && (place in s.packages <==> RecordedAt(s.inventory, place))
    && (place in s.packages ==> Sound(s.packages[place]))
  }

  /**
   More than health: package directories and recorded versions correspond one
   to one, and exactly the installed plugins have a pointer, to their active version.
   */
  ghost predicate Consistent(s: Store) {
    && s.inventory.revision >= 0
    && (forall id {:trigger EntryConsistent(s, id)} :: id in s.inventory.plugins ==> EntryConsistent(s, id))
    && s.pointers.Keys == s.inventory.plugins.Keys
    && forall place {:trigger Matched(s, place)} :: Matched(s, place)
  }

  lemma {:induction false} ConsistentIsHealthy(s: Store)
    requires Consistent(s)
    ensures ValidInventory(s.inventory) && Healthy(s)
  {
    forall id | id in s.inventory.plugins ensures ValidEntry(id, s.inventory.plugins[id]) && HealthyPlugin(s, id) {
      assert EntryConsistent(s, id);
      forall v | v in s.inventory.plugins[id].versions ensures UnpackedAt(s, s.inventory.plugins[id].versions[v]) {
        assert Matched(s, Location(id, v));
      }
    }
  }

  lemma {:induction false} InstalledIsConsistent(s: Store, p: Package)
    requires Consistent(s) && CanInstall(s, p)
    ensures Consistent(Installed(s, p))
  {
    var after := Installed(s, p);
    forall id | id in after.inventory.plugins ensures EntryConsistent(after, id) {
      if id in s.inventory.plugins { assert EntryConsistent(s, id); }
    }
    forall place: Location ensures Matched(after, place) { assert Matched(s, place); }
  }

  lemma {:induction false} RolledBackIsConsistent(s: Store, id: string, target: string)
    requires Consistent(s) && CanRollBack(s, id, target)
    ensures Consistent(RolledBack(s, id, target))
  {
    var after := RolledBack(s, id, target);
    forall other | other in after.inventory.plugins ensures EntryConsistent(after, other) { assert EntryConsistent(s, other); }
    forall place: Location ensures Matched(after, place) { assert Matched(s, place); }
  }

  lemma {:induction false} RemovedEntries(s: Store, id: string, version: string, replacement: Option<string>, other: string)
    requires Consistent(s) && CanRemove(s, id, version, replacement)
    requires var after := Removed(s, id, version, replacement); other in after.inventory.plugins
    ensures EntryConsistent(Removed(s, id, version, replacement), other)
  {
    var entry := s.inventory.plugins[id];
    assert EntryConsistent(s, other) && EntryConsistent(s, id);
    if replacement.Some? && entry.active == Some(version) { assert replacement.value in Others(entry, version); }
  }

  lemma {:induction false} RemovedPlaces(s: Store, id: string, version: string, replacement: Option<string>, place: Location)
    requires Consistent(s) && CanRemove(s, id, version, replacement)
    ensures Matched(Removed(s, id, version, replacement), place)
  {
    var entry := s.inventory.plugins[id];
    assert EntryConsistent(s, id) && Matched(s, place);
    assert place.version in Others(entry, version) <==> place.version in entry.versions && place.version != version;
  }

  lemma {:induction false} RemovedIsConsistent(s: Store, id: string, version: string, replacement: Option<string>)
    requires Consistent(s) && CanRemove(s, id, version, replacement)
    ensures Consistent(Removed(s, id, version, replacement))
  {
    var after := Removed(s, id, version, replacement);
    assert EntryConsistent(s, id);
    forall other | other in after.inventory.plugins ensures EntryConsistent(after, other) {
      RemovedEntries(s, id, version, replacement, other);
    }
    forall place: Location ensures Matched(after, place) { RemovedPlaces(s, id, version, replacement, place); }
  }

  // ---------------------------------------------------------------- what a commit changes

  /** All but plugin `id` is as before, and the inventory counts one more change. */
  ghost predicate OnlyTouches(before: Store, after: Store, id: string) {
    && after.inventory.plugins - {id} == before.inventory.plugins - {id}
    && after.pointers - {id} == before.pointers - {id}
    && after.inventory.revision == before.inventory.revision + 1
  }

  /** After an installation the package is active, recorded, unpacked and pointed at; nothing was there before. */
  lemma {:induction false} InstalledIs(s: Store, p: Package)
    requires CanInstall(s, p)
    ensures var after, id, place := Installed(s, p), p.pluginId, Location(p.pluginId, p.version);
      && OnlyTouches(s, after, id) && id in after.inventory.plugins && id in after.pointers
      && after.inventory.plugins[id].active == Some(p.version) && p.version in after.inventory.plugins[id].versions
      && after.pointers[id] == Pointer(id, p.version, place)
      && place in after.packages && after.packages[place] == p.tree && after.packages - {place} == s.packages
    ensures var entry := Installed(s, p).inventory.plugins[p.pluginId];
      && entry.versions[p.version].packageSha256 == p.sha256 && entry.versions[p.version].source == p.source
      && entry.versions[p.version].version == p.version && entry.versions[p.version].path == Location(p.pluginId, p.version)
      && entry.versions - {p.version} == if p.pluginId in s.inventory.plugins then s.inventory.plugins[p.pluginId].versions else map[]
  {
    var after, place := Installed(s, p), Location(p.pluginId, p.version);
    assert after.packages - {place} == s.packages;
  }

  /** A rollback makes its target active and points at it, and that is all. */
  lemma {:induction false} RolledBackIs(s: Store, id: string, target: string)
    requires CanRollBack(s, id, target)
    ensures id in s.inventory.plugins && target in s.inventory.plugins[id].versions
    ensures var after, entry := RolledBack(s, id, target), s.inventory.plugins[id];
      && OnlyTouches(s, after, id) && after.packages == s.packages && id in after.inventory.plugins && id in after.pointers
      && after.inventory.plugins[id] == entry.(active := Some(target))
      && after.pointers[id] == Pointer(id, target, entry.versions[target].path)
  {
    assert ValidEntry(id, s.inventory.plugins[id]);
  }

  lemma {:induction false} OnlyKey<V>(m: map<string, V>, key: string)
    requires key in m
    ensures m - {key} == map[] <==> m.Keys == {key}
  {
    if m - {key} == map[] {
      forall k | k in m ensures k == key { assert k in m - {key} || k == key; }
    } else {
      assert exists k :: k in m - {key};
    }
  }

  /** A removal takes the version away, the plugin with its last version, and hands activity to the replacement. */
  lemma {:induction false} RemovedIs(s: Store, id: string, version: string, replacement: Option<string>)
    requires CanRemove(s, id, version, replacement)
    ensures id in s.inventory.plugins && version in s.inventory.plugins[id].versions
    ensures var after, entry := Removed(s, id, version, replacement), s.inventory.plugins[id];
      var path := entry.versions[version].path;
      && OnlyTouches(s, after, id) && path in s.packages && path !in after.packages
      && after.packages[path := s.packages[path]] == s.packages
      && (entry.versions.Keys == {version} <==> id !in after.inventory.plugins)
      && (entry.versions.Keys == {version} ==> id !in after.pointers)
    ensures var after, entry := Removed(s, id, version, replacement), s.inventory.plugins[id];
      id in after.inventory.plugins ==>
        && after.inventory.plugins[id].pluginId == id
        && after.inventory.plugins[id].versions == entry.versions - {version}
        && (entry.active == Some(version) ==> replacement.Some? && after.inventory.plugins[id].active == replacement)
        && (entry.active != Some(version) ==> after.inventory.plugins[id].active == entry.active)
        && match after.inventory.plugins[id].active
           case Some(v) =>
             && v != version && v in entry.versions
             && id in after.pointers && after.pointers[id] == Pointer(id, v, entry.versions[v].path)
           case None => after.pointers == s.pointers
  {
    var entry := s.inventory.plugins[id];
    assert ValidEntry(id, entry);
    OnlyKey(entry.versions, version);
  }

  /** In a consistent store the operations are possible exactly when these arguments make sense. */
  lemma {:induction false} WhenPossible(s: Store, p: Package, id: string, version: string, replacement: Option<string>)
    requires Consistent(s)
    ensures CanInstall(s, p) <==>
      && Sound(p.tree)
      && (p.pluginId in s.inventory.plugins ==> p.version !in s.inventory.plugins[p.pluginId].versions)
    ensures CanRollBack(s, id, version) <==> id in s.inventory.plugins && version in s.inventory.plugins[id].versions
    ensures CanRemove(s, id, version, replacement) <==>
      && id in s.inventory.plugins && version in s.inventory.plugins[id].versions
      && (s.inventory.plugins[id].active == Some(version) ==>
            if replacement.None? then s.inventory.plugins[id].versions.Keys == {version}
            else replacement.value in s.inventory.plugins[id].versions && replacement.value != version)
  {
    ConsistentIsHealthy(s);
    assert Matched(s, PlaceOf(p));
    if HasVersion(s.inventory, id, version) {
      var entry := s.inventory.plugins[id];
      assert EntryConsistent(s, id) && Matched(s, Location(id, version));
      OnlyKey(entry.versions, version);
    }
  }

  // ---------------------------------------------------------------- runs

  datatype Commit =
    | InstallCommit(package: Package)
    | RollbackCommit(pluginId: string, target: string)
    | RemoveCommit(pluginId: string, version: string, replacement: Option<string>)

  predicate Enabled(s: Store, c: Commit) {
    match c
    case InstallCommit(p) => CanInstall(s, p)
    case RollbackCommit(id, target) => CanRollBack(s, id, target)
    case RemoveCommit(id, version, replacement) => CanRemove(s, id, version, replacement)
  }

  function Apply(s: Store, c: Commit): Store
    requires Enabled(s, c)
  {
    match c
    case InstallCommit(p) => Installed(s, p)
    case RollbackCommit(id, target) => RolledBack(s, id, target)
    case RemoveCommit(id, version, replacement) => Removed(s, id, version, replacement)
  }

  const EMPTY := Store(Inventory(0, map[]), map[], map[])

  /** `s` is what the commits, one after the other, make of an initialized store. */
  ghost predicate Reaches(commits: seq<Commit>, s: Store) {
    if commits == [] then s == EMPTY
    else
      var last := commits[|commits| - 1];
      exists before {:trigger Reaches(commits[..|commits| - 1], before)} ::
        Reaches(commits[..|commits| - 1], before) && Enabled(before, last) && s == Apply(before, last)
  }

  lemma {:induction false} AppliedIsConsistent(s: Store, c: Commit)
    requires Consistent(s) && Enabled(s, c)
    ensures Consistent(Apply(s, c)) && Apply(s, c).inventory.revision == s.inventory.revision + 1
  {
    match c
    case InstallCommit(p) => InstalledIsConsistent(s, p);
    case RollbackCommit(id, target) => RolledBackIsConsistent(s, id, target);
    case RemoveCommit(id, version, replacement) => RemovedIsConsistent(s, id, version, replacement);
  }

  /** Every store reached by commits is healthy, one to one with its directories, and counts its commits. */
  lemma {:induction false} CommitsKeepTheStoreHealthy(commits: seq<Commit>, s: Store)
    requires Reaches(commits, s)
    ensures Consistent(s) && Healthy(s) && s.inventory.revision == |commits|
  {
    if commits == [] {
      forall place: Location ensures Matched(s, place) {}
    } else {
      var last := commits[|commits| - 1];
      var before :| Reaches(commits[..|commits| - 1], before) && Enabled(before, last) && s == Apply(before, last);
      CommitsKeepTheStoreHealthy(commits[..|commits| - 1], before);
      AppliedIsConsistent(before, last);
    }
    ConsistentIsHealthy(s);
  }

  // ---------------------------------------------------------------- what failures leave

  lemma {:induction false} PointerIsMissed(s: Store, id: string)
    requires id in s.inventory.plugins && id in s.pointers
    ensures var left := s.(pointers := s.pointers - {id}); !Healthy(left) && left != s
  {
    var left := s.(pointers := s.pointers - {id});
    assert !HealthyPlugin(left, id);
  }

  /** Without its pointer an installed plugin is unhealthy; of others nothing is lost. */
  lemma {:induction false} LostPointer(s: Store, id: string)
    requires Consistent(s)
    ensures var left := s.(pointers := s.pointers - {id});
      (Healthy(left) <==> id !in s.inventory.plugins) && (left == s <==> id !in s.inventory.plugins)
  {
    if id in s.inventory.plugins {
      assert EntryConsistent(s, id);
      PointerIsMissed(s, id);
    } else {
      ConsistentIsHealthy(s);
      assert s.pointers - {id} == s.pointers;
    }
  }

  /**
   In a consistent store a failed installation gives back inventory and
   directories, and leaves the store healthy exactly when it failed before the
   pointer write or the plugin had no earlier version.
   */
  lemma {:induction false} FailedInstall(s: Store, locked: bool, package: Option<Package>, faults: set<InstallStep>)
    requires Consistent(s)
    ensures var left := InstallUndone(s, locked, package, faults);
      && left.inventory == s.inventory && left.packages == s.packages
      && (package.None? ==> left == s)
      && (left == s <==> !NamesPointer(s, locked, package, faults) || package.value.pluginId !in s.inventory.plugins)
      && (Healthy(left) <==> left == s)
  {
    var left := InstallUndone(s, locked, package, faults);
    ConsistentIsHealthy(s);
    if NamesDirectory(s, locked, package, faults) {
      assert Matched(s, PlaceOf(package.value));
      LostPointer(s, package.value.pluginId);
    }
  }

  /**
   Of any store a failed installation changes at most the directory and the
   pointer it had named. A stray directory in its place is lost.
   */
  lemma {:induction false} FailedInstallIsLocal(s: Store, locked: bool, package: Option<Package>, faults: set<InstallStep>)
    ensures var left := InstallUndone(s, locked, package, faults);
      && left.inventory == s.inventory && (package.None? || locked ==> left == s)
      && (package.Some? ==>
            var id, place := package.value.pluginId, Location(package.value.pluginId, package.value.version);
            && left.pointers - {id} == s.pointers - {id} && left.packages - {place} == s.packages - {place}
            && (!locked && ValidInventory(s.inventory) && !HasVersion(s.inventory, id, package.value.version) && faults == {} ==>
                place !in left.packages))
  {
  }

  /** A failed rollback changes nothing exactly when it got as far as reading the pointer, or there was none to lose. */
  lemma {:induction false} FailedRollback(s: Store, locked: bool, id: string, target: string, faults: set<RollbackStep>)
    requires Consistent(s)
    ensures var left := RollbackUndone(s, locked, id, target, faults);
      && left.inventory == s.inventory && left.packages == s.packages && left.pointers - {id} == s.pointers - {id}
      && (left == s <==> BeforeCreated in faults || RollbackReadsPointer(s, locked, id, target, faults) || id !in s.inventory.plugins)
      && (Healthy(left) <==> left == s)
  {
    LostPointer(s, id);
    ConsistentIsHealthy(s);
  }

  lemma {:induction false} FailedRemoval(s: Store, locked: bool, id: string, version: string, replacement: Option<string>, faults: set<RemoveStep>)
    requires Consistent(s)
    ensures var left := RemovalUndone(s, locked, id, version, replacement, faults);
      && left.inventory == s.inventory && left.packages == s.packages && left.pointers - {id} == s.pointers - {id}
      && (left == s <==> OnCreated in faults || RemovalReadsPointer(s, locked, id, version, replacement, faults) || id !in s.inventory.plugins)
      && (Healthy(left) <==> left == s)
  {
    LostPointer(s, id);
    ConsistentIsHealthy(s);
  }

  lemma {:induction false} PutBack<V>(m: map<string, V>, id: string)
    requires id in m
    ensures (m - {id})[id := m[id]] == m
  {
  }

  lemma {:induction false} PutAgain<V>(m: map<string, V>, id: string)
    requires id in m
    ensures m[id := m[id]] == m
  {
  }

  /** Rolling back to the version that is active brings a lost pointer back. */
  lemma {:induction false} RollbackRepairs(s: Store, id: string)
    requires Consistent(s) && id in s.inventory.plugins
    ensures var left := s.(pointers := s.pointers - {id});
      var active := s.inventory.plugins[id].active;
      && active.Some? && CanRollBack(left, id, active.value)
      && RolledBack(left, id, active.value) == s.(inventory := s.inventory.(revision := s.inventory.revision + 1))
  {
    var entry := s.inventory.plugins[id];
    var left := s.(pointers := s.pointers - {id});
    assert EntryConsistent(s, id) && Matched(s, Location(id, entry.active.value));
    ConsistentIsHealthy(s);
    PutBack(s.pointers, id);
    PutAgain(s.inventory.plugins, id);
  }

  /**
   Rolling back to `target` and then to the formerly active version gives the
   store back but for the revision, exactly if the pointer had been that of the
   active version; in a consistent store it had.
   */
  lemma {:induction false} RollbackThereAndBack(s: Store, id: string, target: string, former: string)
    requires CanRollBack(s, id, target) && CanRollBack(s, id, former) && s.inventory.plugins[id].active == Some(former)
    ensures var there := RolledBack(s, id, target);
      && CanRollBack(there, id, former)
      && (RolledBack(there, id, former) == s.(inventory := s.inventory.(revision := s.inventory.revision + 2)) <==>
          id in s.pointers && s.pointers[id] == Pointer(id, former, s.inventory.plugins[id].versions[former].path))
    ensures Consistent(s) ==>
      id in s.pointers && s.pointers[id] == Pointer(id, former, s.inventory.plugins[id].versions[former].path)
  {
    var there := RolledBack(s, id, target);
    RolledBackIs(s, id, target);
    SavedInventoriesAreValid(s.inventory, Package(id, target, "", "", Tree(map[])), id, target, None);
    RolledBackIs(there, id, former);
    var back := RolledBack(there, id, former);
    assert back.inventory.plugins == s.inventory.plugins;
    assert back.pointers == s.pointers <==> id in s.pointers && s.pointers[id] == back.pointers[id];
    if Consistent(s) { assert EntryConsistent(s, id); }
  }

  lemma {:induction false} InstallCanBeRemoved(s: Store, p: Package)
    requires Consistent(s) && CanInstall(s, p)
    ensures var former := EntryOf(s.inventory, p.pluginId).active;
      && CanRemove(Installed(s, p), p.pluginId, p.version, former)
      && Others(Installed(s, p).inventory.plugins[p.pluginId], p.version) == EntryOf(s.inventory, p.pluginId).versions
  {
    InstalledIsConsistent(s, p);
    ConsistentIsHealthy(Installed(s, p));
    assert Others(Installed(s, p).inventory.plugins[p.pluginId], p.version) == EntryOf(s.inventory, p.pluginId).versions;
    if p.pluginId in s.inventory.plugins { assert EntryConsistent(s, p.pluginId); }
  }

  lemma {:induction false} RemovalUndoesInventory(inventory: Inventory, p: Package)
    requires ValidInventory(inventory) && !HasVersion(inventory, p.pluginId, p.version)
    requires p.pluginId in inventory.plugins ==> inventory.plugins[p.pluginId].versions != map[]
    ensures InventoryWithout(InventoryWith(inventory, p), p.pluginId, p.version, EntryOf(inventory, p.pluginId).active)
      == inventory.(revision := inventory.revision + 2)
  {
    var id, after := p.pluginId, InventoryWith(inventory, p);
    assert Others(after.plugins[id], p.version) == EntryOf(inventory, id).versions;
    var back := InventoryWithout(after, id, p.version, EntryOf(inventory, id).active);
    assert back.plugins == inventory.plugins;
  }

  lemma {:induction false} RemovalUndoesPointers(s: Store, p: Package)
    requires Consistent(s) && CanInstall(s, p)
    requires CanRemove(Installed(s, p), p.pluginId, p.version, EntryOf(s.inventory, p.pluginId).active)
    requires Others(Installed(s, p).inventory.plugins[p.pluginId], p.version) == EntryOf(s.inventory, p.pluginId).versions
    ensures PointersWithout(Installed(s, p), p.pluginId, p.version, EntryOf(s.inventory, p.pluginId).active) == s.pointers
  {
    if p.pluginId in s.inventory.plugins { assert EntryConsistent(s, p.pluginId); }
  }

  /** Removing what was just installed, with the former version taking over, gives the store back except for the revision. */
  lemma {:induction false} RemovalUndoesInstall(s: Store, p: Package)
    requires Consistent(s) && CanInstall(s, p)
    ensures var former := EntryOf(s.inventory, p.pluginId).active;
      && CanRemove(Installed(s, p), p.pluginId, p.version, former)
      && Removed(Installed(s, p), p.pluginId, p.version, former) == s.(inventory := s.inventory.(revision := s.inventory.revision + 2))
  {
    InstallCanBeRemoved(s, p);
    if p.pluginId in s.inventory.plugins { assert EntryConsistent(s, p.pluginId); }
    RemovalUndoesInventory(s.inventory, p);
    RemovalUndoesPointers(s, p);
  }

  /**
   An upgrade may go back: whatever the active version is, a package of lower
   precedence is refused only if that very version is installed, and becomes
   the active version beside the newer one.
   */
  lemma {:induction false} UpgradeMayGoBack(s: Store, p: Package, newer: Version, older: Version)
    requires Constructible(newer) && Printable(newer) && Constructible(older) && Printable(older) && VersionLess(older, newer)
    requires Consistent(s) && p.pluginId in s.inventory.plugins && Sound(p.tree) && p.version == Str(older)
    requires s.inventory.plugins[p.pluginId].active == Some(Str(newer))
    ensures Str(older) != Str(newer)
    ensures CanInstall(s, p) <==> Str(older) !in s.inventory.plugins[p.pluginId].versions
    ensures CanInstall(s, p) ==>
      && Installed(s, p).inventory.plugins[p.pluginId].active == Some(Str(older))
      && Installed(s, p).inventory.plugins[p.pluginId].versions.Keys
         == s.inventory.plugins[p.pluginId].versions.Keys + {Str(older)}
      && Str(newer) in Installed(s, p).inventory.plugins[p.pluginId].versions
  {
    PrecedenceShowsInText(older, newer);
    ConsistentIsHealthy(s);
    assert EntryConsistent(s, p.pluginId);
    assert Matched(s, PlaceOf(p));
  }
}
