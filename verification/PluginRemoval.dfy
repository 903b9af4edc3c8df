/** `remove_plugin`: removes the versions of a plugin one by one. */
module PluginRemoval {
  import opened Wrappers
  import opened Ordering
  import opened StoreModel
  import opened PluginStore
  import opened StoreProperties

  ghost function PackagesLeft(packages: map<Location, Tree>, id: string, left: set<string>): map<Location, Tree> {
    map place | place in packages && (place.pluginId == id ==> place.version in left) :: packages[place]
  }

  /** `s` is `start` with all versions of plugin `id` removed but those in `left`. */
  ghost predicate DrainedTo(start: Store, s: Store, id: string, left: set<string>) {
    && Consistent(s)
    && s.inventory.plugins - {id} == start.inventory.plugins - {id}
    && s.pointers - {id} == start.pointers - {id}
    && s.packages == PackagesLeft(start.packages, id, left)
    && (id in s.inventory.plugins <==> left != {})
    && (left != {} ==> s.inventory.plugins[id].versions.Keys == left)
  }

  lemma {:induction false} DrainStep(start: Store, s: Store, id: string, left: set<string>, version: string, replacement: Option<string>)
    requires DrainedTo(start, s, id, left) && version in left
    requires CanRemove(s, id, version, replacement)
    ensures DrainedTo(start, Removed(s, id, version, replacement), id, left - {version})
  {
    var after := Removed(s, id, version, replacement);
    RemovedIsConsistent(s, id, version, replacement);
    assert EntryConsistent(s, id);
    assert after.inventory.plugins - {id} == s.inventory.plugins - {id};
    assert after.pointers - {id} == s.pointers - {id};
    assert after.packages == PackagesLeft(start.packages, id, left - {version});
    assert Others(s.inventory.plugins[id], version).Keys == left - {version};
    assert Others(s.inventory.plugins[id], version) == map[] <==> left - {version} == {};
  }

  predicate SameAt(a: Store, b: Store, place: Location) {
    && (place in a.packages <==> place in b.packages)
    && (place in a.packages && place in b.packages ==> a.packages[place] == b.packages[place])
  }

  /** The other plugins: their entries, pointers and directories. */
  ghost predicate OthersUntouched(start: Store, s: Store, id: string) {
    && s.inventory.plugins - {id} == start.inventory.plugins - {id}
    && s.pointers - {id} == start.pointers - {id}
    && forall place: Location {:trigger SameAt(start, s, place)} :: place.pluginId != id ==> SameAt(start, s, place)
  }

  lemma {:induction false} DrainLeavesOthers(start: Store, s: Store, id: string, left: set<string>)
    requires DrainedTo(start, s, id, left)
    ensures OthersUntouched(start, s, id) && OthersUntouched(start, s.(pointers := s.pointers - {id}), id)
  {
    assert (s.pointers - {id}) - {id} == s.pointers - {id};
  }

  lemma {:induction false} NothingDrainedYet(s: Store, id: string)
    requires Consistent(s) && id in s.inventory.plugins
    ensures DrainedTo(s, s, id, s.inventory.plugins[id].versions.Keys)
  {
    assert EntryConsistent(s, id);
    forall place | place in s.packages && place.pluginId == id ensures place.version in s.inventory.plugins[id].versions {
      assert Matched(s, place);
    }
  }

  /** With the last of the remaining versions as replacement, if one is needed, the removal is never refused. */
  lemma {:induction false} NextCanBeRemoved(start: Store, s: Store, id: string, left: set<string>, version: string, replacement: Option<string>)
    requires DrainedTo(start, s, id, left) && version in left
    requires s.inventory.plugins[id].active == Some(version) ==>
      if replacement.Some? then replacement.value in left && replacement.value != version else left <= {version}
    ensures CanRemove(s, id, version, replacement) && WritesPointer(s.inventory, id, version, replacement)
  {
    ConsistentIsHealthy(s);
    var entry := s.inventory.plugins[id];
    assert EntryConsistent(s, id) && Matched(s, Location(id, version));
    if left <= {version} {
      assert Others(entry, version).Keys == {};
    }
  }

  /** What `replacement` is for the version about to go: the greatest of the other versions if it is the active one. */
  method ReplacementFor(current: Entry, version: string) returns (replacement: Option<string>)
    ensures replacement.Some? <==> current.active == Some(version) && !(current.versions.Keys <= {version})
    ensures replacement.Some? ==> replacement.value in current.versions && replacement.value != version
    ensures replacement.Some? ==> forall v :: v in current.versions && v != version ==> v == replacement.value || Less(v, replacement.value)
  {
    replacement := None;
    if current.active == Some(version) {
      var remaining := SortedKeys(current.versions.Keys - {version});
      ElementsEmpty(remaining);
      if remaining != [] {
        replacement := Some(remaining[|remaining| - 1]);
        assert replacement.value in Elements(remaining);
        forall v | v in current.versions && v != version ensures v == replacement.value || Less(v, replacement.value) {
          assert v in Elements(remaining);
        }
      }
    }
  }

  ghost predicate Sane(s: Store) {
    Consistent(s) && Healthy(s)
  }

  ghost predicate AllHealthy(passed: seq<Store>) {
    forall k {:trigger Sane(passed[k])} :: 0 <= k < |passed| ==> Sane(passed[k])
  }

  /** The versions in `names[..i]` are left; `passed` are the states between the removals so far. */
  ghost predicate Draining(start: Store, s: Store, id: string, names: seq<string>, i: nat, passed: seq<Store>) {
    && i <= |names| && StrictlySorted(names)
    && DrainedTo(start, s, id, Elements(names[..i]))
    && s.inventory.revision == start.inventory.revision + |names| - i
    && AllHealthy(passed) && |passed| == |names| - i + 1 && passed[|passed| - 1] == s
  }

  lemma {:induction false} DrainingMore(start: Store, s: Store, after: Store, id: string, names: seq<string>, i: nat, passed: seq<Store>)
    requires Draining(start, s, id, names, i + 1, passed)
    requires DrainedTo(start, after, id, Elements(names[..i])) && after.inventory.revision == s.inventory.revision + 1
    ensures Draining(start, after, id, names, i, passed + [after])
  {
    ConsistentIsHealthy(after);
  }

  lemma {:induction false} LastOfPrefix(names: seq<string>, i: nat)
    requires StrictlySorted(names) && i < |names|
    ensures names[i] in Elements(names[..i + 1])
    ensures Elements(names[..i]) == Elements(names[..i + 1]) - {names[i]}
    ensures i > 0 ==> Elements(names[..i]) != {}
  {
    SortedHasNoDuplicates(names);
    assert names[..i + 1] == names[..i] + [names[i]];
    assert names[i] == names[..i + 1][i];
    ElementsEmpty(names[..i]);
  }

  lemma {:induction false} DrainingStep(start: Store, s: Store, id: string, names: seq<string>, i: nat, passed: seq<Store>,
                                        replacement: Option<string>)
    requires Draining(start, s, id, names, i + 1, passed)
    requires CanRemove(s, id, names[i], replacement)
    ensures var after := Removed(s, id, names[i], replacement); Draining(start, after, id, names, i, passed + [after])
  {
    LastOfPrefix(names, i);
    DrainStep(start, s, id, Elements(names[..i + 1]), names[i], replacement);
    DrainingMore(start, s, Removed(s, id, names[i], replacement), id, names, i, passed);
  }

  /** One turn of the loop: removes version `names[i]`, the last one left. */
  method RemoveNext(store: PluginStore, id: string, names: seq<string>, i: nat, struck: set<RemoveStep>,
                    ghost start: Store, ghost passed: seq<Store>)
    returns (removed: Result<(), Failure>)
    requires store.Resting() && i < |names| && Draining(start, store.Snapshot(), id, names, i + 1, passed)
    modifies store
    ensures store.Resting() && store.locked == old(store.locked)
    ensures removed.Success? <==> !store.locked && struck == {}
    ensures removed.Success? ==> Draining(start, store.Snapshot(), id, names, i, passed + [store.Snapshot()])
    ensures removed.Failure? ==> OthersUntouched(start, store.Snapshot(), id)
  {
    ghost var before, left := store.Snapshot(), Elements(names[..i + 1]);
    LastOfPrefix(names, i);
    // The plugin cannot have vanished meanwhile, so the loop's early exit is never taken.
    var replacement := ReplacementFor(store.inventory.plugins[id], names[i]);
    NextCanBeRemoved(start, before, id, left, names[i], replacement);
    removed := store.RemoveVersion(id, names[i], replacement, struck);
    if removed.Success? {
      DrainingStep(start, before, id, names, i, passed, replacement);
    } else {
      DrainLeavesOthers(start, before, id, left);
    }
  }

  ghost predicate NoFaults(faults: map<string, set<RemoveStep>>, names: seq<string>, i: nat)
    requires i <= |names|
  {
    forall k :: i <= k < |names| && names[k] in faults ==> faults[names[k]] == {}
  }

  /** The loop over the versions, from the last one down. */
  method RemoveAll(store: PluginStore, id: string, names: seq<string>, faults: map<string, set<RemoveStep>>, ghost start: Store)
    returns (failed: Option<Failure>, ghost passed: seq<Store>)
    requires store.Resting() && store.Snapshot() == start && names != []
    requires Draining(start, start, id, names, |names|, [start])
    modifies store
    ensures store.Resting() && store.locked == old(store.locked) && AllHealthy(passed)
    ensures failed.None? <==> !store.locked && NoFaults(faults, names, 0)
    ensures failed.None? ==> Draining(start, store.Snapshot(), id, names, 0, passed)
    ensures failed.Some? ==> OthersUntouched(start, store.Snapshot(), id)
  {
    passed := [start];
    for i := |names| downto 0
      invariant store.Resting() && store.locked == old(store.locked)
      invariant Draining(start, store.Snapshot(), id, names, i, passed)
      invariant i < |names| ==> !store.locked
      invariant NoFaults(faults, names, i)
    {
      var struck := if names[i] in faults then faults[names[i]] else {};
      var removed := RemoveNext(store, id, names, i, struck, start, passed);
      if removed.Failure? {
        return Some(removed.error), passed;
      }
      passed := passed + [store.Snapshot()];
    }
    return None, passed;
  }

  lemma {:induction false} HasSomeVersion(s: Store, id: string, names: seq<string>)
    requires Consistent(s) && id in s.inventory.plugins && Elements(names) == s.inventory.plugins[id].versions.Keys
    ensures names != []
  {
    assert EntryConsistent(s, id);
    ElementsEmpty(names);
  }

  lemma {:induction false} DrainedNothing(s: Store, id: string)
    ensures OthersUntouched(s, s, id)
  {
  }

  lemma {:induction false} DrainingStarts(s: Store, id: string, names: seq<string>)
    requires Consistent(s) && id in s.inventory.plugins && names == Sorted(s.inventory.plugins[id].versions.Keys)
    ensures names != [] && Draining(s, s, id, names, |names|, [s])
  {
    NothingDrainedYet(s, id);
    assert names[..|names|] == names;
    DrainedNothing(s, id);
    HasSomeVersion(s, id, names);
    ConsistentIsHealthy(s);
  }

  /**
   `remove_plugin` on a consistent store: unless the store is locked or a fault
   strikes it drains the plugin, passing only through healthy states, and in
   every case it leaves the other plugins alone.
   */
  method RemovePlugin(store: PluginStore, id: string, faults: map<string, set<RemoveStep>>)
    returns (r: Result<seq<string>, Failure>, ghost passed: seq<Store>)
    requires store.Resting() && Consistent(store.Snapshot())
    modifies store
    ensures store.Resting() && store.locked == old(store.locked) && AllHealthy(passed)
    ensures OthersUntouched(old(store.Snapshot()), store.Snapshot(), id)
    ensures id !in old(store.inventory.plugins) ==> r == Failure(NotInstalled) && store.Snapshot() == old(store.Snapshot())
    ensures r.Success? <==>
      && id in old(store.inventory.plugins) && !store.locked
      && NoFaults(faults, Sorted(old(store.inventory.plugins[id].versions.Keys)), 0)
    ensures r.Success? ==>
      && DrainedTo(old(store.Snapshot()), store.Snapshot(), id, {})
      && id !in store.inventory.plugins && id !in store.pointers
      && (forall place :: place in store.packages ==> place.pluginId != id)
      && r.value == Sorted(old(store.inventory.plugins[id].versions.Keys))
      && store.inventory.revision == old(store.inventory.revision) + |r.value|
      && |passed| == |r.value| + 1 && passed[|passed| - 1] == store.Snapshot()
  {
    ghost var start := store.Snapshot();
    passed := [];
    ConsistentIsHealthy(start);
    DrainedNothing(start, id);
    if id !in store.inventory.plugins {
      return Failure(NotInstalled), [];
    }
    var names := SortedKeys(store.inventory.plugins[id].versions.Keys);
    DrainingStarts(start, id, names);
    var failed;
    failed, passed := RemoveAll(store, id, names, faults, start);
    if failed.Some? {
      return Failure(failed.value), passed;
    }
    DrainLeavesOthers(start, store.Snapshot(), id, {});
    return Success(names), passed;
  }
}
