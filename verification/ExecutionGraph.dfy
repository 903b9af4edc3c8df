/**
 The task dependency graph: validation by peeling, and execution waves.
 */
module ExecutionGraph {
  import opened Wrappers
  import opened Ordering

  /** What the graph algorithms read of a task. */
  datatype TaskNode = TaskNode(id: string, dependsOn: seq<string>)

  datatype GraphError =
    | DuplicateIds
    | UnknownDependencies(task: string, unknown: seq<string>)
    | SelfDependency(task: string)
    | HasCycle
    | CannotMakeProgress

  type Graph = map<string, set<string>>

  function Ids(nodes: seq<TaskNode>): set<string> {
    set n | n in nodes :: n.id
  }

  /** `{task.task_id: set(task.depends_on) for task in tasks}`: the last task with an id wins. */
  function GraphOf(nodes: seq<TaskNode>): (g: Graph)
    ensures g.Keys == Ids(nodes)
  {
    if nodes == [] then map[]
    else
      var init, last := nodes[..|nodes| - 1], nodes[|nodes| - 1];
      assert nodes == init + [last];
      GraphOf(init)[last.id := Elements(last.dependsOn)]
  }

  predicate UniqueIds(nodes: seq<TaskNode>) {
    forall i, j :: 0 <= i < j < |nodes| ==> nodes[i].id != nodes[j].id
  }

  predicate DependenciesKnown(nodes: seq<TaskNode>) {
    forall n :: n in nodes ==> Elements(n.dependsOn) <= Ids(nodes)
  }

  /** `p[i+1]` is a dependency of `p[i]`. */
  ghost predicate IsChain(g: Graph, p: seq<string>) {
    && (forall i :: 0 <= i < |p| ==> p[i] in g)
    && (forall i :: 0 <= i < |p| - 1 ==> p[i + 1] in g[p[i]])
  }

  ghost predicate IsCycle(g: Graph, p: seq<string>) {
    |p| >= 2 && p[0] == p[|p| - 1] && IsChain(g, p)
  }

  ghost predicate Cyclic(g: Graph) {
    exists p :: IsCycle(g, p)
  }

  /** The graph the runtime accepts. */
  ghost predicate Valid(nodes: seq<TaskNode>) {
    UniqueIds(nodes) && DependenciesKnown(nodes) && !Cyclic(GraphOf(nodes))
  }

  ghost predicate Closed(g: Graph) {
    forall t :: t in g ==> g[t] <= g.Keys
  }

  /** What `k` rounds of peeling have removed. */
  ghost function Done(g: Graph, k: nat): (r: set<string>)
    ensures r <= g.Keys
  {
    if k == 0 then {} else set t | t in g && g[t] <= Done(g, k - 1)
  }

  /** The tasks that become ready in round `k`. */
  ghost function Wave(g: Graph, k: nat): set<string> {
    Done(g, k + 1) - Done(g, k)
  }

  lemma {:induction false} DoneGrows(g: Graph, k: nat, m: nat)
    requires k <= m
    ensures Done(g, k) <= Done(g, m)
  {
    if 0 < k { DoneGrows(g, k - 1, m - 1); }
  }

  lemma {:induction false} DoneStable(g: Graph, k: nat, m: nat)
    requires Wave(g, k) == {} && k <= m
    ensures Done(g, m) == Done(g, k)
  {
    DoneGrows(g, k, k + 1);
    assert Done(g, k + 1) == Done(g, k) + Wave(g, k);
    if k + 1 < m {
      DoneStable(g, k, m - 1);
      assert forall t :: t in Done(g, m) <==> t in Done(g, k + 1);
    }
  }

  lemma {:induction false} GraphOfUnique(nodes: seq<TaskNode>, i: nat)
    requires UniqueIds(nodes) && i < |nodes|
    ensures GraphOf(nodes)[nodes[i].id] == Elements(nodes[i].dependsOn)
  {
    if i < |nodes| - 1 { GraphOfUnique(nodes[..|nodes| - 1], i); }
  }

  lemma {:induction false} KnownIsClosed(nodes: seq<TaskNode>)
    requires UniqueIds(nodes)
    ensures DependenciesKnown(nodes) <==> Closed(GraphOf(nodes))
  {
    forall i | 0 <= i < |nodes|
      ensures GraphOf(nodes)[nodes[i].id] == Elements(nodes[i].dependsOn)
    {
      GraphOfUnique(nodes, i);
    }
  }

  // ---------------------------------------------------------------- cycles

  lemma {:induction false} Walk(g: Graph, stuck: set<string>, n: nat) returns (p: seq<string>)
    requires stuck != {} && stuck <= g.Keys
    requires forall t :: t in stuck ==> g[t] * stuck != {}
    ensures |p| == n + 1 && IsChain(g, p) && Elements(p) <= stuck
  {
    if n == 0 {
      var t :| t in stuck;
      p := [t];
    } else {
      var q := Walk(g, stuck, n - 1);
      assert q[|q| - 1] in Elements(q);
      var d :| d in g[q[|q| - 1]] * stuck;
      p := q + [d];
    }
  }

  lemma {:induction false} SubsetCount<T>(a: set<T>, b: set<T>)
    requires a <= b
    ensures |a| <= |b|
  {
    assert b == a + (b - a);
  }

  /** A set of tasks that all wait for one another contains a cycle. */
  lemma {:induction false} StuckGivesCycle(g: Graph, stuck: set<string>)
    requires stuck != {} && stuck <= g.Keys
    requires forall t :: t in stuck ==> g[t] * stuck != {}
    ensures Cyclic(g)
  {
    var p := Walk(g, stuck, |stuck|);
    ElementsCount(p);
    SubsetCount(Elements(p), stuck);
    var i, j :| 0 <= i < j < |p| && p[i] == p[j];
    var c := p[i..j + 1];
    forall m | 0 <= m < |c| - 1 ensures c[m] in g && c[m + 1] in g[c[m]] {
      assert c[m] == p[i + m] && c[m + 1] == p[i + m + 1];
    }
    assert IsCycle(g, c);
  }

  /** No task on a cycle is ever peeled. */
  lemma {:induction false} CycleNeverDone(g: Graph, p: seq<string>, k: nat)
    requires IsCycle(g, p)
    ensures forall i :: 0 <= i < |p| ==> p[i] !in Done(g, k)
  {
    if 0 < k {
      CycleNeverDone(g, p, k - 1);
      forall i | 0 <= i < |p| ensures p[i] !in Done(g, k) {
        var j := if i == |p| - 1 then 0 else i;
        assert p[j + 1] in g[p[j]];
      }
    }
  }

  /** Peeling empties the graph exactly when it is closed and has no cycle. */
  lemma {:induction false} PeelingDecides(g: Graph, k: nat)
    requires Wave(g, k) == {}
    ensures Done(g, k) == g.Keys <==> Closed(g) && !Cyclic(g)
  {
    if Done(g, k) == g.Keys {
      if Cyclic(g) {
        var p :| IsCycle(g, p);
        CycleNeverDone(g, p, k);
        assert p[0] in g;
      }
      DoneGrows(g, k, k + 1);
      forall t | t in g ensures g[t] <= g.Keys { assert t in Done(g, k + 1); }
    } else if Closed(g) {
      var stuck := g.Keys - Done(g, k);
      forall t | t in stuck ensures g[t] * stuck != {} {
        assert t !in Done(g, k) && t !in Wave(g, k) && t !in Done(g, k + 1);
        var d :| d in g[t] && d !in Done(g, k);
        assert d in g[t] * stuck;
      }
      StuckGivesCycle(g, stuck);
    }
  }

  // ---------------------------------------------------------------- longest chains

  /** A chain of `n` dependency steps starts at `t`. */
  ghost predicate HasChain(g: Graph, t: string, n: nat) {
    exists p :: |p| == n + 1 && p[0] == t && IsChain(g, p)
  }

  lemma {:induction false} DoneBoundsChains(g: Graph, t: string, k: nat)
    requires Closed(g) && t in g
    ensures t in Done(g, k) <==> !HasChain(g, t, k)
    decreases k
  {
    if k == 0 {
      assert IsChain(g, [t]);
    } else {
      if t in Done(g, k) && HasChain(g, t, k) {
        var p :| |p| == k + 1 && p[0] == t && IsChain(g, p);
        assert p[1] in g[t];
        DoneBoundsChains(g, p[1], k - 1);
        assert IsChain(g, p[1..]);
      }
      if t !in Done(g, k) {
        var d :| d in g[t] && d !in Done(g, k - 1);
        DoneBoundsChains(g, d, k - 1);
        var p :| |p| == k && p[0] == d && IsChain(g, p);
        assert IsChain(g, [t] + p);
      }
    }
  }

  /** Wave `k` holds the tasks whose longest dependency chain has `k` steps. */
  lemma {:induction false} WaveIsLongestChain(g: Graph, t: string, k: nat)
    requires Closed(g) && t in g
    ensures t in Wave(g, k) <==> HasChain(g, t, k) && forall n: nat :: k < n ==> !HasChain(g, t, n)
  {
    DoneBoundsChains(g, t, k);
    DoneBoundsChains(g, t, k + 1);
    if t in Done(g, k + 1) {
      forall n: nat | k < n ensures !HasChain(g, t, n) {
        DoneGrows(g, k + 1, n);
        DoneBoundsChains(g, t, n);
      }
    }
  }

  // ---------------------------------------------------------------- waves

  lemma {:induction false} SubsetStrict<T>(a: set<T>, b: set<T>)
    requires a < b
    ensures |a| < |b|
  {
    SubsetCount(a, b);
    assert b == a + (b - a);
    var x :| x in b - a;
  }

  lemma {:induction false} WaveShrinks(g: Graph, k: nat)
    requires Wave(g, k) != {}
    ensures |g.Keys - Done(g, k + 1)| < |g.Keys - Done(g, k)|
  {
    DoneGrows(g, k, k + 1);
    var x :| x in Wave(g, k);
    assert x in g.Keys - Done(g, k);
    SubsetStrict(g.Keys - Done(g, k + 1), g.Keys - Done(g, k));
  }

  /** The waves from round `k` on, until a round finds nothing ready. */
  ghost function WavesFrom(g: Graph, k: nat): seq<seq<string>>
    decreases |g.Keys - Done(g, k)|
  {
    if Wave(g, k) == {} then []
    else
      WaveShrinks(g, k);
      [Sorted(Wave(g, k))] + WavesFrom(g, k + 1)
  }

  ghost function Waves(g: Graph): seq<seq<string>> {
    WavesFrom(g, 0)
  }

  lemma {:induction false} WavesFromAt(g: Graph, k: nat, i: nat)
    requires i < |WavesFrom(g, k)|
    ensures WavesFrom(g, k)[i] == Sorted(Wave(g, k + i)) && Wave(g, k + i) != {}
    decreases i
  {
    if 0 < i { WavesFromAt(g, k + 1, i - 1); }
  }

  lemma {:induction false} WavesFromEnd(g: Graph, k: nat)
    ensures Wave(g, k + |WavesFrom(g, k)|) == {}
    decreases |WavesFrom(g, k)|
  {
    if Wave(g, k) != {} { WavesFromEnd(g, k + 1); }
  }

  /** The waves are the levels of the graph, sorted, and cover it when it is valid. */
  lemma {:induction false} WavesAre(g: Graph)
    ensures forall k :: 0 <= k < |Waves(g)| ==> Waves(g)[k] == Sorted(Wave(g, k)) && Waves(g)[k] != []
    ensures Done(g, |Waves(g)|) == g.Keys <==> Closed(g) && !Cyclic(g)
  {
    WavesFromEnd(g, 0);
    PeelingDecides(g, |Waves(g)|);
    forall k | 0 <= k < |Waves(g)| ensures Waves(g)[k] == Sorted(Wave(g, k)) && Waves(g)[k] != [] {
      WavesFromAt(g, 0, k);
    }
  }

  // ---------------------------------------------------------------- the algorithms

  method CheckIds(nodes: seq<TaskNode>) returns (unique: bool, ids: set<string>)
    ensures unique <==> UniqueIds(nodes)
    ensures unique ==> ids == Ids(nodes)
  {
    ids := {};
    for i := 0 to |nodes|
      invariant ids == Ids(nodes[..i])
      invariant UniqueIds(nodes[..i])
    {
      assert nodes[..i + 1] == nodes[..i] + [nodes[i]];
      if nodes[i].id in ids {
        return false, ids;
      }
      ids := ids + {nodes[i].id};
    }
    assert nodes[..|nodes|] == nodes;
    unique := true;
  }

  method CheckDependencies(nodes: seq<TaskNode>, ids: set<string>) returns (r: Result<(), GraphError>)
    requires UniqueIds(nodes) && ids == Ids(nodes)
    ensures r.Success? ==> DependenciesKnown(nodes)
    ensures r.Failure? ==> r.error.UnknownDependencies? || r.error.SelfDependency?
    ensures r.Failure? && r.error.UnknownDependencies? ==>
      !DependenciesKnown(nodes) && exists i | 0 <= i < |nodes| ::
        nodes[i].id == r.error.task && r.error.unknown == Sorted(Elements(nodes[i].dependsOn) - ids) != []
    ensures r.Failure? && r.error.SelfDependency? ==> IsCycle(GraphOf(nodes), [r.error.task, r.error.task])
  {
    for i := 0 to |nodes|
      invariant forall j :: 0 <= j < i ==> Elements(nodes[j].dependsOn) <= ids
    {
      var unknown := Elements(nodes[i].dependsOn) - ids;
      if unknown != {} {
        var listing := SortedKeys(unknown);
        ElementsEmpty(listing);
        return Failure(UnknownDependencies(nodes[i].id, listing));
      }
      assert Elements(nodes[i].dependsOn) <= ids by {
        assert forall d :: d in Elements(nodes[i].dependsOn) ==> d !in unknown;
      }
      if nodes[i].id in nodes[i].dependsOn {
        GraphOfUnique(nodes, i);
        return Failure(SelfDependency(nodes[i].id));
      }
    }
    r := Success(());
  }

  /** The dependency sets after `k` rounds of `difference_update`. */
  ghost function PeeledTo(g: Graph, k: nat): Graph {
    map t | t in g && t !in Done(g, k) :: g[t] - Done(g, k)
  }

  lemma {:induction false} PeelRound(g: Graph, k: nat)
    ensures (set t | t in PeeledTo(g, k) && PeeledTo(g, k)[t] == {}) == Wave(g, k)
    ensures PeeledTo(g, k + 1)
      == map t | t in PeeledTo(g, k) && t !in Wave(g, k) :: PeeledTo(g, k)[t] - Wave(g, k)
  {
    DoneGrows(g, k, k + 1);
    assert Done(g, k + 1) == Done(g, k) + Wave(g, k);
    forall t | t in g ensures g[t] - Done(g, k) == {} <==> g[t] <= Done(g, k) {
      assert g[t] <= Done(g, k) + (g[t] - Done(g, k));
    }
    forall t | t in g ensures g[t] - Done(g, k + 1) == g[t] - Done(g, k) - Wave(g, k) {}
  }

  method Peel(g: Graph) returns (cyclic: bool)
    requires Closed(g)
    ensures cyclic <==> Cyclic(g)
  {
    var pending := g;
    ghost var k: nat := 0;
    assert pending == PeeledTo(g, 0) by {
      forall t | t in g ensures g[t] - Done(g, 0) == g[t] {}
    }
    while pending.Keys != {}
      invariant pending == PeeledTo(g, k)
      decreases |pending.Keys|
    {
      PeelRound(g, k);
      var ready := SortedKeys(set t | t in pending && pending[t] == {});
      ElementsEmpty(ready);
      if ready == [] {
        PeelingDecides(g, k);
        return true;
      }
      var popped := Elements(ready);
      var rest := map t | t in pending && t !in popped :: pending[t] - popped;
      assert ready[0] in popped;
      SubsetStrict(rest.Keys, pending.Keys);
      pending := rest;
      k := k + 1;
    }
    DoneGrows(g, k, k + 1);
    assert Done(g, k) == g.Keys;
    PeelingDecides(g, k);
    cyclic := false;
  }

  method ValidateGraph(nodes: seq<TaskNode>) returns (r: Result<(), GraphError>)
    ensures r.Success? <==> Valid(nodes)
    ensures r == Failure(DuplicateIds) <==> !UniqueIds(nodes)
    ensures r.Failure? && r.error.UnknownDependencies? ==>
      !DependenciesKnown(nodes) && exists i | 0 <= i < |nodes| ::
        nodes[i].id == r.error.task && r.error.unknown == Sorted(Elements(nodes[i].dependsOn) - Ids(nodes)) != []
    ensures r.Failure? && r.error.SelfDependency? ==> IsCycle(GraphOf(nodes), [r.error.task, r.error.task])
    ensures r == Failure(HasCycle) ==> DependenciesKnown(nodes) && Cyclic(GraphOf(nodes))
    ensures r.Failure? ==> r.error != CannotMakeProgress
  {
    var unique, ids := CheckIds(nodes);
    if !unique {
      return Failure(DuplicateIds);
    }
    r := CheckDependencies(nodes, ids);
    if r.Failure? {
      return;
    }
    KnownIsClosed(nodes);
    var cyclic := Peel(GraphOf(nodes));
    r := if cyclic then Failure(HasCycle) else Success(());
  }

  /** The pending tasks whose dependencies are all completed. */
  function Ready(pending: Graph, completed: set<string>): set<string> {
    set t | t in pending && pending[t] <= completed
  }

  lemma {:induction false} WaveRound(g: Graph, k: nat)
    ensures Ready(g - Done(g, k), Done(g, k)) == Wave(g, k)
    ensures Done(g, k) + Wave(g, k) == Done(g, k + 1)
    ensures (g - Done(g, k)) - Wave(g, k) == g - Done(g, k + 1)
  {
    DoneGrows(g, k, k + 1);
  }

  lemma {:induction false} WavesEnd(g: Graph, k: nat)
    requires k <= |Waves(g)| && Closed(g) && !Cyclic(g)
    ensures k == |Waves(g)| <==> Done(g, k) == g.Keys
    ensures k < |Waves(g)| ==> Waves(g)[k] == Sorted(Wave(g, k)) && Waves(g)[k] != []
  {
    WavesAre(g);
    if k < |Waves(g)| && Done(g, k) == g.Keys {
      assert Wave(g, k) == {};
      ElementsEmpty(Waves(g)[k]);
    }
  }

  lemma {:induction false} ExtendPrefix<T>(s: seq<T>, all: seq<T>, x: T)
    requires s < all && x == all[|s|]
    ensures s + [x] <= all
  {
  }

  /** The loop's state after `|waves|` rounds. */
  ghost predicate Peeling(g: Graph, waves: seq<seq<string>>, pending: Graph, completed: set<string>) {
    && waves <= Waves(g)
    && completed == Done(g, |waves|)
    && pending == g - completed
  }

  lemma {:induction false} PeelingStep(g: Graph, waves: seq<seq<string>>, pending: Graph, completed: set<string>, ready: seq<string>)
    requires Closed(g) && !Cyclic(g) && Peeling(g, waves, pending, completed) && pending.Keys != {}
    requires ready == Sorted(Ready(pending, completed))
    ensures ready != [] && |waves| < |Waves(g)|
    ensures Peeling(g, waves + [ready], pending - Elements(ready), completed + Elements(ready))
  {
    assert pending.Keys == g.Keys - completed;
    WavesEnd(g, |waves|);
    WaveRound(g, |waves|);
    ExtendPrefix(waves, Waves(g), ready);
  }

  lemma {:induction false} PeelingEnd(g: Graph, waves: seq<seq<string>>, pending: Graph, completed: set<string>)
    requires Closed(g) && !Cyclic(g) && Peeling(g, waves, pending, completed) && pending.Keys == {}
    ensures waves == Waves(g)
  {
    forall t | t in g ensures t in completed { assert t !in pending; }
    assert completed == g.Keys;
    WavesEnd(g, |waves|);
  }

  method PeelWaves(g: Graph) returns (r: Result<seq<seq<string>>, GraphError>)
    requires Closed(g) && !Cyclic(g)
    ensures r == Success(Waves(g))
  {
    var pending := g;
    var waves: seq<seq<string>> := [];
    var completed: set<string> := {};
    while pending.Keys != {}
      invariant Peeling(g, waves, pending, completed)
      decreases |Waves(g)| - |waves|
    {
      var ready := SortedKeys(Ready(pending, completed));
      PeelingStep(g, waves, pending, completed, ready);
      if ready == [] {
        return Failure(CannotMakeProgress);
      }
      waves := waves + [ready];
      completed := completed + Elements(ready);
      pending := pending - Elements(ready);
    }
    PeelingEnd(g, waves, pending, completed);
    r := Success(waves);
  }

  method ExecutionWaves(nodes: seq<TaskNode>) returns (r: Result<seq<seq<string>>, GraphError>)
    ensures r.Success? <==> Valid(nodes)
    ensures r.Success? ==> r.value == Waves(GraphOf(nodes))
    ensures r.Failure? ==> r.error != CannotMakeProgress
  {
    var checked := ValidateGraph(nodes);
    if checked.Failure? {
      return Failure(checked.error);
    }
    KnownIsClosed(nodes);
    r := PeelWaves(GraphOf(nodes));
  }
}
