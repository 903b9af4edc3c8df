/**
 The planner's own wave scheduler, which counts indegrees instead of comparing
 dependency sets, and its agreement with `ExecutionGraph.ExecutionWaves`.
 */
module Orchestrator {
  import opened Wrappers
  import opened Ordering
  import opened ExecutionGraph

  datatype PlanError = PlanHasCycle

  /** `depends_on` by task id, repeated entries kept; the last task with an id wins. */
  function DependencyLists(nodes: seq<TaskNode>): (m: map<string, seq<string>>)
    ensures m.Keys == Ids(nodes)
  {
    if nodes == [] then map[]
    else
      var init, last := nodes[..|nodes| - 1], nodes[|nodes| - 1];
      assert nodes == init + [last];
      DependencyLists(init)[last.id := last.dependsOn]
  }

  lemma {:induction false} ListsGiveGraph(nodes: seq<TaskNode>, t: string)
    requires t in Ids(nodes)
    ensures GraphOf(nodes)[t] == Elements(DependencyLists(nodes)[t])
  {
    var init, last := nodes[..|nodes| - 1], nodes[|nodes| - 1];
    assert nodes == init + [last];
    if t != last.id { ListsGiveGraph(init, t); }
  }

  /** How many entries of a dependency list are not visited yet. */
  ghost function Open(list: seq<string>, visited: set<string>): nat {
    if list == [] then 0
    else Open(list[1..], visited) + if list[0] in visited then 0 else 1
  }

  lemma {:induction false} OpenIsZero(list: seq<string>, visited: set<string>)
    ensures Open(list, visited) == 0 <==> Elements(list) <= visited
  {
    if list != [] {
      OpenIsZero(list[1..], visited);
      assert list == [list[0]] + list[1..];
      assert Elements(list) == {list[0]} + Elements(list[1..]);
    }
  }

  lemma {:induction false} OpenNothingVisited(list: seq<string>)
    ensures Open(list, {}) == |list|
  {
    if list != [] { OpenNothingVisited(list[1..]); }
  }

  ghost function Occurs(s: seq<string>, x: string): nat {
    multiset(s)[x]
  }

  lemma {:induction false} OpenVisit(list: seq<string>, visited: set<string>, d: string)
    requires d !in visited
    ensures Open(list, visited) == Open(list, visited + {d}) + Occurs(list, d)
  {
    if list != [] {
      OpenVisit(list[1..], visited, d);
      assert list == [list[0]] + list[1..];
      assert multiset(list) == multiset{list[0]} + multiset(list[1..]);
    }
  }

  // ---------------------------------------------------------------- children

  lemma {:induction false} OccursAppend(s: seq<string>, y: string, x: string)
    ensures Occurs(s + [y], x) == Occurs(s, x) + if x == y then 1 else 0
  {
  }

  function Kids(children: map<string, seq<string>>, d: string): seq<string> {
    if d in children then children[d] else []
  }

  /** How often tasks with id `t` list `d`. */
  ghost function Total(nodes: seq<TaskNode>, t: string, d: string): nat {
    if nodes == [] then 0
    else
      var last := nodes[|nodes| - 1];
      Total(nodes[..|nodes| - 1], t, d) + if last.id == t then Occurs(last.dependsOn, d) else 0
  }

  lemma {:induction false} TotalOfAbsent(nodes: seq<TaskNode>, t: string, d: string)
    requires t !in Ids(nodes)
    ensures Total(nodes, t, d) == 0
  {
    if nodes != [] {
      assert nodes == nodes[..|nodes| - 1] + [nodes[|nodes| - 1]];
      TotalOfAbsent(nodes[..|nodes| - 1], t, d);
    }
  }

  lemma {:induction false} TotalUnique(nodes: seq<TaskNode>, t: string, d: string)
    requires UniqueIds(nodes) && t in Ids(nodes)
    ensures Total(nodes, t, d) == Occurs(DependencyLists(nodes)[t], d)
  {
    var init, last := nodes[..|nodes| - 1], nodes[|nodes| - 1];
    assert nodes == init + [last];
    if t == last.id {
      assert t !in Ids(init);
      TotalOfAbsent(init, t, d);
    } else {
      TotalUnique(init, t, d);
    }
  }

  /** `r` has `id` appended to the children of every entry of `list`. */
  ghost predicate Adopted(r: map<string, seq<string>>, children: map<string, seq<string>>, id: string, list: seq<string>) {
    forall d, t ::
      Occurs(Kids(r, d), t) == Occurs(Kids(children, d), t) + if t == id then Occurs(list, d) else 0
  }

  method AddChild(children: map<string, seq<string>>, node: TaskNode) returns (r: map<string, seq<string>>)
    ensures Adopted(r, children, node.id, node.dependsOn)
  {
    r := children;
    assert forall d :: Occurs(node.dependsOn[..0], d) == 0;
    for i := 0 to |node.dependsOn|
      invariant Adopted(r, children, node.id, node.dependsOn[..i])
    {
      var parent := node.dependsOn[i];
      assert node.dependsOn[..i + 1] == node.dependsOn[..i] + [parent];
      ghost var before := r;
      r := r[parent := Kids(r, parent) + [node.id]];
      forall d, t ensures Occurs(Kids(r, d), t)
        == Occurs(Kids(children, d), t) + if t == node.id then Occurs(node.dependsOn[..i + 1], d) else 0
      {
        OccursAppend(node.dependsOn[..i], parent, d);
        OccursAppend(Kids(before, parent), node.id, t);
      }
    }
    assert node.dependsOn[..|node.dependsOn|] == node.dependsOn;
  }

  method BuildChildren(nodes: seq<TaskNode>) returns (children: map<string, seq<string>>)
    ensures forall d, t :: Occurs(Kids(children, d), t) == Total(nodes, t, d)
  {
    children := map[];
    for i := 0 to |nodes|
      invariant forall d, t :: Occurs(Kids(children, d), t) == Total(nodes[..i], t, d)
    {
      assert nodes[..i + 1][..i] == nodes[..i];
      children := AddChild(children, nodes[i]);
    }
    assert nodes[..|nodes|] == nodes;
  }

  // ---------------------------------------------------------------- one wave

  method VisitNode(kids: seq<string>, indegree: map<string, int>, upcoming: seq<string>)
    returns (after: map<string, int>, grown: seq<string>)
    requires forall c :: c in kids ==> c in indegree
    requires NoDuplicates(upcoming) && forall t :: t in upcoming ==> t in indegree && indegree[t] <= 0
    ensures after.Keys == indegree.Keys
    ensures forall t :: t in indegree ==> after[t] == indegree[t] - Occurs(kids, t)
    ensures NoDuplicates(grown) && forall t :: t in grown ==> t in indegree && after[t] <= 0
    ensures forall t :: t in indegree ==> (t in grown <==> t in upcoming || indegree[t] > 0 >= after[t])
  {
    after, grown := indegree, upcoming;
    for i := 0 to |kids|
      invariant after.Keys == indegree.Keys
      invariant forall t :: t in indegree ==> after[t] == indegree[t] - Occurs(kids[..i], t)
      invariant NoDuplicates(grown) && forall t :: t in grown ==> t in indegree && after[t] <= 0
      invariant forall t :: t in indegree ==> (t in grown <==> t in upcoming || indegree[t] > 0 >= after[t])
    {
      assert kids[..i + 1] == kids[..i] + [kids[i]];
      forall t { OccursAppend(kids[..i], kids[i], t); }
      after := after[kids[i] := after[kids[i]] - 1];
      if after[kids[i]] == 0 {
        grown := grown + [kids[i]];
      }
    }
    assert kids[..|kids|] == kids;
  }

  /** How much visiting the tasks of a wave takes off the indegree of `t`. */
  ghost function Removed(children: map<string, seq<string>>, wave: seq<string>, t: string): nat {
    if wave == [] then 0
    else Removed(children, wave[..|wave| - 1], t) + Occurs(Kids(children, wave[|wave| - 1]), t)
  }

  /** The counters and the newly ready tasks after a wave has been visited. */
  ghost predicate WaveVisited(children: map<string, seq<string>>, wave: seq<string>, indegree: map<string, int>,
                              after: map<string, int>, upcoming: seq<string>) {
    && after.Keys == indegree.Keys
    && (forall t :: t in indegree ==> after[t] == indegree[t] - Removed(children, wave, t))
    && NoDuplicates(upcoming)
    && forall t :: t in upcoming <==> t in indegree && indegree[t] > 0 >= after[t]
  }

  method VisitWave(wave: seq<string>, children: map<string, seq<string>>, indegree: map<string, int>)
    returns (after: map<string, int>, upcoming: seq<string>)
    requires forall d, c :: c in Kids(children, d) ==> c in indegree
    ensures WaveVisited(children, wave, indegree, after, upcoming)
  {
    after, upcoming := indegree, [];
    for j := 0 to |wave|
      invariant WaveVisited(children, wave[..j], indegree, after, upcoming)
    {
      assert wave[..j + 1][..j] == wave[..j];
      after, upcoming := VisitNode(Kids(children, wave[j]), after, upcoming);
    }
    assert wave[..|wave|] == wave;
  }

  /** Visiting a whole wave moves the open counts on to the next visited set. */
  lemma {:induction false} WaveOpens(
    children: map<string, seq<string>>, wave: seq<string>, visited: set<string>, t: string, list: seq<string>)
    requires NoDuplicates(wave) && Elements(wave) !! visited
    requires forall d :: Occurs(Kids(children, d), t) == Occurs(list, d)
    ensures Open(list, visited) - Removed(children, wave, t) == Open(list, visited + Elements(wave))
  {
    if wave == [] {
      assert visited + Elements(wave) == visited;
    } else {
      var init, last := wave[..|wave| - 1], wave[|wave| - 1];
      assert wave == init + [last];
      assert Elements(wave) == Elements(init) + {last};
      WaveOpens(children, init, visited, t, list);
      OpenVisit(list, visited + Elements(init), last);
      assert visited + Elements(init) + {last} == visited + Elements(wave);
    }
  }

  // ---------------------------------------------------------------- the scheduler

  /** Dependency lists with repetitions, against the graph of their sets. */
  ghost predicate ListsOf(g: Graph, lists: map<string, seq<string>>) {
    lists.Keys == g.Keys && forall t :: t in g ==> g[t] == Elements(lists[t])
  }

  /** Every task is a child of each entry of its list, as often as it is listed. */
  ghost predicate ChildrenOf(lists: map<string, seq<string>>, children: map<string, seq<string>>) {
    forall d, t :: t in lists ==> Occurs(Kids(children, d), t) == Occurs(lists[t], d)
  }

  /** The counters are exactly the dependency entries not yet visited. */
  ghost predicate CountsOpen(lists: map<string, seq<string>>, indegree: map<string, int>, visited: set<string>) {
    && indegree.Keys == lists.Keys
    && forall t :: t in indegree ==> indegree[t] == Open(lists[t], visited)
  }

  lemma {:induction false} CountsDecideReady(g: Graph, lists: map<string, seq<string>>, indegree: map<string, int>, k: nat, t: string)
    requires ListsOf(g, lists) && CountsOpen(lists, indegree, Done(g, k)) && t in g
    ensures indegree[t] >= 0
    ensures indegree[t] == 0 <==> t in Done(g, k + 1)
  {
    OpenIsZero(lists[t], Done(g, k));
  }

  lemma {:induction false} CountsStep(lists: map<string, seq<string>>, children: map<string, seq<string>>, wave: seq<string>,
                   indegree: map<string, int>, after: map<string, int>, visited: set<string>)
    requires CountsOpen(lists, indegree, visited) && ChildrenOf(lists, children)
    requires NoDuplicates(wave) && Elements(wave) !! visited
    requires after.Keys == indegree.Keys
    requires forall t :: t in indegree ==> after[t] == indegree[t] - Removed(children, wave, t)
    ensures CountsOpen(lists, after, visited + Elements(wave))
  {
    forall t | t in indegree ensures after[t] == Open(lists[t], visited + Elements(wave)) {
      WaveOpens(children, wave, visited, t, lists[t]);
    }
  }

  ghost predicate Exact(g: Graph, lists: map<string, seq<string>>, waves: seq<seq<string>>,
                        ready: seq<string>, indegree: map<string, int>, visited: set<string>) {
    && waves <= Waves(g)
    && visited == Done(g, |waves|)
    && CountsOpen(lists, indegree, visited)
    && ready == Sorted(Wave(g, |waves|))
  }

  /**
   What the scheduling loop keeps: no id is visited or readied twice, and when
   the counters are exact the waves so far are the graph's.
   */
  ghost predicate Progress(g: Graph, lists: map<string, seq<string>>, exact: bool, waves: seq<seq<string>>,
                           ready: seq<string>, indegree: map<string, int>, visited: set<string>) {
    && indegree.Keys == g.Keys
    && NoDuplicates(ready)
    && visited <= g.Keys
    && Elements(ready) <= g.Keys - visited
    && (forall t :: t in visited + Elements(ready) ==> indegree[t] <= 0)
    && (exact ==> Exact(g, lists, waves, ready, indegree, visited))
  }

  lemma {:induction false} WaveIsNext(g: Graph, waves: seq<seq<string>>)
    requires waves <= Waves(g)
    ensures waves < Waves(g) <==> Wave(g, |waves|) != {}
    ensures waves < Waves(g) ==> Waves(g)[|waves|] == Sorted(Wave(g, |waves|))
  {
    if |waves| < |Waves(g)| { WavesFromAt(g, 0, |waves|); } else { WavesFromEnd(g, 0); }
  }

  lemma {:induction false} ExactStep(g: Graph, lists: map<string, seq<string>>, children: map<string, seq<string>>,
                  waves: seq<seq<string>>, ready: seq<string>, indegree: map<string, int>,
                  after: map<string, int>, upcoming: seq<string>, visited: set<string>)
    requires ListsOf(g, lists) && ChildrenOf(lists, children)
    requires Exact(g, lists, waves, ready, indegree, visited) && ready != []
    requires WaveVisited(children, ready, indegree, after, upcoming)
    ensures Exact(g, lists, waves + [ready], SortList(upcoming), after, visited + Elements(ready))
  {
    var k := |waves|;
    SortedHasNoDuplicates(ready);
    ElementsEmpty(ready);
    CountsStep(lists, children, ready, indegree, after, visited);
    DoneGrows(g, k, k + 1);
    assert visited + Elements(ready) == Done(g, k + 1);
    assert Elements(upcoming) == Wave(g, k + 1) by {
      forall t | t in g ensures t in upcoming <==> t in Wave(g, k + 1) {
        CountsDecideReady(g, lists, indegree, k, t);
        CountsDecideReady(g, lists, after, k + 1, t);
      }
    }
    SortListIsSorted(upcoming);
    WaveIsNext(g, waves);
    ExtendPrefix(waves, Waves(g), ready);
  }

  lemma {:induction false} ProgressStep(g: Graph, lists: map<string, seq<string>>, children: map<string, seq<string>>, exact: bool,
                     waves: seq<seq<string>>, ready: seq<string>, indegree: map<string, int>,
                     after: map<string, int>, upcoming: seq<string>, visited: set<string>)
    requires ListsOf(g, lists) && (exact ==> ChildrenOf(lists, children))
    requires Progress(g, lists, exact, waves, ready, indegree, visited) && ready != []
    requires WaveVisited(children, ready, indegree, after, upcoming)
    ensures Progress(g, lists, exact, waves + [ready], SortList(upcoming), after, visited + Elements(ready))
    ensures |visited + Elements(ready)| == |visited| + |ready|
    ensures |g.Keys - (visited + Elements(ready))| < |g.Keys - visited|
  {
    ElementsCount(ready);
    ElementsEmpty(ready);
    SubsetStrict(g.Keys - (visited + Elements(ready)), g.Keys - visited);
    SortListIsSorted(upcoming);
    SortedHasNoDuplicates(SortList(upcoming));
    assert forall t :: t in Elements(upcoming) ==> t in upcoming;
    if exact { ExactStep(g, lists, children, waves, ready, indegree, after, upcoming, visited); }
  }

  lemma {:induction false} ProgressStart(g: Graph, lists: map<string, seq<string>>, exact: bool, indegree: map<string, int>)
    requires ListsOf(g, lists) && indegree.Keys == lists.Keys
    requires forall t :: t in indegree ==> indegree[t] == |lists[t]|
    ensures Progress(g, lists, exact, [], Sorted(set t | t in indegree && indegree[t] == 0), indegree, {})
  {
    var ready := Sorted(set t | t in indegree && indegree[t] == 0);
    SortedHasNoDuplicates(ready);
    forall t | t in indegree ensures indegree[t] == Open(lists[t], {}) {
      OpenNothingVisited(lists[t]);
    }
    assert (set t | t in indegree && indegree[t] == 0) == Wave(g, 0) by {
      forall t | t in indegree { CountsDecideReady(g, lists, indegree, 0, t); }
    }
  }

  lemma {:induction false} ProgressEnd(g: Graph, lists: map<string, seq<string>>, exact: bool, waves: seq<seq<string>>,
                    indegree: map<string, int>, visited: set<string>)
    requires Progress(g, lists, exact, waves, [], indegree, visited)
    ensures |visited| <= |g.Keys|
    ensures exact ==> waves == Waves(g)
    ensures exact ==> (|visited| == |g.Keys| <==> Closed(g) && !Cyclic(g))
  {
    SubsetCount(visited, g.Keys);
    if exact {
      ElementsEmpty(Sorted(Wave(g, |waves|)));
      WaveIsNext(g, waves);
      PeelingDecides(g, |waves|);
      if visited != g.Keys { SubsetStrict(visited, g.Keys); }
    }
  }

  /** The loop over waves. Without distinct ids it still ends, having visited each id once at most. */
  method RunWaves(indegree0: map<string, int>, children: map<string, seq<string>>,
                  ghost g: Graph, ghost lists: map<string, seq<string>>, ghost exact: bool)
    returns (waves: seq<seq<string>>, visited: nat)
    requires ListsOf(g, lists) && indegree0.Keys == lists.Keys
    requires forall t :: t in indegree0 ==> indegree0[t] == |lists[t]|
    requires forall d, c :: c in Kids(children, d) ==> c in indegree0
    requires exact ==> ChildrenOf(lists, children)
    ensures visited <= |g.Keys|
    ensures exact ==> waves == Waves(g)
    ensures exact ==> (visited == |g.Keys| <==> Closed(g) && !Cyclic(g))
  {
    ghost var visitedIds: set<string> := {};
    var indegree := indegree0;
    waves := [];
    var ready := SortedKeys(set t | t in indegree && indegree[t] == 0);
    ProgressStart(g, lists, exact, indegree);
    visited := 0;
    while ready != []
      invariant Progress(g, lists, exact, waves, ready, indegree, visitedIds) && visited == |visitedIds|
      decreases |g.Keys - visitedIds|
    {
      var after, upcoming := VisitWave(ready, children, indegree);
      ProgressStep(g, lists, children, exact, waves, ready, indegree, after, upcoming, visitedIds);
      visitedIds, visited := visitedIds + Elements(ready), visited + |ready|;
      waves := waves + [ready];
      indegree, ready := after, SortList(upcoming);
    }
    ProgressEnd(g, lists, exact, waves, indegree, visitedIds);
  }

  lemma {:induction false} UniqueIdsCount(nodes: seq<TaskNode>)
    ensures |Ids(nodes)| <= |nodes|
    ensures UniqueIds(nodes) <==> |Ids(nodes)| == |nodes|
  {
    var names := seq(|nodes|, i requires 0 <= i < |nodes| => nodes[i].id);
    assert Elements(names) == Ids(nodes) by {
      forall i | 0 <= i < |nodes| ensures nodes[i].id in Elements(names) { assert names[i] == nodes[i].id; }
    }
    ElementsCount(names);
    assert NoDuplicates(names) <==> UniqueIds(nodes) by {
      forall i | 0 <= i < |nodes| ensures names[i] == nodes[i].id {}
    }
  }

  method CountIndegrees(nodes: seq<TaskNode>) returns (indegree: map<string, int>)
    ensures indegree.Keys == Ids(nodes)
    ensures forall t :: t in indegree ==> indegree[t] == |DependencyLists(nodes)[t]|
  {
    indegree := map[];
    for i := 0 to |nodes|
      invariant indegree.Keys == Ids(nodes[..i])
      invariant forall t :: t in indegree ==> indegree[t] == |DependencyLists(nodes[..i])[t]|
    {
      assert nodes[..i + 1] == nodes[..i] + [nodes[i]];
      indegree := indegree[nodes[i].id := |nodes[i].dependsOn|];
    }
    assert nodes[..|nodes|] == nodes;
  }

  lemma {:induction false} ChildrenAreTasks(nodes: seq<TaskNode>, children: map<string, seq<string>>)
    requires forall d, t :: Occurs(Kids(children, d), t) == Total(nodes, t, d)
    ensures forall d, c :: c in Kids(children, d) ==> c in Ids(nodes)
    ensures UniqueIds(nodes) ==> ChildrenOf(DependencyLists(nodes), children)
  {
    forall d, c | c in Kids(children, d) ensures c in Ids(nodes) {
      assert Occurs(Kids(children, d), c) > 0;
      if c !in Ids(nodes) { TotalOfAbsent(nodes, c, d); }
    }
    if UniqueIds(nodes) {
      forall d, t | t in Ids(nodes) { TotalUnique(nodes, t, d); }
    }
  }

  /** For every task list, the planner's scheduler gives the runtime's waves, or both raise. */
  method Schedule(nodes: seq<TaskNode>) returns (r: Result<seq<seq<string>>, PlanError>)
    ensures r.Success? <==> Valid(nodes)
    ensures r.Success? ==> r.value == Waves(GraphOf(nodes))
  {
    var indegree := CountIndegrees(nodes);
    var children := BuildChildren(nodes);
    ChildrenAreTasks(nodes, children);
    forall t | t in Ids(nodes) { ListsGiveGraph(nodes, t); }
    var waves, visited := RunWaves(indegree, children, GraphOf(nodes), DependencyLists(nodes), UniqueIds(nodes));
    UniqueIdsCount(nodes);
    if UniqueIds(nodes) { KnownIsClosed(nodes); }
    r := if visited != |nodes| then Failure(PlanHasCycle) else Success(waves);
  }
}
