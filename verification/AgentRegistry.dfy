/** The agents of a runtime, and the choice among them when there is no scheduler. */
module AgentRegistry {
  import opened Wrappers
  import opened Ordering
  import opened Sorting
  import opened AgentContracts

  datatype RegistryError =
    | AgentRegistered(id: string)
    | UnknownAgent(id: string)
    | PreferredUnfit(id: string)
    | NoAgentFits(task: string)

  type Agents = map<string, AgentSpec>

  /** Agents are stored under their own ids. */
  predicate Keyed(agents: Agents) {
    forall id :: id in agents ==> agents[id].agentId == id
  }

  predicate Fits(task: RuntimeTask, agent: AgentSpec) {
    Elements(task.requiredCapabilities) <= Elements(agent.capabilities)
  }

  function Surplus(task: RuntimeTask, agent: AgentSpec): nat {
    |Elements(agent.capabilities) - Elements(task.requiredCapabilities)|
  }

  /** `task.preferred_agent` is set; an empty name counts as unset. */
  predicate HasPreference(task: RuntimeTask) {
    task.preferredAgent.Some? && task.preferredAgent.value != ""
  }

  /** Some agent can be chosen for the task. */
  ghost predicate Selectable(agents: Agents, task: RuntimeTask) {
    if HasPreference(task) then
      task.preferredAgent.value in agents && Fits(task, agents[task.preferredAgent.value])
    else
      exists id :: id in agents && Fits(task, agents[id])
  }

  /** Why none can. */
  function Refusal(agents: Agents, task: RuntimeTask): RegistryError {
    if !HasPreference(task) then NoAgentFits(task.taskId)
    else if task.preferredAgent.value in agents then PreferredUnfit(task.preferredAgent.value)
    else UnknownAgent(task.preferredAgent.value)
  }

  /** Smaller surplus first, then the smaller id. */
  predicate Preferable(task: RuntimeTask, a: AgentSpec, b: AgentSpec) {
    Surplus(task, a) < Surplus(task, b) || (Surplus(task, a) == Surplus(task, b) && Less(a.agentId, b.agentId))
  }

  /** The agent chosen: the preferred one, or the fitting one nothing is preferable to. */
  ghost predicate IsSelected(agents: Agents, task: RuntimeTask, agent: AgentSpec) {
    && agent.agentId in agents && agents[agent.agentId] == agent && Fits(task, agent)
    && if HasPreference(task) then agent.agentId == task.preferredAgent.value
       else forall id :: id in agents && Fits(task, agents[id]) && id != agent.agentId ==> Preferable(task, agent, agents[id])
  }

  lemma {:induction false} PreferableIsOrder(task: RuntimeTask)
    ensures StrictWeakOrder((a: AgentSpec, b: AgentSpec) => Preferable(task, a, b))
  {
    forall a: AgentSpec ensures !Preferable(task, a, a) { LessIrreflexive(a.agentId); }
    forall a: AgentSpec, b: AgentSpec, c: AgentSpec | Preferable(task, a, b) && Preferable(task, b, c)
      ensures Preferable(task, a, c)
    {
      if Less(a.agentId, b.agentId) && Less(b.agentId, c.agentId) {
        LessTransitive(a.agentId, b.agentId, c.agentId);
      }
    }
    forall a: AgentSpec, b: AgentSpec, c: AgentSpec | Preferable(task, a, c)
      ensures Preferable(task, a, b) || Preferable(task, b, c)
    {
      LessTotal(a.agentId, b.agentId);
      LessTotal(b.agentId, c.agentId);
      if Less(b.agentId, a.agentId) && Less(c.agentId, b.agentId) && Less(a.agentId, c.agentId) {
        LessTransitive(b.agentId, a.agentId, c.agentId);
        LessAsymmetric(b.agentId, c.agentId);
      }
    }
  }

  lemma {:induction false} SelectionUnique(agents: Agents, task: RuntimeTask, a: AgentSpec, b: AgentSpec)
    requires IsSelected(agents, task, a) && IsSelected(agents, task, b)
    ensures a == b
  {
    LessAsymmetric(a.agentId, b.agentId);
  }

  /** What the refusals say. */
  lemma {:induction false} RefusalTells(agents: Agents, task: RuntimeTask)
    requires !Selectable(agents, task)
    ensures match Refusal(agents, task)
      case UnknownAgent(id) => id != "" && task.preferredAgent == Some(id) && id !in agents
      case PreferredUnfit(id) =>
        && id != "" && task.preferredAgent == Some(id) && id in agents
        && exists name :: name in task.requiredCapabilities && name !in agents[id].capabilities
      case NoAgentFits(t) =>
        && t == task.taskId && (task.preferredAgent == None || task.preferredAgent == Some(""))
        && forall id :: id in agents ==> exists name :: name in task.requiredCapabilities && name !in agents[id].capabilities
      case AgentRegistered(_) => false
  {
    forall id | id in agents && !Fits(task, agents[id])
      ensures exists name :: name in task.requiredCapabilities && name !in agents[id].capabilities
    {
      var name :| name in Elements(task.requiredCapabilities) && name !in Elements(agents[id].capabilities);
    }
  }

  /** The capabilities of an agent that a task does not ask for. */
  function Unasked(task: RuntimeTask, agent: AgentSpec): set<string> {
    set name | name in agent.capabilities && name !in task.requiredCapabilities
  }

  /**
   The selected agent has all that the task asks for. Without a preference no
   other that has has fewer capabilities unasked for, and with as many it has a greater id.
   */
  lemma {:induction false} SelectedFitsBest(agents: Agents, task: RuntimeTask, a: AgentSpec, b: AgentSpec)
    requires Keyed(agents) && IsSelected(agents, task, a)
    ensures forall name :: name in task.requiredCapabilities ==> name in a.capabilities
    ensures task.preferredAgent.Some? && task.preferredAgent.value != "" ==> task.preferredAgent == Some(a.agentId)
    ensures task.preferredAgent == None || task.preferredAgent == Some("") ==>
      (b.agentId in agents && agents[b.agentId] == b && b != a && (forall name :: name in task.requiredCapabilities ==> name in b.capabilities)) ==>
        |Unasked(task, a)| < |Unasked(task, b)| || (|Unasked(task, a)| == |Unasked(task, b)| && Less(a.agentId, b.agentId))
  {
    forall name | name in task.requiredCapabilities ensures name in a.capabilities {
      assert name in Elements(task.requiredCapabilities) && name in Elements(a.capabilities);
    }
    assert Unasked(task, a) == Elements(a.capabilities) - Elements(task.requiredCapabilities);
    assert Unasked(task, b) == Elements(b.capabilities) - Elements(task.requiredCapabilities);
    assert (forall name :: name in task.requiredCapabilities ==> name in b.capabilities) ==> Fits(task, b);
  }

  lemma {:induction false} PreferableTransitive(task: RuntimeTask, a: AgentSpec, b: AgentSpec, c: AgentSpec)
    requires Preferable(task, a, b) && Preferable(task, b, c)
    ensures Preferable(task, a, c)
  {
    if Less(a.agentId, b.agentId) && Less(b.agentId, c.agentId) { LessTransitive(a.agentId, b.agentId, c.agentId); }
  }

  lemma {:induction false} LeastOf(agents: Agents, task: RuntimeTask, ids: set<string>, some: string) returns (best: string)
    requires Keyed(agents) && some in ids && ids <= agents.Keys
    ensures best in ids && forall id :: id in ids && id != best ==> Preferable(task, agents[best], agents[id])
    decreases ids
  {
    best := some;
    if other :| other in ids - {some} {
      var rest := LeastOf(agents, task, ids - {some}, other);
      LessTotal(some, rest);
      best := if Preferable(task, agents[some], agents[rest]) then some else rest;
      forall id | id in ids && id != best ensures Preferable(task, agents[best], agents[id]) {
        if best == some && id != rest { PreferableTransitive(task, agents[some], agents[rest], agents[id]); }
      }
    } else {
      forall id | id in ids ensures id == some { assert id !in ids - {some}; }
    }
  }

  lemma {:induction false} SelectionExists(agents: Agents, task: RuntimeTask)
    requires Keyed(agents) && Selectable(agents, task)
    ensures exists a :: IsSelected(agents, task, a)
  {
    if HasPreference(task) {
      assert IsSelected(agents, task, agents[task.preferredAgent.value]);
    } else {
      var fitting := set id | id in agents && Fits(task, agents[id]);
      var some :| some in agents && Fits(task, agents[some]);
      var best := LeastOf(agents, task, fitting, some);
      assert IsSelected(agents, task, agents[best]);
    }
  }

  /** The agents of a list of ids. */
  function Listed(agents: Agents, ids: seq<string>): seq<AgentSpec> {
    if ids == [] then []
    else
      var last := ids[|ids| - 1];
      Listed(agents, ids[..|ids| - 1]) + if last in agents then [agents[last]] else []
  }

  class AgentRegistry {
    var agents: Agents

    constructor Empty()
      ensures agents == map[]
    {
      agents := map[];
    }

    method Register(agent: AgentSpec) returns (r: Result<(), RegistryError>)
      requires Keyed(agents)
      modifies this
      ensures Keyed(agents)
      ensures r.Success? <==> agent.agentId !in old(agents)
      ensures agents == if r.Success? then old(agents)[agent.agentId := agent] else old(agents)
    {
      if agent.agentId in agents {
        return Failure(AgentRegistered(agent.agentId));
      }
      agents := agents[agent.agentId := agent];
      r := Success(());
    }

    method Get(id: string) returns (r: Result<AgentSpec, RegistryError>)
      ensures r == if id in agents then Success(agents[id]) else Failure(UnknownAgent(id))
    {
      r := if id in agents then Success(agents[id]) else Failure(UnknownAgent(id));
    }

    /** Every agent, in the order of their ids. */
    method All() returns (r: seq<AgentSpec>)
      ensures r == Listed(agents, Sorted(agents.Keys))
    {
      var ids := SortedKeys(agents.Keys);
      r := [];
      for i := 0 to |ids|
        invariant r == Listed(agents, ids[..i])
      {
        assert ids[i] in Elements(ids);
        assert ids[..i + 1][..i] == ids[..i];
        r := r + [agents[ids[i]]];
      }
      assert ids[..|ids|] == ids;
    }

    method Select(task: RuntimeTask) returns (r: Result<AgentSpec, RegistryError>)
      requires Keyed(agents)
      ensures r.Success? <==> Selectable(agents, task)
      ensures r.Success? ==> IsSelected(agents, task, r.value)
      ensures r.Failure? ==> r.error == Refusal(agents, task)
    {
      if HasPreference(task) {
        var preferred := Get(task.preferredAgent.value);
        if preferred.Success? && !Fits(task, preferred.value) {
          return Failure(PreferredUnfit(preferred.value.agentId));
        }
        return preferred;
      }
      var ids := ListOf(agents.Keys);
      var candidates: seq<AgentSpec> := [];
      for i := 0 to |ids|
        invariant forall a :: a in candidates <==> exists j :: 0 <= j < i && ids[j] in agents && a == agents[ids[j]] && Fits(task, a)
      {
        assert ids[i] in Elements(ids);
        if Fits(task, agents[ids[i]]) {
          candidates := candidates + [agents[ids[i]]];
        }
      }
      forall id | id in agents ensures agents[id] in candidates <==> Fits(task, agents[id]) {
        assert id in Elements(ids);
      }
      if candidates == [] {
        return Failure(NoAgentFits(task.taskId));
      }
      var before := (a: AgentSpec, b: AgentSpec) => Preferable(task, a, b);
      PreferableIsOrder(task);
      FirstIsBest(candidates, before);
      var best := StableSort(candidates, before)[0];
      forall id | id in agents && Fits(task, agents[id]) && id != best.agentId ensures Preferable(task, best, agents[id]) {
        assert !before(agents[id], best);
        LessTotal(best.agentId, id);
      }
      r := Success(best);
    }
  }

  /** `all` lists exactly the registered agents. */
  lemma {:induction false} ListedContains(agents: Agents, ids: seq<string>, a: AgentSpec)
    ensures a in Listed(agents, ids) <==> exists id :: id in ids && id in agents && agents[id] == a
  {
    if ids != [] {
      var init, last := ids[..|ids| - 1], ids[|ids| - 1];
      assert ids == init + [last];
      ListedContains(agents, init, a);
    }
  }
}
