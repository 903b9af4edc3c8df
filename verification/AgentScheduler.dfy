/** Ranking of agents by capability coverage, capacity, priority, reliability and cost. */
module AgentScheduler {
  import opened Wrappers
  import opened Ordering
  import opened Sorting
  import opened AgentContracts
  import opened CapabilityGraph

  datatype Profile = Profile(agentId: string, capacity: int, priority: int, cost: real, reliability: real)

  datatype Decision = Decision(
    taskId: string, agentId: string, score: real, required: seq<string>, matched: seq<string>)

  datatype SchedulerError = CapabilityProblem(error: CatalogError) | NoSchedulableAgent(task: string)

  type Profiles = map<string, Profile>
  type Loads = map<string, nat>

  function ProfileOf(profiles: Profiles, agentId: string): Profile {
    if agentId in profiles then profiles[agentId] else Profile(agentId, 1, 0, 1.0, 1.0)
  }

  function LoadOf(loads: Loads, agentId: string): nat {
    if agentId in loads then loads[agentId] else 0
  }

  predicate BelowCapacity(profiles: Profiles, loads: Loads, agentId: string) {
    LoadOf(loads, agentId) < ProfileOf(profiles, agentId).capacity
  }

  /** The agent is below capacity and its closure covers the closure of the task's needs. */
  ghost predicate Eligible(c: Catalog, profiles: Profiles, loads: Loads, task: RuntimeTask, agent: AgentSpec) {
    && BelowCapacity(profiles, loads, agent.agentId)
    && Expandable(c, task.requiredCapabilities)
    && Expandable(c, agent.capabilities)
    && Closure(c, task.requiredCapabilities) <= Closure(c, agent.capabilities)
  }

  /** Ranking meets no unknown capability: agents at capacity are not expanded. */
  ghost predicate Rankable(c: Catalog, profiles: Profiles, loads: Loads, task: RuntimeTask, agents: seq<AgentSpec>) {
    && Expandable(c, task.requiredCapabilities)
    && forall a :: a in agents && BelowCapacity(profiles, loads, a.agentId) ==> Expandable(c, a.capabilities)
  }

  /** The scheduler finds an agent for the task. */
  ghost predicate Schedulable(c: Catalog, profiles: Profiles, loads: Loads, task: RuntimeTask, agents: seq<AgentSpec>) {
    && Rankable(c, profiles, loads, task, agents)
    && exists a :: a in agents && Eligible(c, profiles, loads, task, a)
  }

  /** The unknown capability met on expanding the agents below capacity, in their order. */
  ghost function AgentProblem(c: Catalog, profiles: Profiles, loads: Loads, agents: seq<AgentSpec>): Option<string> {
    if agents == [] then None
    else if BelowCapacity(profiles, loads, agents[0].agentId) && UnknownReached(c, agents[0].capabilities).Some? then
      UnknownReached(c, agents[0].capabilities)
    else AgentProblem(c, profiles, loads, agents[1..])
  }

  /** Why the scheduler finds no agent: an unknown capability of the task or of an agent, or no agent is eligible. */
  ghost function Complaint(c: Catalog, profiles: Profiles, loads: Loads, task: RuntimeTask, agents: seq<AgentSpec>): SchedulerError {
    match UnknownReached(c, task.requiredCapabilities)
    case Some(id) => CapabilityProblem(UnknownCapability(id))
    case None =>
      match AgentProblem(c, profiles, loads, agents)
      case Some(id) => CapabilityProblem(UnknownCapability(id))
      case None => NoSchedulableAgent(task.taskId)
  }

  function WeightOf(c: Catalog, id: string): real {
    if Known(c, id) then c.capabilities[Canonical(c, id)].weight else 0.0
  }

  function TotalWeight(c: Catalog, ids: seq<string>): real {
    if ids == [] then 0.0 else TotalWeight(c, ids[..|ids| - 1]) + WeightOf(c, ids[|ids| - 1])
  }

  /** The nearest integer, ties to the even one. */
  function NearestEven(x: real): int {
    var below := x.Floor;
    var rest := x - below as real;
    if rest < 0.5 || (rest == 0.5 && below % 2 == 0) then below else below + 1
  }

  lemma {:induction false} NearestEvenMonotone(x: real, y: real)
    requires x <= y
    ensures NearestEven(x) <= NearestEven(y)
  {
    assert x.Floor <= y.Floor;
  }

  /** `round(x, 4)`. */
  function Rounded(x: real): real {
    NearestEven(x * 10000.0) as real / 10000.0
  }

  /** Rounding never reverses an order of scores. */
  lemma {:induction false} RoundedMonotone(x: real, y: real)
    requires x <= y
    ensures Rounded(x) <= Rounded(y)
  {
    NearestEvenMonotone(x * 10000.0, y * 10000.0);
  }

  function Distance(x: real, y: real): real {
    if x < y then y - x else x - y
  }

  /** No multiple of a ten-thousandth is nearer, and of two as near the even one is taken. */
  lemma {:induction false} RoundedIsNearest(x: real, n: int)
    ensures Distance(Rounded(x), x) <= 0.00005
    ensures Distance(Rounded(x), x) <= Distance(n as real / 10000.0, x)
    ensures Rounded(x) != n as real / 10000.0 && Distance(Rounded(x), x) == Distance(n as real / 10000.0, x) ==> n % 2 == 1
  {
    var y := x * 10000.0;
    var m, rest := NearestEven(y), y - y.Floor as real;
    assert Rounded(x) * 10000.0 == m as real;
    assert m == y.Floor || m == y.Floor + 1;
    assert n <= y.Floor || n >= y.Floor + 1;
  }

  /** The score of an agent with room left. */
  ghost function RawScore(c: Catalog, profile: Profile, load: nat, required: set<string>, available: set<string>): real
    requires load < profile.capacity
  {
    TotalWeight(c, Sorted(required)) * 100.0 + profile.priority as real * 10.0 + profile.reliability * 10.0
    - TotalWeight(c, Sorted(available - required)) - profile.cost
    - load as real / profile.capacity as real * 20.0
  }

  ghost function Score(c: Catalog, profile: Profile, load: nat, required: set<string>, available: set<string>): real
    requires load < profile.capacity
  {
    Rounded(RawScore(c, profile, load, required, available))
  }

  ghost function AgentScore(c: Catalog, profiles: Profiles, loads: Loads, task: RuntimeTask, agent: AgentSpec): real
    requires Eligible(c, profiles, loads, task, agent)
  {
    Score(c, ProfileOf(profiles, agent.agentId), LoadOf(loads, agent.agentId),
          Closure(c, task.requiredCapabilities), Closure(c, agent.capabilities))
  }

  /** Higher score first, then the smaller agent id. */
  predicate RankedBefore(a: Decision, b: Decision) {
    a.score > b.score || (a.score == b.score && Less(a.agentId, b.agentId))
  }

  lemma {:induction false} RankingIsOrder()
    ensures StrictWeakOrder(RankedBefore)
  {
    forall a: Decision ensures !RankedBefore(a, a) { LessIrreflexive(a.agentId); }
    forall a: Decision, b: Decision, c: Decision | RankedBefore(a, b) && RankedBefore(b, c) ensures RankedBefore(a, c) {
      if Less(a.agentId, b.agentId) && Less(b.agentId, c.agentId) { LessTransitive(a.agentId, b.agentId, c.agentId); }
    }
    forall a: Decision, b: Decision, c: Decision | RankedBefore(a, c) ensures RankedBefore(a, b) || RankedBefore(b, c) {
      LessTotal(a.agentId, b.agentId);
      LessTotal(b.agentId, c.agentId);
      if Less(b.agentId, a.agentId) && Less(c.agentId, b.agentId) && Less(a.agentId, c.agentId) {
        LessTransitive(b.agentId, a.agentId, c.agentId);
        LessAsymmetric(b.agentId, c.agentId);
      }
    }
  }

  /** The decision taken about an eligible agent. */
  ghost predicate IsDecision(c: Catalog, profiles: Profiles, loads: Loads, task: RuntimeTask, agent: AgentSpec, d: Decision) {
    && Eligible(c, profiles, loads, task, agent)
    && d.taskId == task.taskId
    && d.agentId == agent.agentId
    && d.score == AgentScore(c, profiles, loads, task, agent)
    && d.required == d.matched == Sorted(Closure(c, task.requiredCapabilities))
  }

  /** `d` is the decision about one of the agents. */
  ghost predicate Decided(c: Catalog, profiles: Profiles, loads: Loads, task: RuntimeTask, agents: seq<AgentSpec>, d: Decision) {
    exists a :: a in agents && IsDecision(c, profiles, loads, task, a, d)
  }

  /** The best-scored eligible agent, the smaller id at equal scores. */
  ghost predicate IsBest(c: Catalog, profiles: Profiles, loads: Loads, task: RuntimeTask, agents: seq<AgentSpec>, d: Decision) {
    && Decided(c, profiles, loads, task, agents, d)
    && forall a :: a in agents && Eligible(c, profiles, loads, task, a) ==>
        var score := AgentScore(c, profiles, loads, task, a);
        score < d.score || (score == d.score && (a.agentId == d.agentId || Less(d.agentId, a.agentId)))
  }

  ghost function DecisionOn(c: Catalog, profiles: Profiles, loads: Loads, task: RuntimeTask, agent: AgentSpec): (d: Decision)
    requires Eligible(c, profiles, loads, task, agent)
    ensures IsDecision(c, profiles, loads, task, agent, d)
  {
    var listing := Sorted(Closure(c, task.requiredCapabilities));
    Decision(task.taskId, agent.agentId, AgentScore(c, profiles, loads, task, agent), listing, listing)
  }

  /** The decisions about the agents, one for each that is eligible, in their order. */
  ghost function Decisions(c: Catalog, profiles: Profiles, loads: Loads, task: RuntimeTask, agents: seq<AgentSpec>): seq<Decision> {
    if agents == [] then []
    else
      var last := agents[|agents| - 1];
      Decisions(c, profiles, loads, task, agents[..|agents| - 1])
      + if Eligible(c, profiles, loads, task, last) then [DecisionOn(c, profiles, loads, task, last)] else []
  }

  lemma {:induction false} DecisionUnique(c: Catalog, profiles: Profiles, loads: Loads, task: RuntimeTask, agent: AgentSpec, d: Decision)
    requires IsDecision(c, profiles, loads, task, agent, d)
    ensures d == DecisionOn(c, profiles, loads, task, agent)
  {
  }

  lemma {:induction false} DecisionsAreDecided(c: Catalog, profiles: Profiles, loads: Loads, task: RuntimeTask, agents: seq<AgentSpec>,
                                               d: Decision)
    ensures d in Decisions(c, profiles, loads, task, agents) <==> Decided(c, profiles, loads, task, agents, d)
  {
    if agents != [] {
      var init, last := agents[..|agents| - 1], agents[|agents| - 1];
      assert agents == init + [last];
      DecisionsAreDecided(c, profiles, loads, task, init, d);
      assert Decided(c, profiles, loads, task, agents, d) <==>
        Decided(c, profiles, loads, task, init, d) || IsDecision(c, profiles, loads, task, last, d);
    }
  }

  /** The first of the ranked decisions is the best. */
  lemma {:induction false} HeadIsBest(c: Catalog, profiles: Profiles, loads: Loads, task: RuntimeTask, agents: seq<AgentSpec>,
                                      ranked: seq<Decision>)
    requires ranked != [] && SortedBy(ranked, RankedBefore)
    requires multiset(ranked) == multiset(Decisions(c, profiles, loads, task, agents))
    ensures IsBest(c, profiles, loads, task, agents, ranked[0])
  {
    var best := ranked[0];
    assert best in multiset(ranked);
    DecisionsAreDecided(c, profiles, loads, task, agents, best);
    forall a | a in agents && Eligible(c, profiles, loads, task, a)
      ensures var score := AgentScore(c, profiles, loads, task, a);
        score < best.score || (score == best.score && (a.agentId == best.agentId || Less(best.agentId, a.agentId)))
    {
      var d := DecisionOn(c, profiles, loads, task, a);
      DecisionsAreDecided(c, profiles, loads, task, agents, d);
      assert d in multiset(ranked);
      assert !RankedBefore(d, best) by { LessIrreflexive(d.agentId); }
      LessTotal(a.agentId, best.agentId);
    }
  }

  lemma {:induction false} SomeoneIsDecided(c: Catalog, profiles: Profiles, loads: Loads, task: RuntimeTask, agents: seq<AgentSpec>)
    ensures Decisions(c, profiles, loads, task, agents) != [] <==> exists a :: a in agents && Eligible(c, profiles, loads, task, a)
  {
    var decisions := Decisions(c, profiles, loads, task, agents);
    if decisions != [] {
      DecisionsAreDecided(c, profiles, loads, task, agents, decisions[0]);
    }
    if a :| a in agents && Eligible(c, profiles, loads, task, a) {
      DecisionsAreDecided(c, profiles, loads, task, agents, DecisionOn(c, profiles, loads, task, a));
    }
  }

  lemma {:induction false} BestExists(c: Catalog, profiles: Profiles, loads: Loads, task: RuntimeTask, agents: seq<AgentSpec>)
    requires Schedulable(c, profiles, loads, task, agents)
    ensures exists d :: IsBest(c, profiles, loads, task, agents, d)
  {
    var decisions := Decisions(c, profiles, loads, task, agents);
    SomeoneIsDecided(c, profiles, loads, task, agents);
    RankingIsOrder();
    StableSortSorts(decisions, RankedBefore);
    assert |multiset(decisions)| == |decisions|;
    HeadIsBest(c, profiles, loads, task, agents, StableSort(decisions, RankedBefore));
  }

  lemma {:induction false} BestUnique(c: Catalog, profiles: Profiles, loads: Loads, task: RuntimeTask, agents: seq<AgentSpec>,
                                      d: Decision, e: Decision)
    requires IsBest(c, profiles, loads, task, agents, d) && IsBest(c, profiles, loads, task, agents, e)
    ensures d.agentId == e.agentId
  {
    LessAsymmetric(d.agentId, e.agentId);
  }

  lemma {:induction false} LoadLowersScore(c: Catalog, profile: Profile, less: nat, more: nat, required: set<string>, available: set<string>)
    requires less <= more < profile.capacity
    ensures Score(c, profile, more, required, available) <= Score(c, profile, less, required, available)
  {
    var capacity := profile.capacity as real;
    assert less as real / capacity <= more as real / capacity;
    RoundedMonotone(RawScore(c, profile, more, required, available), RawScore(c, profile, less, required, available));
  }

  /** Assignments to other agents leave the best agent the best. */
  lemma {:induction false} UnloadedStaysBest(c: Catalog, profiles: Profiles, loads: Loads, task: RuntimeTask, agents: seq<AgentSpec>,
                                             d: Decision)
    requires IsBest(c, profiles, map[], task, agents, d) && LoadOf(loads, d.agentId) == 0
    ensures IsBest(c, profiles, loads, task, agents, d)
  {
    var a :| a in agents && IsDecision(c, profiles, map[], task, a, d);
    assert IsDecision(c, profiles, loads, task, a, d);
    forall b | b in agents && Eligible(c, profiles, loads, task, b)
      ensures Eligible(c, profiles, map[], task, b)
      ensures AgentScore(c, profiles, loads, task, b) <= AgentScore(c, profiles, map[], task, b)
    {
      LoadLowersScore(c, ProfileOf(profiles, b.agentId), 0, LoadOf(loads, b.agentId),
                      Closure(c, task.requiredCapabilities), Closure(c, b.capabilities));
    }
  }

  // ---------------------------------------------------------------- what the choice depends on

  lemma {:induction false} WeightFirst(c: Catalog, first: string, rest: seq<string>)
    ensures TotalWeight(c, [first] + rest) == WeightOf(c, first) + TotalWeight(c, rest)
  {
    var all := [first] + rest;
    if rest == [] {
      assert all == [first] && all[..0] == [];
    } else {
      assert all[..|all| - 1] == [first] + rest[..|rest| - 1];
      WeightFirst(c, first, rest[..|rest| - 1]);
    }
  }

  lemma {:induction false} WeightInserted(c: Catalog, x: string, s: seq<string>)
    ensures TotalWeight(c, Insert(x, s)) == TotalWeight(c, s) + WeightOf(c, x)
  {
    if s == [] {
      WeightFirst(c, x, []);
      assert [x] + [] == [x];
    } else if Less(s[0], x) {
      assert s == [s[0]] + s[1..];
      WeightInserted(c, x, s[1..]);
      WeightFirst(c, s[0], s[1..]);
      WeightFirst(c, s[0], Insert(x, s[1..]));
    } else {
      WeightFirst(c, x, s);
    }
  }

  /** Each capability of a set adds its own weight, that of the capability its name stands for. */
  lemma {:induction false} WeightsAddUp(c: Catalog, s: set<string>, x: string)
    requires x !in s && Known(c, x)
    ensures TotalWeight(c, Sorted({})) == 0.0
    ensures TotalWeight(c, Sorted(s + {x})) == TotalWeight(c, Sorted(s)) + c.capabilities[Canonical(c, x)].weight
  {
    ElementsEmpty(Sorted({}));
    assert x !in Sorted(s) by { assert x in Sorted(s) ==> x in Elements(Sorted(s)); }
    InsertSorted(x, Sorted(s));
    InsertElements(x, Sorted(s));
    SortedUnique(Insert(x, Sorted(s)), Sorted(s + {x}));
    WeightInserted(c, x, Sorted(s));
  }

  ghost function RawScoreOf(c: Catalog, profiles: Profiles, loads: Loads, task: RuntimeTask, agent: AgentSpec): real
    requires Eligible(c, profiles, loads, task, agent)
  {
    RawScore(c, ProfileOf(profiles, agent.agentId), LoadOf(loads, agent.agentId),
             Closure(c, task.requiredCapabilities), Closure(c, agent.capabilities))
  }

  /** The weight of what an agent offers beyond the task's needs. */
  ghost function Surplus(c: Catalog, task: RuntimeTask, agent: AgentSpec): real
    requires Expandable(c, task.requiredCapabilities) && Expandable(c, agent.capabilities)
  {
    TotalWeight(c, Sorted(Closure(c, agent.capabilities) - Closure(c, task.requiredCapabilities)))
  }

  /** The share of an agent's capacity that is taken. */
  function LoadRatio(profiles: Profiles, loads: Loads, agentId: string): real
    requires BelowCapacity(profiles, loads, agentId)
  {
    LoadOf(loads, agentId) as real / ProfileOf(profiles, agentId).capacity as real
  }

  /** The exact exchange rates between two agents that can do a task. */
  lemma {:induction false} TradeOff(c: Catalog, profiles: Profiles, loads: Loads, task: RuntimeTask, a: AgentSpec, b: AgentSpec)
    requires Eligible(c, profiles, loads, task, a) && Eligible(c, profiles, loads, task, b)
    ensures var p, q := ProfileOf(profiles, a.agentId), ProfileOf(profiles, b.agentId);
      RawScoreOf(c, profiles, loads, task, a) - RawScoreOf(c, profiles, loads, task, b) ==
      10.0 * (p.priority - q.priority) as real + 10.0 * (p.reliability - q.reliability) - (p.cost - q.cost)
      - (Surplus(c, task, a) - Surplus(c, task, b))
      - 20.0 * (LoadRatio(profiles, loads, a.agentId) - LoadRatio(profiles, loads, b.agentId))
  {
  }

  /** Without a profile an agent takes one task at a time, and is scored by a hundred for each unit of weight the task needs. */
  lemma {:induction false} WithoutProfile(c: Catalog, profiles: Profiles, loads: Loads, task: RuntimeTask, agent: AgentSpec)
    requires agent.agentId !in profiles
    ensures BelowCapacity(profiles, loads, agent.agentId) <==> agent.agentId !in loads || loads[agent.agentId] == 0
    ensures Eligible(c, profiles, loads, task, agent) ==>
      RawScoreOf(c, profiles, loads, task, agent)
      == 100.0 * TotalWeight(c, Sorted(Closure(c, task.requiredCapabilities))) - Surplus(c, task, agent) + 9.0
  {
  }

  /** Nobody who can do the task is better than the chosen one by more than the rounding step. */
  lemma {:induction false} NobodyIsClearlyBetter(c: Catalog, profiles: Profiles, loads: Loads, task: RuntimeTask, agents: seq<AgentSpec>,
                                                 d: Decision, a: AgentSpec, b: AgentSpec)
    requires IsBest(c, profiles, loads, task, agents, d) && IsDecision(c, profiles, loads, task, a, d)
    requires b in agents && Eligible(c, profiles, loads, task, b)
    ensures RawScoreOf(c, profiles, loads, task, b) - RawScoreOf(c, profiles, loads, task, a) <= 0.0001
    ensures RawScoreOf(c, profiles, loads, task, b) == RawScoreOf(c, profiles, loads, task, a) ==>
      a.agentId == b.agentId || Less(a.agentId, b.agentId)
  {
    RoundedIsNearest(RawScoreOf(c, profiles, loads, task, a), 0);
    RoundedIsNearest(RawScoreOf(c, profiles, loads, task, b), 0);
  }

  /** What the chosen agent has going for it: it can do the task, and where it differs from another in one respect
      only, it is not the worse one. */
  lemma {:induction false} ChosenIsNotWorse(c: Catalog, profiles: Profiles, loads: Loads, task: RuntimeTask, agents: seq<AgentSpec>,
                                            d: Decision, b: AgentSpec) returns (a: AgentSpec)
    requires IsBest(c, profiles, loads, task, agents, d) && b in agents && Eligible(c, profiles, loads, task, b)
    ensures a in agents && a.agentId == d.agentId && d.taskId == task.taskId
    ensures BelowCapacity(profiles, loads, a.agentId) && Expandable(c, task.requiredCapabilities) && Expandable(c, a.capabilities)
    ensures forall id :: id in Closure(c, task.requiredCapabilities) ==> id in Closure(c, a.capabilities)
    ensures var p, q := ProfileOf(profiles, a.agentId), ProfileOf(profiles, b.agentId);
      var samePriority, sameReliability, sameCost := p.priority == q.priority, p.reliability == q.reliability, p.cost == q.cost;
      var sameSurplus := Surplus(c, task, a) == Surplus(c, task, b);
      var sameLoad := LoadRatio(profiles, loads, a.agentId) == LoadRatio(profiles, loads, b.agentId);
      && (samePriority && sameReliability && sameSurplus && sameLoad ==> p.cost <= q.cost + 0.0001)
      && (samePriority && sameCost && sameSurplus && sameLoad ==> p.reliability >= q.reliability - 0.00001)
      && (sameReliability && sameCost && sameSurplus && sameLoad ==> p.priority >= q.priority)
      && (samePriority && sameReliability && sameCost && sameLoad ==> Surplus(c, task, a) <= Surplus(c, task, b) + 0.0001)
      && (samePriority && sameReliability && sameCost && sameSurplus ==>
          LoadRatio(profiles, loads, a.agentId) <= LoadRatio(profiles, loads, b.agentId) + 0.000005)
  {
    a :| a in agents && IsDecision(c, profiles, loads, task, a, d);
    NobodyIsClearlyBetter(c, profiles, loads, task, agents, d, a, b);
    TradeOff(c, profiles, loads, task, a, b);
  }

  // ---------------------------------------------------------------- the scheduler

  /** The agents before `i` have been decided about, and none of them was a problem. */
  ghost predicate Ranking(c: Catalog, profiles: Profiles, loads: Loads, task: RuntimeTask, agents: seq<AgentSpec>, i: nat,
                          decisions: seq<Decision>)
  {
    && i <= |agents|
    && (forall j :: 0 <= j < i && BelowCapacity(profiles, loads, agents[j].agentId) ==> Expandable(c, agents[j].capabilities))
    && AgentProblem(c, profiles, loads, agents) == AgentProblem(c, profiles, loads, agents[i..])
    && decisions == Decisions(c, profiles, loads, task, agents[..i])
  }

  lemma {:induction false} RankingStep(c: Catalog, profiles: Profiles, loads: Loads, task: RuntimeTask, agents: seq<AgentSpec>, i: nat,
                                       decisions: seq<Decision>, decided: Option<Decision>)
    requires Ranking(c, profiles, loads, task, agents, i, decisions) && i < |agents|
    requires BelowCapacity(profiles, loads, agents[i].agentId) ==>
      Expandable(c, agents[i].capabilities) && UnknownReached(c, agents[i].capabilities).None?
    requires if decided.Some? then IsDecision(c, profiles, loads, task, agents[i], decided.value)
      else !Eligible(c, profiles, loads, task, agents[i])
    ensures Ranking(c, profiles, loads, task, agents, i + 1, if decided.Some? then decisions + [decided.value] else decisions)
  {
    assert agents[..i + 1][..i] == agents[..i];
    assert agents[i..][1..] == agents[i + 1..];
    if decided.Some? { DecisionUnique(c, profiles, loads, task, agents[i], decided.value); }
  }

  lemma {:induction false} RankingFails(c: Catalog, profiles: Profiles, loads: Loads, task: RuntimeTask, agents: seq<AgentSpec>, i: nat,
                                        decisions: seq<Decision>)
    requires Ranking(c, profiles, loads, task, agents, i, decisions) && i < |agents|
    requires BelowCapacity(profiles, loads, agents[i].agentId)
    requires !Expandable(c, agents[i].capabilities) && UnknownReached(c, agents[i].capabilities).Some?
    ensures !Rankable(c, profiles, loads, task, agents)
    ensures AgentProblem(c, profiles, loads, agents) == UnknownReached(c, agents[i].capabilities)
  {
    assert agents[i] in agents;
  }

  lemma {:induction false} RankingEnds(c: Catalog, profiles: Profiles, loads: Loads, task: RuntimeTask, agents: seq<AgentSpec>,
                                       decisions: seq<Decision>)
    requires Ranking(c, profiles, loads, task, agents, |agents|, decisions)
    ensures forall a :: a in agents && BelowCapacity(profiles, loads, a.agentId) ==> Expandable(c, a.capabilities)
    ensures AgentProblem(c, profiles, loads, agents).None? && decisions == Decisions(c, profiles, loads, task, agents)
  {
    assert agents[..|agents|] == agents;
    forall a | a in agents && BelowCapacity(profiles, loads, a.agentId) ensures Expandable(c, a.capabilities) {
      var j :| 0 <= j < |agents| && agents[j] == a;
    }
  }

  class AgentScheduler {
    const graph: CapabilityGraph
    const profiles: Profiles

    constructor (graph: CapabilityGraph, profiles: Profiles)
      ensures this.graph == graph && this.profiles == profiles
    {
      this.graph := graph;
      this.profiles := profiles;
    }

    method Weigh(ids: set<string>) returns (r: real)
      ensures r == TotalWeight(graph.Contents(), Sorted(ids))
    {
      var listing := SortedKeys(ids);
      r := 0.0;
      for i := 0 to |listing|
        invariant r == TotalWeight(graph.Contents(), listing[..i])
      {
        assert listing[..i + 1][..i] == listing[..i];
        r := r + WeightOf(graph.Contents(), listing[i]);
      }
      assert listing[..|listing|] == listing;
    }

    /** The decision about one agent, if it is eligible. */
    method Decide(task: RuntimeTask, required: set<string>, agent: AgentSpec, loads: Loads)
      returns (r: Result<Option<Decision>, SchedulerError>)
      requires IsClosure(graph.Contents(), task.requiredCapabilities, required)
      ensures r.Failure? <==>
        BelowCapacity(profiles, loads, agent.agentId) && !Expandable(graph.Contents(), agent.capabilities)
      ensures if r.Failure?
        then r.error.CapabilityProblem? && r.error.error.UnknownCapability?
          && UnknownReached(graph.Contents(), agent.capabilities) == Some(r.error.error.id)
        else BelowCapacity(profiles, loads, agent.agentId) ==> UnknownReached(graph.Contents(), agent.capabilities).None?
      ensures r.Success? && r.value.None? ==> !Eligible(graph.Contents(), profiles, loads, task, agent)
      ensures r.Success? && r.value.Some? ==>
        IsDecision(graph.Contents(), profiles, loads, task, agent, r.value.value)
    {
      var profile := ProfileOf(profiles, agent.agentId);
      var load := LoadOf(loads, agent.agentId);
      assert Bound(graph.Contents(), task.requiredCapabilities, required);
      if load >= profile.capacity {
        return Success(None);
      }
      var available := graph.Expand(agent.capabilities);
      if available.Failure? {
        return Failure(CapabilityProblem(available.error));
      }
      ClosureUnique(graph.Contents(), agent.capabilities, available.value, Closure(graph.Contents(), agent.capabilities));
      ClosureUnique(graph.Contents(), task.requiredCapabilities, required,
                    Closure(graph.Contents(), task.requiredCapabilities));
      if !(required <= available.value) {
        return Success(None);
      }
      var matchedWeight := Weigh(required);
      var extraWeight := Weigh(available.value - required);
      var ratio := load as real / profile.capacity as real;
      var score := matchedWeight * 100.0 + profile.priority as real * 10.0 + profile.reliability * 10.0
        - extraWeight - profile.cost - ratio * 20.0;
      var listing := SortedKeys(required);
      var matched := SortedKeys(required * available.value);
      assert required * available.value == required;
      r := Success(Some(Decision(task.taskId, agent.agentId, Rounded(score), listing, matched)));
    }

    /** One decision for each eligible agent, the best first. */
    method Rank(task: RuntimeTask, agents: seq<AgentSpec>, loads: Loads)
      returns (r: Result<seq<Decision>, SchedulerError>)
      ensures r.Success? <==> Rankable(graph.Contents(), profiles, loads, task, agents)
      ensures if r.Failure? then r.error == Complaint(graph.Contents(), profiles, loads, task, agents)
        else Complaint(graph.Contents(), profiles, loads, task, agents) == NoSchedulableAgent(task.taskId)
      ensures r.Success? ==> SortedBy(r.value, RankedBefore)
      ensures r.Success? ==> multiset(r.value) == multiset(Decisions(graph.Contents(), profiles, loads, task, agents))
      ensures r.Success? ==> forall d :: d in r.value <==> Decided(graph.Contents(), profiles, loads, task, agents, d)
    {
      var required := graph.Expand(task.requiredCapabilities);
      if required.Failure? {
        return Failure(CapabilityProblem(required.error));
      }
      var decisions: seq<Decision> := [];
      for i := 0 to |agents|
        invariant Ranking(graph.Contents(), profiles, loads, task, agents, i, decisions)
      {
        var decided := Decide(task, required.value, agents[i], loads);
        if decided.Failure? {
          RankingFails(graph.Contents(), profiles, loads, task, agents, i, decisions);
          return Failure(decided.error);
        }
        RankingStep(graph.Contents(), profiles, loads, task, agents, i, decisions, decided.value);
        if decided.value.Some? {
          decisions := decisions + [decided.value.value];
        }
      }
      RankingEnds(graph.Contents(), profiles, loads, task, agents, decisions);
      RankingIsOrder();
      StableSortSorts(decisions, RankedBefore);
      var ranked := StableSort(decisions, RankedBefore);
      forall d ensures d in ranked <==> Decided(graph.Contents(), profiles, loads, task, agents, d) {
        DecisionsAreDecided(graph.Contents(), profiles, loads, task, agents, d);
        assert d in multiset(ranked) <==> d in multiset(decisions);
      }
      r := Success(ranked);
    }

    method Select(task: RuntimeTask, agents: seq<AgentSpec>, loads: Loads) returns (r: Result<Decision, SchedulerError>)
      ensures r.Success? <==> Schedulable(graph.Contents(), profiles, loads, task, agents)
      ensures r.Success? ==> IsBest(graph.Contents(), profiles, loads, task, agents, r.value)
      ensures r.Failure? ==> r.error == Complaint(graph.Contents(), profiles, loads, task, agents)
    {
      ghost var c := graph.Contents();
      var ranked := Rank(task, agents, loads);
      if ranked.Failure? {
        return Failure(ranked.error);
      }
      SomeoneIsDecided(c, profiles, loads, task, agents);
      assert |multiset(ranked.value)| == |ranked.value|;
      if ranked.value == [] {
        return Failure(NoSchedulableAgent(task.taskId));
      }
      HeadIsBest(c, profiles, loads, task, agents, ranked.value);
      r := Success(ranked.value[0]);
    }
  }
}
