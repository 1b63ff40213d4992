/** How one tick of a realtime session picks work: busy sets, activation search and dispatch candidates. */
module Dispatch {
  import opened Text
  import opened Planning

  datatype Option<+T> = None | Some(value: T)

  datatype Condition = Condition(variable: string, operator: string, value: string)

  /** `needsAgent` and `needsResource`: its conditions or goal state mention agent or resource placeholders. */
  datatype Goal = Goal(
    id: string, name: string, priority: int, enabled: bool, conditions: seq<Condition>,
    resourceTypeIDs: seq<string>, goalState: State, needsAgent: bool, needsResource: bool)

  datatype Binding = Binding(agentID: string, agentName: string, resourceID: string, resourceName: string)

  datatype Solution = SolveError(message: string) | Solved(isValid: bool, plan: Plan)

  /**
   What the dispatcher asks others: whether plain conditions are met, whether conditions expanded for an agent and a
   resource are resolved and met, whether a bound goal already holds, whether an agent reports idle, and the planner.
   */
  datatype Services = Services(
    met: (State, seq<Condition>) -> bool,
    holds: (State, seq<Condition>, AgentInfo, ResourceInfo) -> bool,
    satisfied: (State, Goal, Binding) -> bool,
    idle: (State, AgentInfo) -> bool,
    solve: (State, Goal, Binding, string) -> Solution)

  /** The planner is given one agent by its trimmed id and assigns every task to it. */
  ghost predicate Honest(sv: Services) {
    forall st, g, b, agent :: agent != "" && IsTrimmed(agent) ==> SolvesFor(sv.solve(st, g, b, agent), agent)
  }

  predicate SolvesFor(s: Solution, agent: string) {
    s.Solved? ==> forall i :: 0 <= i < |s.plan| ==> TrimSpace(s.plan[i].agentID) == agent
  }

  function Reassigned(plan: Plan, agent: string): (r: Plan)
    ensures |r| == |plan| && forall i :: 0 <= i < |r| ==> r[i] == plan[i].(agentID := agent)
  {
    seq(|plan|, i requires 0 <= i < |plan| => plan[i].(agentID := agent))
  }

  function GivenTo(s: Solution, agent: string): Solution {
    match s
    case SolveError(message) => SolveError(message)
    case Solved(isValid, plan) => Solved(isValid, Reassigned(plan, agent))
  }

  /** Any planner becomes honest when its tasks are all given to the agent it was asked for. */
  lemma ReassigningIsHonest(sv: Services)
    ensures Honest(sv.(solve := (st: State, g: Goal, b: Binding, agent: string) =>
                         GivenTo(sv.solve(st, g, b, agent), agent)))
  {
    var honest := sv.(solve := (st: State, g: Goal, b: Binding, agent: string) =>
                        GivenTo(sv.solve(st, g, b, agent), agent));
    forall st, g, b, agent | agent != "" && IsTrimmed(agent) ensures SolvesFor(honest.solve(st, g, b, agent), agent) {
      assert honest.solve(st, g, b, agent) == GivenTo(sv.solve(st, g, b, agent), agent);
      assert TrimSpace(agent) == agent;
    }
  }

  // ----- filtering lists

  function Filter<T(!new)>(s: seq<T>, p: T -> bool): (r: seq<T>)
    ensures forall x :: x in r <==> x in s && p(x)
  {
    if s == [] then []
    else
      var last := s[|s| - 1];
      assert s == s[..|s| - 1] + [last];
      if p(last) then Filter(s[..|s| - 1], p) + [last] else Filter(s[..|s| - 1], p)
  }

  method Keep<T(!new)>(s: seq<T>, p: T -> bool) returns (r: seq<T>)
    ensures r == Filter(s, p)
  {
    r := [];
    var i := 0;
    while i < |s|
      invariant 0 <= i <= |s| && r == Filter(s[..i], p)
    {
      assert s[..i + 1][..i] == s[..i];
      if p(s[i]) { r := r + [s[i]]; }
      i := i + 1;
    }
    assert s[..i] == s;
  }

  // ----- busy agents and resources

  function NonBlank(values: set<string>): (r: set<string>)
    ensures forall k :: k in r ==> k != ""
  {
    set v | v in values && !IsBlank(v) :: TrimSpace(v)
  }

  const RESOURCE_PARAMS := ["resource_id", "resource_name", "resource.id", "resource.name"]

  /** The resource keys a task's runtime parameters name. */
  function TaskKeys(a: TaskAssignment): set<string> {
    if a.runtimeParams == map[] then {}
    else NonBlank((set p | p in RESOURCE_PARAMS && p in a.runtimeParams :: a.runtimeParams[p]) + a.fleetBindings)
  }

  function PlanKeys(plan: Plan): set<string> {
    if plan == [] then {} else PlanKeys(plan[..|plan| - 1]) + TaskKeys(plan[|plan| - 1])
  }

  function PlanAgents(plan: Plan): set<string> {
    if plan == [] then {} else PlanAgents(plan[..|plan| - 1]) + NonBlank({plan[|plan| - 1].agentID})
  }

  /** The assignment names the resource `k`, by one of the four resource parameters or by a fleet binding. */
  ghost predicate NamesKey(a: TaskAssignment, k: string) {
    k != "" && a.runtimeParams != map[] && (ByParameter(a, k) || exists v :: v in a.fleetBindings && TrimSpace(v) == k)
  }

  ghost predicate ByParameter(a: TaskAssignment, k: string) {
    exists p :: p in a.runtimeParams && TrimSpace(a.runtimeParams[p]) == k
                && (p == "resource_id" || p == "resource_name" || p == "resource.id" || p == "resource.name")
  }

  lemma TaskKeysAreNamed(a: TaskAssignment, k: string)
    ensures k in TaskKeys(a) <==> NamesKey(a, k)
  {
    assert forall p :: p in RESOURCE_PARAMS <==>
      p == "resource_id" || p == "resource_name" || p == "resource.id" || p == "resource.name";
    if NamesKey(a, k) {
      if ByParameter(a, k) {
        var p :| p in a.runtimeParams && TrimSpace(a.runtimeParams[p]) == k && p in RESOURCE_PARAMS;
        assert a.runtimeParams[p] in (set q | q in RESOURCE_PARAMS && q in a.runtimeParams :: a.runtimeParams[q]);
      }
    }
  }

  ghost predicate SomeNames(plan: Plan, k: string) { exists x :: 0 <= x < |plan| && NamesKey(plan[x], k) }

  ghost predicate SomeGivenTo(plan: Plan, k: string) { exists x :: 0 <= x < |plan| && TrimSpace(plan[x].agentID) == k }

  /** A plan's resource keys are exactly what its assignments name. */
  lemma {:induction false} PlanKeysAreNamed(plan: Plan, k: string)
    ensures k in PlanKeys(plan) <==> SomeNames(plan, k)
  {
    if plan != [] {
      var front, last := plan[..|plan| - 1], plan[|plan| - 1];
      PlanKeysAreNamed(front, k);
      TaskKeysAreNamed(last, k);
      LastOrBefore(plan, front, last, k);
    }
  }

  lemma LastOrBefore(plan: Plan, front: Plan, last: TaskAssignment, k: string)
    requires plan == front + [last]
    ensures SomeNames(plan, k) <==> SomeNames(front, k) || NamesKey(last, k)
    ensures SomeGivenTo(plan, k) <==> SomeGivenTo(front, k) || TrimSpace(last.agentID) == k
  {
    assert plan[|front|] == last;
    if x :| 0 <= x < |front| && NamesKey(front[x], k) { assert NamesKey(plan[x], k); }
    if x :| 0 <= x < |front| && TrimSpace(front[x].agentID) == k { assert TrimSpace(plan[x].agentID) == k; }
  }

  /** A plan's agents are exactly those its assignments are given to. */
  lemma {:induction false} PlanAgentsAreNamed(plan: Plan, k: string)
    ensures k in PlanAgents(plan) <==> k != "" && SomeGivenTo(plan, k)
  {
    if plan != [] {
      var front, last := plan[..|plan| - 1], plan[|plan| - 1];
      PlanAgentsAreNamed(front, k);
      assert last.agentID in {last.agentID};
      LastOrBefore(plan, front, last, k);
    }
  }

  /** Everything an execution of `plan` under `b` occupies. */
  function Keys(b: Binding, plan: Plan): set<string> { NonBlank({b.resourceID, b.resourceName}) + PlanKeys(plan) }

  function Agents(b: Binding, plan: Plan): set<string> { NonBlank({b.agentID}) + PlanAgents(plan) }

  /** markBusyAgentsAndResourcesFromPlan */
  method MarkBusy(plan: Plan, busyAgents: set<string>, busyResources: set<string>)
    returns (agents: set<string>, resources: set<string>)
    ensures agents == busyAgents + PlanAgents(plan) && resources == busyResources + PlanKeys(plan)
    ensures forall k :: k in agents <==>
              k in busyAgents || (k != "" && SomeGivenTo(plan, k))
    ensures forall k :: k in resources <==>
              k in busyResources || SomeNames(plan, k)
  {
    agents, resources := busyAgents, busyResources;
    var i := 0;
    while i < |plan|
      invariant 0 <= i <= |plan|
      invariant agents == busyAgents + PlanAgents(plan[..i])
      invariant resources == busyResources + PlanKeys(plan[..i])
    {
      assert plan[..i + 1][..i] == plan[..i];
      agents := agents + NonBlank({plan[i].agentID});
      resources := resources + TaskKeys(plan[i]);
      i := i + 1;
    }
    assert plan[..i] == plan;
    forall k { PlanAgentsAreNamed(plan, k); }
    forall k { PlanKeysAreNamed(plan, k); }
  }

  /** planBusyResourceConflicts */
  method PlanConflicts(plan: Plan, busy: set<string>) returns (conflicts: set<string>)
    ensures conflicts == PlanKeys(plan) * busy
    ensures forall k :: k in conflicts <==> k in busy && SomeNames(plan, k)
  {
    conflicts := {};
    var i := 0;
    while i < |plan|
      invariant 0 <= i <= |plan| && conflicts == PlanKeys(plan[..i]) * busy
    {
      ConflictStep(plan, i, busy);
      conflicts := conflicts + TaskKeys(plan[i]) * busy;
      i := i + 1;
    }
    assert plan[..i] == plan;
    forall k { PlanKeysAreNamed(plan, k); }
  }

  lemma ConflictStep(plan: Plan, i: nat, busy: set<string>)
    requires i < |plan|
    ensures PlanKeys(plan[..i + 1]) * busy == PlanKeys(plan[..i]) * busy + TaskKeys(plan[i]) * busy
  {
    assert plan[..i + 1][..i] == plan[..i];
    Distribute(PlanKeys(plan[..i]), TaskKeys(plan[i]), busy);
  }

  lemma Distribute(a: set<string>, b: set<string>, c: set<string>)
    ensures (a + b) * c == a * c + b * c
  {
  }

  lemma {:induction false} PlanAgentsOf(plan: Plan, agent: string)
    requires plan != [] && agent != ""
    requires forall i :: 0 <= i < |plan| ==> TrimSpace(plan[i].agentID) == agent
    ensures PlanAgents(plan) == {agent}
  {
    var last := plan[|plan| - 1];
    assert last.agentID in {last.agentID} && NonBlank({last.agentID}) == {agent};
    if |plan| > 1 { PlanAgentsOf(plan[..|plan| - 1], agent); }
  }

  // ----- resources an agent may use

  predicate IsType(r: ResourceInfo) { Lower(TrimSpace(r.kind)) == "type" }

  predicate IsBusy(r: ResourceInfo, busy: set<string>) {
    || (!IsBlank(r.id) && TrimSpace(r.id) in busy)
    || (!IsBlank(r.name) && TrimSpace(r.name) in busy)
  }

  function HolderKey(s: string): (r: string)
    ensures |r| > 0 && r[|r| - 1] == 'y'
  {
    s + "_reserved_by"
  }

  /** The state key that records who holds the resource, "" when there is none. */
  function ReservationKey(r: ResourceInfo, current: State): (k: string)
    ensures k != "" ==> k in current && k[|k| - 1] == 'y'
  {
    var byName, byID := HolderKey(TrimSpace(r.name)), HolderKey(TrimSpace(r.id));
    if byName in current then byName else if byID in current then byID else ""
  }

  function Holder(value: string): string {
    var v := Lower(TrimSpace(value));
    if v in {"", "none", "null", "nil", "-", "na", "n/a", "false"} then "" else v
  }

  function Underscored(s: string): (r: string)
    ensures |r| == |s|
  {
    seq(|s|, i requires 0 <= i < |s| => if s[i] == '-' then '_' else s[i])
  }

  function HolderTokens(a: AgentInfo): set<string> {
    var id := TrimSpace(a.id);
    var name := if IsBlank(a.name) then id else TrimSpace(a.name);
    NonBlank({Lower(id), Lower(name), Lower(Underscored(id)), Lower(Underscored(name))})
  }

  predicate ReservedByOther(r: ResourceInfo, current: State, agent: AgentInfo) {
    var key := ReservationKey(r, current);
    key != "" && Holder(current[key]) != "" && Holder(current[key]) !in HolderTokens(agent)
  }

  /** The two availability filters in sequence. */
  predicate Available(r: ResourceInfo, current: State, agent: AgentInfo, busy: set<string>) {
    IsType(r) || (!IsBusy(r, busy) && !ReservedByOther(r, current, agent))
  }

  // ----- rotating agents

  /** The first agent with the preferred id, or the number of agents. */
  function Pivot(agents: seq<AgentInfo>, preferred: string): (p: nat)
    ensures p <= |agents|
    ensures p < |agents| ==> TrimSpace(agents[p].id) == preferred
    ensures forall i :: 0 <= i < p ==> TrimSpace(agents[i].id) != preferred
  {
    if agents == [] || TrimSpace(agents[0].id) == preferred then 0 else 1 + Pivot(agents[1..], preferred)
  }

  /** Index arithmetic on a ring of `n`. */
  function Wrap(k: nat, n: nat): (r: nat)
    requires k < 2 * n
    ensures r < n
  {
    if k < n then k else k - n
  }

  lemma WrapIsMod(k: nat, n: nat)
    requires k < 2 * n
    ensures k % n == Wrap(k, n)
  {
    if k >= n {
      assert k == 1 * n + (k - n);
    }
  }

  /** The agents starting after the preferred one. */
  function Rotated(agents: seq<AgentInfo>, preferred: string): (r: seq<AgentInfo>)
    ensures |r| == |agents|
  {
    if IsBlank(preferred) then agents else RotatedAfter(agents, Pivot(agents, TrimSpace(preferred)))
  }

  function RotatedAfter(agents: seq<AgentInfo>, pivot: nat): (r: seq<AgentInfo>)
    requires pivot <= |agents|
    ensures |r| == |agents|
  {
    if |agents| <= 1 || pivot == |agents| then agents else Ring(agents, pivot)
  }

  function Ring(agents: seq<AgentInfo>, pivot: nat): (r: seq<AgentInfo>)
    requires pivot < |agents|
    ensures |r| == |agents|
  {
    seq(|agents|, i requires 0 <= i < |agents| => agents[Wrap(pivot + 1 + i, |agents|)])
  }

  /** rotateAgentsByPreferred */
  method RotateAgents(agents: seq<AgentInfo>, preferred: string) returns (rotated: seq<AgentInfo>)
    ensures rotated == Rotated(agents, preferred)
  {
    if |agents| <= 1 || IsBlank(preferred) { return agents; }
    var pivot := FindPivot(agents, TrimSpace(preferred));
    if pivot == |agents| { return agents; }
    rotated := RotateFrom(agents, pivot);
  }

  method FindPivot(agents: seq<AgentInfo>, wanted: string) returns (pivot: nat)
    ensures pivot == Pivot(agents, wanted)
  {
    pivot := 0;
    while pivot < |agents| && TrimSpace(agents[pivot].id) != wanted
      invariant pivot <= Pivot(agents, wanted)
    {
      pivot := pivot + 1;
    }
  }

  method RotateFrom(agents: seq<AgentInfo>, pivot: nat) returns (rotated: seq<AgentInfo>)
    requires pivot < |agents|
    ensures rotated == Ring(agents, pivot)
  {
    rotated := [];
    for offset := 1 to |agents| + 1
      invariant |rotated| == offset - 1
      invariant forall i :: 0 <= i < |rotated| ==> rotated[i] == agents[Wrap(pivot + 1 + i, |agents|)]
    {
      WrapIsMod(pivot + offset, |agents|);
      rotated := rotated + [agents[(pivot + offset) % |agents|]];
    }
  }

  // ----- activation search

  const NoAgent := AgentInfo("", "")
  const NoResource := ResourceInfo("", "", "", "")

  predicate OfTypes(r: ResourceInfo, typeIDs: seq<string>) {
    !IsType(r) &&
    ((forall i :: 0 <= i < |typeIDs| ==> IsBlank(typeIDs[i]))
     || exists i :: 0 <= i < |typeIDs| && !IsBlank(typeIDs[i]) && TrimSpace(typeIDs[i]) == TrimSpace(r.parentID))
  }

  function TypeFilter(g: Goal): ResourceInfo -> bool { (r: ResourceInfo) => OfTypes(r, g.resourceTypeIDs) }

  function AgentScope(g: Goal, agents: seq<AgentInfo>, preferred: string): seq<AgentInfo> {
    if g.needsAgent then Rotated(agents, preferred) else [NoAgent]
  }

  function ResourceScope(g: Goal, resources: seq<ResourceInfo>): seq<ResourceInfo> {
    if g.needsResource then Filter(resources, TypeFilter(g)) else [NoResource]
  }

  function Named(name: string, id: string): string { if IsBlank(name) then TrimSpace(id) else TrimSpace(name) }

  function BindingFor(g: Goal, a: AgentInfo, r: ResourceInfo): Binding {
    Binding(
      if g.needsAgent then TrimSpace(a.id) else "", if g.needsAgent then Named(a.name, a.id) else "",
      if g.needsResource then TrimSpace(r.id) else "", if g.needsResource then Named(r.name, r.id) else "")
  }

  predicate IsPlain(g: Goal) { !g.needsAgent && !g.needsResource }

  /** Pair (i, j) of the scopes satisfies the goal's conditions. */
  predicate PairHolds(
    sv: Services, current: State, g: Goal, agents: seq<AgentInfo>, resources: seq<ResourceInfo>, i: int, j: int)
  {
    0 <= i < |agents| && 0 <= j < |resources| && sv.holds(current, g.conditions, agents[i], resources[j])
  }

  /** (i, j) is the first satisfying pair, agents before resources. */
  ghost predicate FirstPair(
    sv: Services, current: State, g: Goal, agents: seq<AgentInfo>, resources: seq<ResourceInfo>, i: int, j: int)
  {
    && PairHolds(sv, current, g, agents, resources, i, j)
    && (forall x, y :: PairHolds(sv, current, g, agents, resources, x, y) ==> i < x || (i == x && j <= y))
  }

  /** The binding the search yields. */
  ghost function Activated(
    sv: Services, current: State, g: Goal, agents: seq<AgentInfo>, resources: seq<ResourceInfo>, preferred: string)
    : Option<Binding>
  {
    if IsPlain(g) then
      if g.conditions == [] || sv.met(current, g.conditions) then Some(Binding("", "", "", "")) else None
    else
      var scope, rs := AgentScope(g, agents, preferred), ResourceScope(g, resources);
      if i, j :| FirstPair(sv, current, g, scope, rs, i, j) then Some(BindingFor(g, scope[i], rs[j])) else None
  }

  /** The binding is that of the first satisfying pair in rotated-agent, then resource order. */
  lemma ActivatedByFirst(
    sv: Services, current: State, g: Goal, agents: seq<AgentInfo>, resources: seq<ResourceInfo>, preferred: string,
    i: int, j: int)
    requires !IsPlain(g)
    requires FirstPair(sv, current, g, AgentScope(g, agents, preferred), ResourceScope(g, resources), i, j)
    ensures Activated(sv, current, g, agents, resources, preferred)
            == Some(BindingFor(g, AgentScope(g, agents, preferred)[i], ResourceScope(g, resources)[j]))
  {
    var scope, rs := AgentScope(g, agents, preferred), ResourceScope(g, resources);
    assert forall x, y :: FirstPair(sv, current, g, scope, rs, x, y) ==> x == i && y == j;
  }

  lemma ActivatedWitness(
    sv: Services, current: State, g: Goal, agents: seq<AgentInfo>, resources: seq<ResourceInfo>, preferred: string)
    returns (i: nat, j: nat)
    requires !IsPlain(g) && Activated(sv, current, g, agents, resources, preferred).Some?
    ensures i < |AgentScope(g, agents, preferred)| && j < |ResourceScope(g, resources)|
    ensures Activated(sv, current, g, agents, resources, preferred).value
            == BindingFor(g, AgentScope(g, agents, preferred)[i], ResourceScope(g, resources)[j])
  {
    var scope, rs := AgentScope(g, agents, preferred), ResourceScope(g, resources);
    var x, y :| FirstPair(sv, current, g, scope, rs, x, y);
    ActivatedByFirst(sv, current, g, agents, resources, preferred, x, y);
    i, j := x, y;
  }

  lemma {:induction false} SomeFirstPair(
    sv: Services, current: State, g: Goal, agents: seq<AgentInfo>, resources: seq<ResourceInfo>, x: int, y: int)
    returns (i: int, j: int)
    requires PairHolds(sv, current, g, agents, resources, x, y)
    ensures FirstPair(sv, current, g, agents, resources, i, j)
    decreases x, y
  {
    if a, b :| PairHolds(sv, current, g, agents, resources, a, b) && (a < x || (a == x && b < y)) {
      i, j := SomeFirstPair(sv, current, g, agents, resources, a, b);
    } else {
      i, j := x, y;
    }
  }

  /** The activation search is sound and complete over the pairs in scope. */
  lemma ActivationIsExact(
    sv: Services, current: State, g: Goal, agents: seq<AgentInfo>, resources: seq<ResourceInfo>, preferred: string)
    requires !IsPlain(g)
    ensures Activated(sv, current, g, agents, resources, preferred).Some? <==>
      exists i, j :: PairHolds(sv, current, g, AgentScope(g, agents, preferred), ResourceScope(g, resources), i, j)
  {
    var scope, rs := AgentScope(g, agents, preferred), ResourceScope(g, resources);
    if x, y :| PairHolds(sv, current, g, scope, rs, x, y) {
      var i, j := SomeFirstPair(sv, current, g, scope, rs, x, y);
    }
  }

  /** realtimeActivationConditionsMet */
  method ActivationConditionsMet(
    sv: Services, current: State, g: Goal, agents: seq<AgentInfo>, resources: seq<ResourceInfo>, preferred: string)
    returns (met: bool, binding: Binding)
    ensures Activated(sv, current, g, agents, resources, preferred) == if met then Some(binding) else None
  {
    binding := Binding("", "", "", "");
    if IsPlain(g) {
      met := g.conditions == [] || sv.met(current, g.conditions);
      return;
    }
    var scopedAgents := [NoAgent];
    if g.needsAgent { scopedAgents := RotateAgents(agents, preferred); }
    var scopedResources := [NoResource];
    if g.needsResource { scopedResources := Keep(resources, TypeFilter(g)); }
    assert scopedAgents == AgentScope(g, agents, preferred) && scopedResources == ResourceScope(g, resources);
    var i, j;
    met, i, j := SearchPairs(sv, current, g, scopedAgents, scopedResources);
    if met {
      ActivatedByFirst(sv, current, g, agents, resources, preferred, i, j);
      binding := BindingFor(g, scopedAgents[i], scopedResources[j]);
    }
  }

  /** The nested loops of the activation search. */
  method SearchPairs(sv: Services, current: State, g: Goal, agents: seq<AgentInfo>, resources: seq<ResourceInfo>)
    returns (found: bool, i: nat, j: nat)
    ensures found ==> FirstPair(sv, current, g, agents, resources, i, j)
    ensures !found ==> forall x, y :: !PairHolds(sv, current, g, agents, resources, x, y)
  {
    i, j := 0, 0;
    while i < |agents|
      invariant 0 <= i <= |agents|
      invariant forall x, y :: PairHolds(sv, current, g, agents, resources, x, y) ==> i <= x
    {
      j := 0;
      while j < |resources|
        invariant 0 <= j <= |resources|
        invariant forall x, y :: PairHolds(sv, current, g, agents, resources, x, y) ==> i < x || (i == x && j <= y)
      {
        if sv.holds(current, g.conditions, agents[i], resources[j]) {
          found := true;
          return;
        }
        j := j + 1;
      }
      i := i + 1;
    }
    found := false;
  }
}
