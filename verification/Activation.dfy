/**
 The activation search with nothing left open: placeholders in conditions are filled in for an agent and a resource, and
 the expanded conditions are evaluated against the state.
 */
module Activation {
  import opened Text
  import opened Planning
  import opened Dispatch
  import P = Placeholders
  import G = GoalExpansion
  import C = Conditions

  // ----- which goals need an agent or a resource

  predicate MentionsIn(conditions: seq<Condition>, prefix: string) {
    exists i :: 0 <= i < |conditions|
      && (Contains(conditions[i].variable, prefix) || Contains(conditions[i].value, prefix))
  }

  /** goalUsesAgentPlaceholders and goalUsesResourcePlaceholders */
  predicate Mentions(g: Goal, prefix: string) {
    || MentionsIn(g.conditions, prefix)
    || exists k :: k in g.goalState && (Contains(k, prefix) || Contains(g.goalState[k], prefix))
  }

  /** The goal's flags say what its conditions and its goal state mention. */
  predicate Flagged(g: Goal) {
    g.needsAgent == Mentions(g, G.AGENT_PREFIX) && g.needsResource == Mentions(g, G.RESOURCE_PREFIX)
  }

  // ----- expanding conditions

  predicate NamesAgent(a: AgentInfo) { a.id != "" || a.name != "" }

  predicate NamesResource(r: ResourceInfo) { r.id != "" || r.name != "" }

  /** The text with the resource's names filled in, and then the agent's. */
  ghost function ForResource(s: string, r: ResourceInfo): string {
    if NamesResource(r) then G.Filled(TrimSpace(s), G.ResourceTable(r)) else TrimSpace(s)
  }

  ghost function ForPair(s: string, a: AgentInfo, r: ResourceInfo): string {
    if NamesAgent(a) then G.Filled(ForResource(s, r), G.AgentTable(a)) else ForResource(s, r)
  }

  /** Both fill-ins have one result whatever the iteration order of the replacement maps. */
  ghost predicate SureText(s: string, a: AgentInfo, r: ResourceInfo) {
    && (NamesResource(r) ==> G.Sure(TrimSpace(s), G.ResourceTable(r)))
    && (NamesAgent(a) ==> G.Sure(ForResource(s, r), G.AgentTable(a)))
  }

  ghost function ExpandedFor(c: Condition, a: AgentInfo, r: ResourceInfo): Condition {
    Condition(ForPair(c.variable, a, r), c.operator, ForPair(c.value, a, r))
  }

  ghost function Expander(a: AgentInfo, r: ResourceInfo): Condition -> Condition {
    (c: Condition) => ExpandedFor(c, a, r)
  }

  function Each(conditions: seq<Condition>, f: Condition -> Condition): (xs: seq<Condition>)
    ensures |xs| == |conditions|
  {
    seq(|conditions|, i requires 0 <= i < |conditions| => f(conditions[i]))
  }

  lemma EachStep(conditions: seq<Condition>, i: nat, f: Condition -> Condition)
    requires i < |conditions|
    ensures Each(conditions[..i + 1], f) == Each(conditions[..i], f) + [f(conditions[i])]
  {
  }

  ghost function Expanded(conditions: seq<Condition>, a: AgentInfo, r: ResourceInfo): (xs: seq<Condition>)
    ensures |xs| == |conditions|
  {
    Each(conditions, Expander(a, r))
  }

  ghost predicate SureConditions(conditions: seq<Condition>, a: AgentInfo, r: ResourceInfo) {
    forall i :: 0 <= i < |conditions| ==> SureText(conditions[i].variable, a, r) && SureText(conditions[i].value, a, r)
  }

  method FillPair(s: string, a: AgentInfo, r: ResourceInfo) returns (x: string)
    ensures SureText(s, a, r) ==> x == ForPair(s, a, r)
  {
    x := TrimSpace(s);
    if NamesResource(r) {
      x := P.Fill(x, G.ResourceTable(r));
      if SureText(s, a, r) { G.SureIsFilled(TrimSpace(s), G.ResourceTable(r), x); }
    }
    if NamesAgent(a) {
      ghost var middle := x;
      x := P.Fill(x, G.AgentTable(a));
      if SureText(s, a, r) { G.SureIsFilled(middle, G.AgentTable(a), x); }
    }
  }

  /** expandRealtimeActivationConditions */
  method ExpandConditions(conditions: seq<Condition>, a: AgentInfo, r: ResourceInfo) returns (xs: seq<Condition>)
    ensures SureConditions(conditions, a, r) ==> xs == Expanded(conditions, a, r)
  {
    ghost var expander := Expander(a, r);
    xs := [];
    for i := 0 to |conditions|
      invariant SureConditions(conditions, a, r) ==> xs == Each(conditions[..i], expander)
    {
      var x := ExpandOne(conditions[i], a, r);
      EachStep(conditions, i, expander);
      xs := xs + [x];
    }
    assert conditions[..|conditions|] == conditions;
  }

  method ExpandOne(c: Condition, a: AgentInfo, r: ResourceInfo) returns (x: Condition)
    ensures SureText(c.variable, a, r) && SureText(c.value, a, r) ==> x == Expander(a, r)(c)
  {
    var variable := FillPair(c.variable, a, r);
    var value := FillPair(c.value, a, r);
    x := Condition(variable, c.operator, value);
  }

  // ----- one pair

  /** hasUnresolvedConditionPlaceholders */
  predicate Unresolved(conditions: seq<Condition>) {
    MentionsIn(conditions, G.AGENT_PREFIX) || MentionsIn(conditions, G.RESOURCE_PREFIX)
  }

  predicate AllMet(current: State, conditions: seq<Condition>) {
    forall i :: 0 <= i < |conditions| ==> C.Evaluate(current, conditions[i]).Met?
  }

  /** The conditions expanded for the pair are resolved, and all of them are met. */
  ghost predicate HoldsFor(current: State, conditions: seq<Condition>, a: AgentInfo, r: ResourceInfo) {
    !Unresolved(Expanded(conditions, a, r)) && AllMet(current, Expanded(conditions, a, r))
  }

  /** The body of the two loops of realtimeActivationConditionsMet; a failing evaluation is not met. */
  method PairIsMet(current: State, conditions: seq<Condition>, a: AgentInfo, r: ResourceInfo) returns (met: bool)
    ensures SureConditions(conditions, a, r) ==> met == HoldsFor(current, conditions, a, r)
  {
    var expanded := ExpandConditions(conditions, a, r);
    if Unresolved(expanded) { return false; }
    var verdict := C.ConditionsMet(current, expanded);
    met := verdict.Met?;
    assert met == AllMet(current, expanded) by {
      assert forall i :: 0 <= i < |expanded| ==>
        C.Evaluator(current)(expanded[i]) == C.Evaluate(current, expanded[i]);
    }
  }

  // ----- the search

  /** The dispatcher's services with conditions evaluated as above. */
  ghost function Concretely(sv: Services): Services {
    sv.(met := (st: State, cs: seq<Condition>) => AllMet(st, cs),
        holds := (st: State, cs: seq<Condition>, a: AgentInfo, r: ResourceInfo) => HoldsFor(st, cs, a, r))
  }

  lemma StaysHonest(sv: Services)
    requires Honest(sv)
    ensures Honest(Concretely(sv))
  {
    forall st, g, b, agent | agent != "" && IsTrimmed(agent)
      ensures SolvesFor(Concretely(sv).solve(st, g, b, agent), agent)
    {
      assert Concretely(sv).solve(st, g, b, agent) == sv.solve(st, g, b, agent);
    }
  }

  /** Some agent and resource in scope satisfy the expanded conditions. */
  ghost predicate SomePairHolds(
    current: State, g: Goal, agents: seq<AgentInfo>, resources: seq<ResourceInfo>, preferred: string)
  {
    exists a, r :: a in AgentScope(g, agents, preferred) && r in ResourceScope(g, resources)
                   && HoldsFor(current, g.conditions, a, r)
  }

  /**
   The activation search is sound and complete down to the texts: a goal that mentions neither is activated if and only
   if its conditions are met, any other if and only if some pair in scope satisfies its conditions, expanded for the
   pair.
   */
  lemma ConcreteActivationIsExact(
    sv: Services, current: State, g: Goal, agents: seq<AgentInfo>, resources: seq<ResourceInfo>, preferred: string)
    requires Flagged(g)
    ensures Activated(Concretely(sv), current, g, agents, resources, preferred).Some? <==>
              if !Mentions(g, G.AGENT_PREFIX) && !Mentions(g, G.RESOURCE_PREFIX) then AllMet(current, g.conditions)
              else SomePairHolds(current, g, agents, resources, preferred)
  {
    if !IsPlain(g) {
      ActivationIsExact(Concretely(sv), current, g, agents, resources, preferred);
      PairsHold(sv, current, g, AgentScope(g, agents, preferred), ResourceScope(g, resources));
    }
  }

  lemma PairsHold(
    sv: Services, current: State, g: Goal, agents: seq<AgentInfo>, resources: seq<ResourceInfo>)
    ensures (exists i, j :: PairHolds(Concretely(sv), current, g, agents, resources, i, j)) <==>
            exists a, r :: a in agents && r in resources && HoldsFor(current, g.conditions, a, r)
  {
    if i, j :| PairHolds(Concretely(sv), current, g, agents, resources, i, j) {
      assert agents[i] in agents && resources[j] in resources;
    }
    if a, r :| a in agents && r in resources && HoldsFor(current, g.conditions, a, r) {
      var i :| 0 <= i < |agents| && agents[i] == a;
      var j :| 0 <= j < |resources| && resources[j] == r;
      assert PairHolds(Concretely(sv), current, g, agents, resources, i, j);
    }
  }

  /** Conditions whose braces belong to whole placeholders are sure for names without an opening brace. */
  lemma CarefulConditionsAreSure(conditions: seq<Condition>, a: AgentInfo, r: ResourceInfo)
    requires P.Braceless(G.ResourceTable(r)) && P.Braceless(G.AgentTable(a))
    requires forall i :: 0 <= i < |conditions| ==>
      P.WellBraced(TrimSpace(conditions[i].variable)) && P.WellBraced(TrimSpace(conditions[i].value))
    ensures SureConditions(conditions, a, r)
  {
    forall i | 0 <= i < |conditions|
      ensures SureText(conditions[i].variable, a, r) && SureText(conditions[i].value, a, r)
    {
      CarefulTextIsSure(conditions[i].variable, a, r);
      CarefulTextIsSure(conditions[i].value, a, r);
    }
  }

  lemma CarefulTextIsSure(s: string, a: AgentInfo, r: ResourceInfo)
    requires P.Braceless(G.ResourceTable(r)) && P.Braceless(G.AgentTable(a)) && P.WellBraced(TrimSpace(s))
    ensures SureText(s, a, r)
  {
    P.WellBracedIsSafe(TrimSpace(s), G.ResourceTable(r));
    if NamesResource(r) { G.SureIsFilled(TrimSpace(s), G.ResourceTable(r), ForResource(s, r)); }
    P.WellBracedIsSafe(ForResource(s, r), G.AgentTable(a));
  }
}
