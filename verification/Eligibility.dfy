/** Which resource a goal is bound to for an agent, in the words of state keys, busy names and resource types. */
module Eligibility {
  import opened Text
  import opened Planning
  import opened Dispatch
  import opened Candidates
  import opened Holders
  import Reservation

  // ----- one resource

  /** Nothing busy has the resource's id or name. */
  predicate IsIdle(r: ResourceInfo, busy: set<string>) {
    forall k :: k in busy && k != "" ==> k != TrimSpace(r.id) && k != TrimSpace(r.name)
  }

  /** The entry for the resource's holder, if the state has one, names nobody or this very agent. */
  ghost predicate IsOpenTo(r: ResourceInfo, current: State, agent: AgentInfo) {
    forall k :: IsHeldUnder(r, current, k) ==> MeansNobody(current[k]) || AnswersTo(agent, Lower(TrimSpace(current[k])))
  }

  /** The goal asks for no type in particular, or for the resource's own. */
  predicate IsAskedFor(r: ResourceInfo, typeIDs: seq<string>) {
    || (forall x :: 0 <= x < |typeIDs| ==> TrimSpace(typeIDs[x]) == "")
    || (TrimSpace(r.parentID) != "" && exists x :: 0 <= x < |typeIDs| && TrimSpace(typeIDs[x]) == TrimSpace(r.parentID))
  }

  /** An instance of an asked type that is idle and not held by another agent. */
  ghost predicate IsEligible(t: Tick, agent: AgentInfo, g: Goal, busy: set<string>, r: ResourceInfo) {
    && !IsKind(r) && IsAskedFor(r, g.resourceTypeIDs) && IsIdle(r, busy) && IsOpenTo(r, t.current, agent)
  }

  lemma HolderMatches(value: string, agent: AgentInfo)
    requires TrimSpace(agent.id) != ""
    ensures MeansNobody(value) || AnswersTo(agent, Lower(TrimSpace(value)))
            <==> Holder(value) == "" || Holder(value) in HolderTokens(agent)
  {
    TokensAnswer(agent, Lower(TrimSpace(value)));
  }

  lemma OpenIsUnreserved(r: ResourceInfo, current: State, agent: AgentInfo)
    requires TrimSpace(agent.id) != ""
    ensures IsOpenTo(r, current, agent) <==> !ReservedByOther(r, current, agent)
  {
    var key := ReservationKey(r, current);
    HeldUnderIsKey(r, current, key);
    forall k ensures IsHeldUnder(r, current, k) <==> k != "" && k == key { HeldUnderIsKey(r, current, k); }
    if key != "" { HolderMatches(current[key], agent); }
  }

  lemma EligibleIsInScope(t: Tick, agent: AgentInfo, g: Goal, busy: set<string>, r: ResourceInfo)
    requires TrimSpace(agent.id) != ""
    ensures IsEligible(t, agent, g, busy, r) <==> AvailableTo(t, agent, busy)(r) && TypeFilter(g)(r)
  {
    OpenIsUnreserved(r, t.current, agent);
    AskedIsOfTypes(r, g.resourceTypeIDs);
  }

  lemma AskedIsOfTypes(r: ResourceInfo, typeIDs: seq<string>)
    ensures !IsKind(r) ==> (IsAskedFor(r, typeIDs) <==> OfTypes(r, typeIDs))
  {
  }

  // ----- the binding

  /** The resource at `x` is the first eligible one for which the goal's conditions hold. */
  ghost predicate IsFirstFit(t: Tick, agent: AgentInfo, g: Goal, busy: set<string>, a: AgentInfo, x: int) {
    && 0 <= x < |t.resources| && Fits(t, agent, g, busy, a, t.resources[x])
    && (forall y :: 0 <= y < x ==> !Fits(t, agent, g, busy, a, t.resources[y]))
  }

  ghost predicate Fits(t: Tick, agent: AgentInfo, g: Goal, busy: set<string>, a: AgentInfo, r: ResourceInfo) {
    IsEligible(t, agent, g, busy, r) && t.sv.holds(t.current, g.conditions, a, r)
  }

  lemma {:induction false} FirstOfFilter(s: seq<ResourceInfo>, p: ResourceInfo -> bool, q: ResourceInfo -> bool, j: nat)
    returns (x: nat)
    requires j < |Filter(s, p)| && q(Filter(s, p)[j]) && forall i :: 0 <= i < j ==> !q(Filter(s, p)[i])
    ensures x < |s| && s[x] == Filter(s, p)[j] && forall y :: 0 <= y < x ==> !(p(s[y]) && q(s[y]))
  {
    var n := |s| - 1;
    var front := s[..n];
    if j < |Filter(front, p)| {
      assert forall i :: 0 <= i <= j ==> Filter(front, p)[i] == Filter(s, p)[i];
      x := FirstOfFilter(front, p, q, j);
    } else {
      x := n;
      forall y | 0 <= y < n && p(s[y]) ensures !q(s[y]) {
        assert front[y] in Filter(front, p);
        var i :| 0 <= i < |Filter(front, p)| && Filter(front, p)[i] == front[y];
        assert Filter(s, p)[i] == front[y];
      }
    }
  }

  /** A display name, or the id when there is none. */
  function NameOr(name: string, id: string): string { TrimSpace(if TrimSpace(name) != "" then name else id) }

  /** The agent a goal's conditions are expanded for. */
  function AgentFor(g: Goal, agent: AgentInfo): AgentInfo { if g.needsAgent then agent else AgentInfo("", "") }

  /** The binding of a goal to what it mentions: the agent, the resource, both or neither. */
  function BoundTo(g: Goal, agent: AgentInfo, r: ResourceInfo): Binding {
    var (agentID, agentName) := if g.needsAgent then (TrimSpace(agent.id), NameOr(agent.name, agent.id)) else ("", "");
    var (resourceID, resourceName) := if g.needsResource then (TrimSpace(r.id), NameOr(r.name, r.id)) else ("", "");
    Binding(agentID, agentName, resourceID, resourceName)
  }

  /** The pairs in scope for one agent. */
  lemma OneAgentScope(t: Tick, agent: AgentInfo, g: Goal, busy: set<string>)
    ensures AgentScope(g, [agent], TrimSpace(agent.id)) == [AgentFor(g, agent)]
  {
  }

  lemma FirstFitIsFirstPair(t: Tick, agent: AgentInfo, g: Goal, busy: set<string>, i: int, j: int) returns (x: nat)
    requires TrimSpace(agent.id) != "" && g.needsResource
    requires FirstPair(
               t.sv, t.current, g, AgentScope(g, [agent], TrimSpace(agent.id)), InScope(t, agent, g, busy), i, j)
    ensures i == 0 && 0 <= j < |InScope(t, agent, g, busy)| && x < |t.resources|
    ensures t.resources[x] == InScope(t, agent, g, busy)[j]
    ensures IsFirstFit(t, agent, g, busy, AgentFor(g, agent), x)
  {
    var p1, p2 := AvailableTo(t, agent, busy), TypeFilter(g);
    var a := AgentFor(g, agent);
    var holds := (r: ResourceInfo) => t.sv.holds(t.current, g.conditions, a, r);
    var both := (r: ResourceInfo) => p2(r) && holds(r);
    OneAgentScope(t, agent, g, busy);
    var rs, available := InScope(t, agent, g, busy), Filter(t.resources, p1);
    forall y | 0 <= y < j ensures !holds(rs[y]) { assert !PairHolds(t.sv, t.current, g, [a], rs, 0, y); }
    var m := FirstOfFilter(available, p2, holds, j);
    assert rs[j] in rs;
    x := FirstOfFilter(t.resources, p1, both, m);
    assert t.resources[x] in available;
    EligibleIsInScope(t, agent, g, busy, t.resources[x]);
    forall y | 0 <= y < x ensures !Fits(t, agent, g, busy, a, t.resources[y]) {
      EligibleIsInScope(t, agent, g, busy, t.resources[y]);
    }
  }

  /** What the activation search looks through when the goal mentions a resource. */
  function InScope(t: Tick, agent: AgentInfo, g: Goal, busy: set<string>): seq<ResourceInfo> {
    Filter(Filter(t.resources, AvailableTo(t, agent, busy)), TypeFilter(g))
  }

  lemma EligibleIsListed(t: Tick, agent: AgentInfo, g: Goal, busy: set<string>, r: ResourceInfo)
    requires TrimSpace(agent.id) != ""
    ensures r in InScope(t, agent, g, busy) <==> r in t.resources && IsEligible(t, agent, g, busy, r)
  {
    EligibleIsInScope(t, agent, g, busy, r);
  }

  /** A goal that mentions a resource is bound to the first eligible one for which its conditions hold, or to none. */
  lemma BoundToFirstFit(t: Tick, agent: AgentInfo, g: Goal, busy: set<string>)
    requires TrimSpace(agent.id) != "" && g.enabled && g.needsResource
    ensures match BindingOf(t, agent, g, busy)
            case None => forall r :: r in t.resources ==> !Fits(t, agent, g, busy, AgentFor(g, agent), r)
            case Some(b) => exists x: nat ::
              IsFirstFit(t, agent, g, busy, AgentFor(g, agent), x) && b == BoundTo(g, agent, t.resources[x])
  {
    var scope, rs, a := AgentScope(g, [agent], TrimSpace(agent.id)), InScope(t, agent, g, busy), AgentFor(g, agent);
    var available := Filter(t.resources, AvailableTo(t, agent, busy));
    OneAgentScope(t, agent, g, busy);
    if i, j :| FirstPair(t.sv, t.current, g, scope, rs, i, j) {
      var x := FirstFitIsFirstPair(t, agent, g, busy, i, j);
      ActivatedByFirst(t.sv, t.current, g, [agent], available, TrimSpace(agent.id), i, j);
    } else {
      forall r | r in t.resources ensures !Fits(t, agent, g, busy, a, r) {
        EligibleIsListed(t, agent, g, busy, r);
        if Fits(t, agent, g, busy, a, r) {
          var y :| 0 <= y < |rs| && rs[y] == r;
          var i, j := SomeFirstPair(t.sv, t.current, g, scope, rs, 0, y);
        }
      }
    }
  }

  /** A goal that mentions no resource is bound as soon as its conditions hold. */
  lemma BoundWithoutResource(t: Tick, agent: AgentInfo, g: Goal, busy: set<string>)
    requires g.enabled && !g.needsResource
    ensures BindingOf(t, agent, g, busy)
            == if (if g.needsAgent then t.sv.holds(t.current, g.conditions, agent, ResourceInfo("", "", "", ""))
                   else g.conditions == [] || t.sv.met(t.current, g.conditions))
               then Some(BoundTo(g, agent, NoResource)) else None
  {
    var scope, rs := AgentScope(g, [agent], TrimSpace(agent.id)), [NoResource];
    var available := Filter(t.resources, AvailableTo(t, agent, busy));
    OneAgentScope(t, agent, g, busy);
    if g.needsAgent {
      assert PairHolds(t.sv, t.current, g, scope, rs, 0, 0) <==> t.sv.holds(t.current, g.conditions, agent, NoResource);
      if PairHolds(t.sv, t.current, g, scope, rs, 0, 0) {
        assert FirstPair(t.sv, t.current, g, scope, rs, 0, 0);
        ActivatedByFirst(t.sv, t.current, g, [agent], available, TrimSpace(agent.id), 0, 0);
      }
    }
  }

  /** A goal that is switched off is never bound. */
  lemma DisabledIsUnbound(t: Tick, agent: AgentInfo, g: Goal, busy: set<string>)
    requires !g.enabled
    ensures BindingOf(t, agent, g, busy) == None
  {
  }
}
