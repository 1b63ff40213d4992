/** What an expanded goal state holds, for goals put together from plain text and whole placeholders. */
module Grounding {
  import opened Text
  import opened Planning
  import opened Dispatch
  import opened Placeholders
  import opened GoalExpansion
  import Activation

  /** A piece of a goal text. */
  datatype Part =
    | Plain(text: string)
    | ResourceId | ResourceName | ResourceKind | ResourceParentId | ResourceParentResourceId
    | AgentId | AgentName

  predicate OfResource(p: Part) {
    p.ResourceId? || p.ResourceName? || p.ResourceKind? || p.ResourceParentId? || p.ResourceParentResourceId?
  }

  predicate OfAgent(p: Part) { p.AgentId? || p.AgentName? }

  /** How a piece is spelled in a goal. */
  function Spelled(p: Part): string {
    match p
    case Plain(text) => text
    case ResourceId => "{{resource.id}}"
    case ResourceName => "{{resource.name}}"
    case ResourceKind => "{{resource.kind}}"
    case ResourceParentId => "{{resource.parent_id}}"
    case ResourceParentResourceId => "{{resource.parent_resource_id}}"
    case AgentId => "{{agent.id}}"
    case AgentName => "{{agent.name}}"
  }

  /** What a piece stands for, given a resource and an agent. */
  function Meant(p: Part, r: ResourceInfo, a: AgentInfo): string {
    match p
    case Plain(text) => text
    case ResourceId => r.id
    case ResourceName => r.name
    case ResourceKind => r.kind
    case ResourceParentId => r.parentID
    case ResourceParentResourceId => r.parentID
    case AgentId => a.id
    case AgentName => a.name
  }

  function TextOf(parts: seq<Part>): string {
    if parts == [] then "" else Spelled(parts[0]) + TextOf(parts[1..])
  }

  function Meaning(parts: seq<Part>, r: ResourceInfo, a: AgentInfo): string {
    if parts == [] then "" else Meant(parts[0], r, a) + Meaning(parts[1..], r, a)
  }

  /** Plain pieces have no opening brace. */
  predicate IsTidy(parts: seq<Part>) { forall i :: 0 <= i < |parts| && parts[i].Plain? ==> '{' !in parts[i].text }

  predicate MentionsResource(parts: seq<Part>) { exists i :: 0 <= i < |parts| && OfResource(parts[i]) }

  predicate MentionsAgent(parts: seq<Part>) { exists i :: 0 <= i < |parts| && OfAgent(parts[i]) }

  // ----- finding the placeholders

  lemma PartIsPlaceholder(p: Part)
    requires !p.Plain?
    ensures IsPlaceholder(Spelled(p))
  {
  }

  lemma ResourceParts(p: Part)
    requires OfResource(p)
    ensures RESOURCE_PREFIX <= Spelled(p)
  {
  }

  lemma AgentParts(p: Part)
    requires OfAgent(p)
    ensures AGENT_PREFIX <= Spelled(p)
  {
  }

  /** No placeholder of the other family is found where a piece begins or inside it. */
  lemma NotAtFront(p: Part, rest: string, prefix: string, i: nat)
    requires i < |Spelled(p)| && prefix in {"{{resource.", "{{agent."}
    requires p.Plain? ==> '{' !in p.text
    requires if prefix == "{{resource." then !OfResource(p) else !OfAgent(p)
    ensures !OccursAt(Spelled(p) + rest, prefix, i)
  {
    var s, t := Spelled(p), Spelled(p) + rest;
    assert prefix[0] == '{' && prefix[1] == '{';
    if OccursAt(t, prefix, i) {
      assert t[i] == prefix[0] && t[i + 1] == prefix[1] && t[i + 2] == prefix[2];
      assert s[i] == '{';
      if !p.Plain? { PartIsPlaceholder(p); }
    }
  }

  lemma OccursBehind(s: string, rest: string, prefix: string, i: nat)
    ensures OccursAt(s + rest, prefix, |s| + i) <==> OccursAt(rest, prefix, i)
  {
    if OccursAt(rest, prefix, i) { assert (s + rest)[|s| + i..|s| + i + |prefix|] == rest[i..i + |prefix|]; }
    if OccursAt(s + rest, prefix, |s| + i) {
      assert (s + rest)[|s| + i..|s| + i + |prefix|] == rest[i..i + |prefix|];
    }
  }

  /** A text mentions a placeholder family exactly when a piece belongs to it. */
  lemma {:induction false} Mentioned(parts: seq<Part>, prefix: string)
    requires IsTidy(parts) && prefix in {"{{resource.", "{{agent."}
    ensures Contains(TextOf(parts), prefix) <==>
              if prefix == "{{resource." then MentionsResource(parts) else MentionsAgent(parts)
  {
    if parts != [] {
      var p, tail := parts[0], parts[1..];
      var s, rest := Spelled(p), TextOf(tail);
      assert parts == [p] + tail;
      Mentioned(tail, prefix);
      ContainsInParts(s, rest, prefix);
      if prefix == "{{resource." && OfResource(p) {
        ResourceParts(p);
        assert (s + rest)[..|prefix|] == prefix;
        assert OccursAt(s + rest, prefix, 0);
      } else if prefix == "{{agent." && OfAgent(p) {
        AgentParts(p);
        assert (s + rest)[..|prefix|] == prefix;
        assert OccursAt(s + rest, prefix, 0);
      } else {
        forall i: nat | i < |s| ensures !OccursAt(s + rest, prefix, i) { NotAtFront(p, rest, prefix, i); }
      }
    } else {
      assert prefix != "";
    }
  }

  lemma ContainsInParts(s: string, rest: string, prefix: string)
    requires prefix != ""
    ensures Contains(s + rest, prefix) <==>
              Contains(rest, prefix) || exists i :: 0 <= i < |s| && OccursAt(s + rest, prefix, i)
  {
    var t := s + rest;
    if i :| 0 <= i <= |t| && OccursAt(t, prefix, i) {
      if i >= |s| { OccursBehind(s, rest, prefix, i - |s|); }
    }
    if i :| 0 <= i <= |rest| && OccursAt(rest, prefix, i) {
      OccursBehind(s, rest, prefix, i);
      assert OccursAt(t, prefix, |s| + i);
    }
  }

  // ----- filling them in

  /** The pieces with those of the resource replaced by what they mean. */
  function WithResource(parts: seq<Part>, r: ResourceInfo): seq<Part> {
    if parts == [] then []
    else [if OfResource(parts[0]) then Plain(Meant(parts[0], r, NoAgent)) else parts[0]] + WithResource(parts[1..], r)
  }

  predicate PlainFields(r: ResourceInfo) { '{' !in r.id && '{' !in r.name && '{' !in r.kind && '{' !in r.parentID }

  predicate PlainNames(a: AgentInfo) { '{' !in a.id && '{' !in a.name }

  /** A piece in front of a text, filled in with a table. */
  lemma PartAtOnce(p: Part, rest: string, t: Table, value: string)
    requires IsTable(t) && (p.Plain? ==> '{' !in p.text)
    requires value == if !p.Plain? && Spelled(p) in t then t[Spelled(p)] else Spelled(p)
    ensures AtOnce(Spelled(p) + rest, t, t.Keys) == value + AtOnce(rest, t, t.Keys)
  {
    var s := Spelled(p);
    if p.Plain? { BracelessFront(s, rest, t, t.Keys); }
    else {
      PartIsPlaceholder(p);
      if s in t { OwnFront(s, rest, t, t.Keys); } else { ForeignFront(s, rest, t, t.Keys); }
    }
  }

  lemma ResourceTableReads(p: Part, r: ResourceInfo)
    requires !p.Plain?
    ensures var t := ResourceTable(r);
            if OfResource(p) then Spelled(p) in t && t[Spelled(p)] == Meant(p, r, NoAgent) else Spelled(p) !in t
  {
    TagsDiffer();
  }

  lemma AgentTableReads(p: Part, a: AgentInfo)
    requires !p.Plain?
    ensures var t := AgentTable(a);
            if OfAgent(p) then Spelled(p) in t && t[Spelled(p)] == Meant(p, NoResource, a) else Spelled(p) !in t
  {
    TagsDiffer();
  }

  /** The seven placeholders are seven texts. */
  lemma TagsDiffer()
    ensures forall p: Part, q: Part :: !p.Plain? && !q.Plain? && Spelled(p) == Spelled(q) ==> p == q
  {
    forall p: Part, q: Part | !p.Plain? && !q.Plain? && p != q ensures Spelled(p) != Spelled(q) {
      Telling(p);
      Telling(q);
    }
  }

  /** Length and third character tell the placeholders apart. */
  lemma Telling(p: Part)
    requires !p.Plain?
    ensures |Spelled(p)| == match p
                            case ResourceId => 15
                            case ResourceName => 17
                            case ResourceKind => 17
                            case ResourceParentId => 22
                            case ResourceParentResourceId => 31
                            case AgentId => 12
                            case AgentName => 14
                            case _ => 0
    ensures p.ResourceName? ==> Spelled(p)[11] == 'n'
    ensures p.ResourceKind? ==> Spelled(p)[11] == 'k'
  {
  }

  lemma {:induction false} TidyIsWellBraced(parts: seq<Part>)
    requires IsTidy(parts)
    ensures WellBraced(TextOf(parts))
  {
    if parts != [] {
      var p, rest := parts[0], TextOf(parts[1..]);
      TidyIsWellBraced(parts[1..]);
      if p.Plain? {
        WellBracedAppend(p.text, rest);
      } else {
        PartIsPlaceholder(p);
        assert (Spelled(p) + rest)[|Spelled(p)|..] == rest && Spelled(p) <= Spelled(p) + rest;
      }
    }
  }

  function WithAgent(parts: seq<Part>, a: AgentInfo): seq<Part> {
    if parts == [] then []
    else [if OfAgent(parts[0]) then Plain(Meant(parts[0], NoResource, a)) else parts[0]] + WithAgent(parts[1..], a)
  }

  lemma {:induction false} ResourceFilled(parts: seq<Part>, r: ResourceInfo)
    requires IsTidy(parts) && PlainFields(r)
    ensures AtOnce(TextOf(parts), ResourceTable(r), ResourceTable(r).Keys) == TextOf(WithResource(parts, r))
    ensures IsTidy(WithResource(parts, r))
  {
    if parts != [] {
      var p, tail := parts[0], parts[1..];
      ResourceFilled(tail, r);
      if !p.Plain? { ResourceTableReads(p, r); }
      PartAtOnce(p, TextOf(tail), ResourceTable(r), Spelled(WithResource(parts, r)[0]));
    }
  }

  lemma {:induction false} AgentFilled(parts: seq<Part>, a: AgentInfo)
    requires IsTidy(parts) && PlainNames(a)
    ensures AtOnce(TextOf(parts), AgentTable(a), AgentTable(a).Keys) == TextOf(WithAgent(parts, a))
    ensures IsTidy(WithAgent(parts, a))
  {
    if parts != [] {
      var p, tail := parts[0], parts[1..];
      AgentFilled(tail, a);
      if !p.Plain? { AgentTableReads(p, a); }
      PartAtOnce(p, TextOf(tail), AgentTable(a), Spelled(WithAgent(parts, a)[0]));
    }
  }

  lemma {:induction false} BothFilled(parts: seq<Part>, r: ResourceInfo, a: AgentInfo)
    ensures TextOf(WithAgent(WithResource(parts, r), a)) == Meaning(parts, r, a)
    ensures !MentionsResource(parts) ==> WithResource(parts, r) == parts
    ensures !MentionsAgent(parts) ==> TextOf(WithResource(parts, r)) == Meaning(parts, r, a)
    ensures MentionsAgent(WithResource(parts, r)) <==> MentionsAgent(parts)
  {
    if parts != [] {
      var p, tail := parts[0], parts[1..];
      assert parts == [p] + tail;
      BothFilled(tail, r, a);
      assert WithResource(parts, r)[1..] == WithResource(tail, r);
      assert MentionsResource(parts) <==> OfResource(p) || MentionsResource(tail);
      assert MentionsAgent(parts) <==> OfAgent(p) || MentionsAgent(tail);
    }
  }

  // ----- ground instances

  function EntryOf(ps: seq<Part>, qs: seq<Part>): GoalEntry { GoalEntry(TextOf(ps), TextOf(qs)) }

  function InstanceOf(ps: seq<Part>, qs: seq<Part>, r: ResourceInfo, a: AgentInfo): GoalEntry {
    GoalEntry(Meaning(ps, r, a), Meaning(qs, r, a))
  }

  /** A resource to expand the goal for: an instance if the goal mentions one, otherwise it does not matter. */
  predicate IsResourceFor(ps: seq<Part>, qs: seq<Part>, instances: seq<ResourceInfo>, r: ResourceInfo) {
    MentionsResource(ps) || MentionsResource(qs) ==> r in instances
  }

  predicate IsAgentFor(ps: seq<Part>, qs: seq<Part>, agents: seq<AgentInfo>, a: AgentInfo) {
    MentionsAgent(ps) || MentionsAgent(qs) ==> a in agents
  }

  predicate PlainWorld(w: World) {
    && (forall r :: r in w.instances ==> PlainFields(r)) && (forall a :: a in w.agents ==> PlainNames(a))
  }

  lemma NeedsAreMentions(ps: seq<Part>, qs: seq<Part>)
    requires IsTidy(ps) && IsTidy(qs)
    ensures NeedsResource(EntryOf(ps, qs)) <==> MentionsResource(ps) || MentionsResource(qs)
    ensures NeedsAgent(EntryOf(ps, qs)) <==> MentionsAgent(ps) || MentionsAgent(qs)
  {
    Mentioned(ps, "{{resource.");
    Mentioned(qs, "{{resource.");
    Mentioned(ps, "{{agent.");
    Mentioned(qs, "{{agent.");
    assert |"{{resource."| != |"{{agent."|;
  }

  lemma FilledForResource(ps: seq<Part>, qs: seq<Part>, r: ResourceInfo)
    requires IsTidy(ps) && IsTidy(qs) && PlainFields(r)
    ensures FilledEntry(EntryOf(ps, qs), ResourceTable(r)) == EntryOf(WithResource(ps, r), WithResource(qs, r))
  {
    TidyIsWellBraced(ps);
    TidyIsWellBraced(qs);
    CarefulIsSure(EntryOf(ps, qs), ResourceTable(r));
    ResourceFilled(ps, r);
    ResourceFilled(qs, r);
  }

  lemma FilledForAgent(ps: seq<Part>, qs: seq<Part>, a: AgentInfo)
    requires IsTidy(ps) && IsTidy(qs) && PlainNames(a)
    ensures FilledEntry(EntryOf(ps, qs), AgentTable(a)) == EntryOf(WithAgent(ps, a), WithAgent(qs, a))
  {
    TidyIsWellBraced(ps);
    TidyIsWellBraced(qs);
    CarefulIsSure(EntryOf(ps, qs), AgentTable(a));
    AgentFilled(ps, a);
    AgentFilled(qs, a);
  }

  /** What the goal becomes over the instances. */
  lemma ForSomeResource(ps: seq<Part>, qs: seq<Part>, m: GoalEntry, w: World)
    requires IsTidy(ps) && IsTidy(qs) && PlainWorld(w)
    ensures ForResource(EntryOf(ps, qs), m, w) <==>
              exists r :: IsResourceFor(ps, qs, w.instances, r)
                          && m == EntryOf(WithResource(ps, r), WithResource(qs, r))
  {
    var e := EntryOf(ps, qs);
    NeedsAreMentions(ps, qs);
    if NeedsResource(e) {
      forall r | r in w.instances
        ensures ResourceTable(r) in ResourceTables(w)
        ensures FilledEntry(e, ResourceTable(r)) == EntryOf(WithResource(ps, r), WithResource(qs, r))
      {
        var i :| 0 <= i < |w.instances| && w.instances[i] == r;
        assert ResourceTables(w)[i] == ResourceTable(r);
        FilledForResource(ps, qs, r);
      }
      if t :| t in ResourceTables(w) && m == FilledEntry(e, t) {
        var i :| 0 <= i < |w.instances| && ResourceTables(w)[i] == t;
        assert w.instances[i] in w.instances;
        assert IsResourceFor(ps, qs, w.instances, w.instances[i]);
      }
    } else {
      forall r ensures WithResource(ps, r) == ps && WithResource(qs, r) == qs {
        BothFilled(ps, r, NoAgent);
        BothFilled(qs, r, NoAgent);
      }
      assert IsResourceFor(ps, qs, w.instances, NoResource);
    }
  }

  /** What it becomes over the agents: `us` and `vs` are the pieces after the resources. */
  lemma ForSomeAgent(
    ps: seq<Part>, qs: seq<Part>, us: seq<Part>, vs: seq<Part>, r: ResourceInfo, x: GoalEntry, w: World)
    requires IsTidy(ps) && IsTidy(qs) && PlainWorld(w) && us == WithResource(ps, r) && vs == WithResource(qs, r)
    requires IsTidy(us) && IsTidy(vs)
    ensures ForAgent(EntryOf(ps, qs), EntryOf(us, vs), x, w) <==>
              exists a :: IsAgentFor(ps, qs, w.agents, a) && x == InstanceOf(ps, qs, r, a)
  {
    var e := EntryOf(ps, qs);
    NeedsAreMentions(ps, qs);
    if NeedsAgent(e) {
      forall a | a in w.agents
        ensures AgentTable(a) in AgentTables(w)
        ensures FilledEntry(EntryOf(us, vs), AgentTable(a)) == InstanceOf(ps, qs, r, a)
      {
        var i :| 0 <= i < |w.agents| && w.agents[i] == a;
        assert AgentTables(w)[i] == AgentTable(a);
        FilledForAgent(us, vs, a);
        BothFilled(ps, r, a);
        BothFilled(qs, r, a);
      }
      if t :| t in AgentTables(w) && x == FilledEntry(EntryOf(us, vs), t) {
        var i :| 0 <= i < |w.agents| && AgentTables(w)[i] == t;
        assert w.agents[i] in w.agents;
        assert IsAgentFor(ps, qs, w.agents, w.agents[i]);
      }
    } else {
      forall a ensures EntryOf(us, vs) == InstanceOf(ps, qs, r, a) {
        BothFilled(ps, r, a);
        BothFilled(qs, r, a);
      }
      assert IsAgentFor(ps, qs, w.agents, NoAgent);
    }
  }

  /** The ground instances of a goal are what its pieces mean for a resource and an agent. */
  lemma GroundIsMeant(ps: seq<Part>, qs: seq<Part>, x: GoalEntry, w: World)
    requires IsTidy(ps) && IsTidy(qs) && PlainWorld(w)
    ensures Ground(EntryOf(ps, qs), x, w) <==>
              exists r, a :: IsResourceFor(ps, qs, w.instances, r) && IsAgentFor(ps, qs, w.agents, a)
                             && x == InstanceOf(ps, qs, r, a)
  {
    var e := EntryOf(ps, qs);
    if m :| ForResource(e, m, w) && ForAgent(e, m, x, w) {
      ForSomeResource(ps, qs, m, w);
      var r :| IsResourceFor(ps, qs, w.instances, r) && m == EntryOf(WithResource(ps, r), WithResource(qs, r));
      StaysTidy(ps, qs, r, w);
      ForSomeAgent(ps, qs, WithResource(ps, r), WithResource(qs, r), r, x, w);
    }
    if r, a :| IsResourceFor(ps, qs, w.instances, r) && IsAgentFor(ps, qs, w.agents, a)
               && x == InstanceOf(ps, qs, r, a) {
      var m := EntryOf(WithResource(ps, r), WithResource(qs, r));
      ForSomeResource(ps, qs, m, w);
      StaysTidy(ps, qs, r, w);
      ForSomeAgent(ps, qs, WithResource(ps, r), WithResource(qs, r), r, x, w);
    }
  }

  lemma StaysTidy(ps: seq<Part>, qs: seq<Part>, r: ResourceInfo, w: World)
    requires IsTidy(ps) && IsTidy(qs) && PlainWorld(w) && IsResourceFor(ps, qs, w.instances, r)
    ensures IsTidy(WithResource(ps, r)) && IsTidy(WithResource(qs, r))
  {
    if MentionsResource(ps) || MentionsResource(qs) {
      ResourceFilled(ps, r);
      ResourceFilled(qs, r);
    } else {
      BothFilled(ps, r, NoAgent);
      BothFilled(qs, r, NoAgent);
    }
  }

  // ----- the expanded goal state

  predicate IsInstance(r: ResourceInfo) { Lower(TrimSpace(r.kind)) != "type" }

  /** Names and kinds of the instances and of the agents have no opening brace. */
  predicate IsPlainFleet(resources: seq<ResourceInfo>, agents: seq<AgentInfo>) {
    && (forall r :: r in resources && IsInstance(r) ==> PlainFields(r))
    && (forall a :: a in agents ==> PlainNames(a))
  }

  /** Every goal is put together from plain pieces and whole placeholders. */
  ghost predicate AreSpelled(goalState: State, variables: map<string, seq<Part>>, values: map<string, seq<Part>>) {
    forall v :: v in goalState ==>
      && v in variables && IsTidy(variables[v]) && TextOf(variables[v]) == v
      && v in values && IsTidy(values[v]) && TextOf(values[v]) == goalState[v]
  }

  /** The goal over `v` is expanded for the resource and the agent, as far as it mentions them. */
  predicate IsExpandedFor(
    ps: seq<Part>, qs: seq<Part>, resources: seq<ResourceInfo>, agents: seq<AgentInfo>, r: ResourceInfo, a: AgentInfo)
  {
    && (MentionsResource(ps) || MentionsResource(qs) ==> r in resources && IsInstance(r))
    && (MentionsAgent(ps) || MentionsAgent(qs) ==> a in agents)
  }

  lemma InstancesAreListed(resources: seq<ResourceInfo>, agents: seq<AgentInfo>, r: ResourceInfo)
    ensures r in WorldOf(resources, agents).instances <==> r in resources && IsInstance(r)
  {
    assert INSTANCE(r) <==> IsInstance(r);
  }

  lemma GroundIsExpanded(
    ps: seq<Part>, qs: seq<Part>, resources: seq<ResourceInfo>, agents: seq<AgentInfo>, x: GoalEntry)
    requires IsTidy(ps) && IsTidy(qs) && IsPlainFleet(resources, agents)
    ensures Ground(EntryOf(ps, qs), x, WorldOf(resources, agents)) <==>
              exists r, a :: IsExpandedFor(ps, qs, resources, agents, r, a) && x == InstanceOf(ps, qs, r, a)
  {
    var w := WorldOf(resources, agents);
    forall r { InstancesAreListed(resources, agents, r); }
    GroundIsMeant(ps, qs, x, w);
    forall r, a ensures IsResourceFor(ps, qs, w.instances, r) && IsAgentFor(ps, qs, w.agents, a)
                        <==> IsExpandedFor(ps, qs, resources, agents, r, a) {
      InstancesAreListed(resources, agents, r);
    }
  }

  /**
   The expansion of a goal state holds, for every goal and every resource and agent it is expanded for, the meaning of
   its value under the trimmed meaning of its variable.
   */
  lemma EveryInstanceIsHeld(
    goalState: State, resources: seq<ResourceInfo>, agents: seq<AgentInfo>, m: State, ps: seq<Part>, qs: seq<Part>,
    r: ResourceInfo, a: AgentInfo)
    requires Expands(m, EntriesOf(goalState), WorldOf(resources, agents)) && IsPlainFleet(resources, agents)
    requires IsTidy(ps) && IsTidy(qs) && TextOf(ps) in goalState && goalState[TextOf(ps)] == TextOf(qs)
    requires IsExpandedFor(ps, qs, resources, agents, r, a) && TrimSpace(Meaning(ps, r, a)) != ""
    ensures TrimSpace(Meaning(ps, r, a)) in m && m[TrimSpace(Meaning(ps, r, a))] == Meaning(qs, r, a)
  {
    var x := InstanceOf(ps, qs, r, a);
    GroundIsExpanded(ps, qs, resources, agents, x);
    assert EntryOf(ps, qs) in EntriesOf(goalState);
    assert Fits(x, m);
  }

  /** And it holds nothing else. */
  lemma NothingElseIsHeld(
    goalState: State, resources: seq<ResourceInfo>, agents: seq<AgentInfo>, m: State,
    variables: map<string, seq<Part>>, values: map<string, seq<Part>>, k: string)
    returns (v: string, r: ResourceInfo, a: AgentInfo)
    requires Expands(m, EntriesOf(goalState), WorldOf(resources, agents)) && IsPlainFleet(resources, agents)
    requires AreSpelled(goalState, variables, values) && k in m
    ensures v in goalState && IsExpandedFor(variables[v], values[v], resources, agents, r, a)
    ensures k != "" && k == TrimSpace(Meaning(variables[v], r, a)) && m[k] == Meaning(values[v], r, a)
  {
    var w := WorldOf(resources, agents);
    var e, x :| e in EntriesOf(goalState) && Ground(e, x, w) && Key(x) == k;
    v := e.variable;
    GroundIsExpanded(variables[v], values[v], resources, agents, x);
    r, a :| IsExpandedFor(variables[v], values[v], resources, agents, r, a)
            && x == InstanceOf(variables[v], values[v], r, a);
    assert Fits(x, m);
  }

  // ----- what rules an expansion out

  /** A goal that mentions a resource where there is no instance, or an agent where there is none. */
  ghost predicate LacksSomething(
    v: string, goalState: State, resources: seq<ResourceInfo>, agents: seq<AgentInfo>)
    requires v in goalState
  {
    || ((exists i :: OccursAt(v, "{{resource.", i) || OccursAt(goalState[v], "{{resource.", i))
        && forall r :: r in resources ==> !IsInstance(r))
    || ((exists i :: OccursAt(v, "{{agent.", i) || OccursAt(goalState[v], "{{agent.", i)) && agents == [])
  }

  lemma LackingGoalFails(
    goalState: State, resources: seq<ResourceInfo>, agents: seq<AgentInfo>, v: string, m: State, choice: Choice)
    requires v in goalState && LacksSomething(v, goalState, resources, agents)
    ensures !Expands(m, EntriesOf(goalState), WorldOf(resources, agents))
    ensures EntriesOf(goalState) <= choice.Keys ==>
              !ExpandsTo(m, EntriesOf(goalState), WorldOf(resources, agents), choice)
  {
    var e, w := GoalEntry(v, goalState[v]), WorldOf(resources, agents);
    assert e in EntriesOf(goalState);
    if exists i :: OccursAt(v, "{{resource.", i) || OccursAt(goalState[v], "{{resource.", i) {
      assert NeedsResource(e);
      if w.instances != [] { InstancesAreListed(resources, agents, w.instances[0]); }
    }
    if exists i :: OccursAt(v, "{{agent.", i) || OccursAt(goalState[v], "{{agent.", i) { assert NeedsAgent(e); }
    assert !Scoped(e, w);
  }

  /** An entry that is left with a placeholder rules out every expansion with it. */
  lemma LeftoverFails(
    goalState: State, resources: seq<ResourceInfo>, agents: seq<AgentInfo>, e: GoalEntry, x: GoalEntry, m: State,
    choice: Choice, i: int)
    requires e in EntriesOf(goalState) && EntriesOf(goalState) <= choice.Keys && x in choice[e]
    requires OccursAt(x.variable, "{{resource.", i) || OccursAt(x.value, "{{resource.", i)
             || OccursAt(x.variable, "{{agent.", i) || OccursAt(x.value, "{{agent.", i)
    ensures !ExpandsTo(m, EntriesOf(goalState), WorldOf(resources, agents), choice)
  {
    assert !Resolved(x);
    assert !Fits(x, m);
  }

  // ----- when there is an expansion

  lemma {:induction false} MeaningIsPlain(parts: seq<Part>, r: ResourceInfo, a: AgentInfo)
    requires IsTidy(parts) && (MentionsResource(parts) ==> PlainFields(r)) && (MentionsAgent(parts) ==> PlainNames(a))
    ensures '{' !in Meaning(parts, r, a)
  {
    if parts != [] {
      var p, tail := parts[0], parts[1..];
      assert parts == [p] + tail;
      assert OfResource(p) ==> MentionsResource(parts);
      assert OfAgent(p) ==> MentionsAgent(parts);
      MeaningIsPlain(tail, r, a);
    }
  }

  lemma PlainIsResolved(x: GoalEntry)
    requires '{' !in x.variable && '{' !in x.value
    ensures Resolved(x)
  {
    forall s: string, p: string, i: nat | '{' !in s && OccursAt(s, p, i) && p != "" ensures p[0] != '{' {
      assert s[i] == p[0];
    }
  }

  lemma {:induction false} MeaningIgnores(
    parts: seq<Part>, r: ResourceInfo, a: AgentInfo, r': ResourceInfo, a': AgentInfo)
    requires (MentionsResource(parts) ==> r' == r) && (MentionsAgent(parts) ==> a' == a)
    ensures Meaning(parts, r', a') == Meaning(parts, r, a)
  {
    if parts != [] {
      var p, tail := parts[0], parts[1..];
      assert parts == [p] + tail;
      assert OfResource(p) ==> MentionsResource(parts);
      assert OfAgent(p) ==> MentionsAgent(parts);
      MeaningIgnores(tail, r, a, r', a');
    }
  }

  /** A goal state put together from pieces, and the fleet it is expanded over. */
  datatype Request = Request(
    goalState: State, variables: map<string, seq<Part>>, values: map<string, seq<Part>>,
    resources: seq<ResourceInfo>, agents: seq<AgentInfo>)

  /** Plain texts throughout, and an instance and an agent wherever one is mentioned. */
  ghost predicate IsSound(q: Request) {
    && AreSpelled(q.goalState, q.variables, q.values) && IsPlainFleet(q.resources, q.agents)
    && (forall v :: v in q.goalState ==> !LacksSomething(v, q.goalState, q.resources, q.agents))
  }

  /** The goal over `v`, expanded for the resource and the agent, gives the key a value. */
  ghost predicate Gives(q: Request, v: string, r: ResourceInfo, a: AgentInfo, k: string, value: string) {
    && v in q.goalState && v in q.variables && v in q.values
    && IsExpandedFor(q.variables[v], q.values[v], q.resources, q.agents, r, a)
    && k == TrimSpace(Meaning(q.variables[v], r, a)) != "" && value == Meaning(q.values[v], r, a)
  }

  ghost function Given(q: Request): (string, string) -> bool {
    (k: string, value: string) => exists v, r, a :: Gives(q, v, r, a, k, value)
  }

  /** No key is given two values. */
  ghost predicate IsConsistent(given: (string, string) -> bool) {
    forall k, x, y :: given(k, x) && given(k, y) ==> x == y
  }

  ghost predicate Holds(m: State, given: (string, string) -> bool) {
    && (forall k, x :: given(k, x) ==> k in m && m[k] == x)
    && (forall k :: k in m ==> given(k, m[k]))
  }

  lemma SomeState(keys: set<string>, given: (string, string) -> bool) returns (m: State)
    requires IsConsistent(given) && forall k, x :: given(k, x) ==> k in keys
    ensures Holds(m, given)
  {
    m := map k | k in keys && IsGiven(given, k) :: TheValue(given, k);
    forall k, x | given(k, x) ensures k in m && m[k] == x { assert IsGiven(given, k); }
  }

  ghost predicate IsGiven(given: (string, string) -> bool, k: string) { exists x :: given(k, x) }

  ghost function TheValue(given: (string, string) -> bool, k: string): (x: string)
    requires IsGiven(given, k)
    ensures given(k, x)
  {
    var x :| given(k, x);
    x
  }

  ghost function KeysOf(parts: seq<Part>, rs: set<ResourceInfo>, ags: set<AgentInfo>): set<string> {
    set r, a | r in rs && a in ags :: TrimSpace(Meaning(parts, r, a))
  }

  /** Only so many keys can be given: what a goal does not mention makes no difference to it. */
  lemma GivenKeys(q: Request) returns (keys: set<string>)
    ensures forall k, x :: Given(q)(k, x) ==> k in keys
  {
    var rs, ags := (set r | r in q.resources) + {NoResource}, (set a | a in q.agents) + {NoAgent};
    keys := set v, k | v in q.variables && k in KeysOf(q.variables[v], rs, ags) :: k;
    forall k, x | Given(q)(k, x) ensures k in keys {
      var v, r, a := GivenBy(q, k, x);
      assert r in rs && a in ags;
      assert k in KeysOf(q.variables[v], rs, ags);
    }
  }

  lemma GivenBy(q: Request, k: string, x: string) returns (v: string, r: ResourceInfo, a: AgentInfo)
    requires Given(q)(k, x)
    ensures v in q.goalState && v in q.variables && k == TrimSpace(Meaning(q.variables[v], r, a))
    ensures (r in q.resources || r == NoResource) && (a in q.agents || a == NoAgent)
  {
    var s, b;
    v, s, b :| Gives(q, v, s, b, k, x);
    r := if s in q.resources then s else NoResource;
    a := if b in q.agents then b else NoAgent;
    MeaningIgnores(q.variables[v], s, b, r, a);
  }

  lemma GivenEntry(q: Request, v: string, x: GoalEntry)
    requires IsSound(q) && v in q.goalState
    ensures Ground(GoalEntry(v, q.goalState[v]), x, WorldOf(q.resources, q.agents)) ==>
              Resolved(x) && (Key(x) != "" ==> Given(q)(Key(x), x.value))
  {
    var ps, qs := q.variables[v], q.values[v];
    GroundIsExpanded(ps, qs, q.resources, q.agents, x);
    if Ground(EntryOf(ps, qs), x, WorldOf(q.resources, q.agents)) {
      var r, a :| IsExpandedFor(ps, qs, q.resources, q.agents, r, a) && x == InstanceOf(ps, qs, r, a);
      MeaningIsPlain(ps, r, a);
      MeaningIsPlain(qs, r, a);
      PlainIsResolved(x);
      assert Key(x) != "" ==> Gives(q, v, r, a, Key(x), x.value);
    }
  }

  lemma EveryGoalIsScoped(q: Request, v: string)
    requires IsSound(q) && v in q.goalState
    ensures Scoped(GoalEntry(v, q.goalState[v]), WorldOf(q.resources, q.agents))
  {
    var e, w := GoalEntry(v, q.goalState[v]), WorldOf(q.resources, q.agents);
    if NeedsResource(e) {
      assert exists i :: OccursAt(v, "{{resource.", i) || OccursAt(q.goalState[v], "{{resource.", i);
      var r :| r in q.resources && IsInstance(r);
      InstancesAreListed(q.resources, q.agents, r);
    }
    if NeedsAgent(e) { assert exists i :: OccursAt(v, "{{agent.", i) || OccursAt(q.goalState[v], "{{agent.", i); }
  }

  /**
   For a goal state of plain pieces and whole placeholders that lacks neither instances nor agents there is an expansion
   if and only if no key is given two values.
   */
  lemma ExpandsIffConsistent(q: Request)
    requires IsSound(q)
    ensures (exists m :: Expands(m, EntriesOf(q.goalState), WorldOf(q.resources, q.agents))) <==>
              IsConsistent(Given(q))
  {
    var goals, w := EntriesOf(q.goalState), WorldOf(q.resources, q.agents);
    if IsConsistent(Given(q)) {
      var keys := GivenKeys(q);
      var m := SomeState(keys, Given(q));
      HeldIsExpansion(q, m);
    }
    if m :| Expands(m, goals, w) {
      forall k, x, y | Given(q)(k, x) && Given(q)(k, y) ensures x == y {
        GivenIsHeld(q, m, k, x);
        GivenIsHeld(q, m, k, y);
      }
    }
  }

  lemma GivenIsHeld(q: Request, m: State, k: string, x: string)
    requires IsSound(q) && Expands(m, EntriesOf(q.goalState), WorldOf(q.resources, q.agents)) && Given(q)(k, x)
    ensures k in m && m[k] == x
  {
    var v, r, a :| Gives(q, v, r, a, k, x);
    EveryInstanceIsHeld(q.goalState, q.resources, q.agents, m, q.variables[v], q.values[v], r, a);
  }

  lemma HeldIsExpansion(q: Request, m: State)
    requires IsSound(q) && Holds(m, Given(q))
    ensures Expands(m, EntriesOf(q.goalState), WorldOf(q.resources, q.agents))
  {
    var goals, w := EntriesOf(q.goalState), WorldOf(q.resources, q.agents);
    forall e | e in goals ensures Scoped(e, w) { EveryGoalIsScoped(q, e.variable); }
    forall e, x | e in goals && Ground(e, x, w) ensures Fits(x, m) { GivenEntry(q, e.variable, x); }
    forall k | k in m ensures k != "" && exists e, x :: e in goals && Ground(e, x, w) && Key(x) == k {
      assert Given(q)(k, m[k]);
      var v, r, a :| Gives(q, v, r, a, k, m[k]);
      var ps, qs := q.variables[v], q.values[v];
      GroundIsExpanded(ps, qs, q.resources, q.agents, InstanceOf(ps, qs, r, a));
      assert EntryOf(ps, qs) in goals;
    }
  }

  // ----- activation conditions

  lemma TidyIsFilled(parts: seq<Part>, t: Table)
    requires IsTidy(parts) && IsTable(t) && Braceless(t)
    ensures Filled(TextOf(parts), t) == AtOnce(TextOf(parts), t, t.Keys)
  {
    TidyIsWellBraced(parts);
    WellBracedIsSafe(TextOf(parts), t);
    SureIsFilled(TextOf(parts), t, Filled(TextOf(parts), t));
  }

  /** A condition text expanded for an agent and a resource, each as far as it has an id or a name. */
  lemma ConditionIsMeant(parts: seq<Part>, a: AgentInfo, r: ResourceInfo)
    requires IsTidy(parts) && IsTrimmed(TextOf(parts)) && PlainFields(r) && PlainNames(a)
    ensures var us := if r.id == "" && r.name == "" then parts else WithResource(parts, r);
            var vs := if a.id == "" && a.name == "" then us else WithAgent(us, a);
            Activation.ForPair(TextOf(parts), a, r) == TextOf(vs)
    ensures (r.id != "" || r.name != "") && (a.id != "" || a.name != "") ==>
              Activation.ForPair(TextOf(parts), a, r) == Meaning(parts, r, a)
  {
    var us := if r.id == "" && r.name == "" then parts else WithResource(parts, r);
    ResourceFilled(parts, r);
    TidyIsFilled(parts, ResourceTable(r));
    assert Activation.ForResource(TextOf(parts), r) == TextOf(us);
    AgentFilled(us, a);
    TidyIsFilled(us, AgentTable(a));
    BothFilled(parts, r, a);
  }

  /** The text has the family of placeholders somewhere. */
  ghost predicate Has(text: string, prefix: string) { exists j :: OccursAt(text, prefix, j) }

  lemma HasIsContains(text: string, prefix: string)
    ensures Has(text, prefix) <==> Contains(text, prefix)
  {
  }

  /** Expanded conditions are unresolved exactly when a variable or a value still has a placeholder of either family. */
  lemma UnresolvedIff(conditions: seq<Condition>)
    ensures Activation.Unresolved(conditions) <==>
              exists c :: c in conditions && (Has(c.variable, "{{agent.") || Has(c.value, "{{agent.")
                                              || Has(c.variable, "{{resource.") || Has(c.value, "{{resource."))
  {
    MentionedIn(conditions, "{{agent.");
    MentionedIn(conditions, "{{resource.");
  }

  lemma MentionedIn(conditions: seq<Condition>, prefix: string)
    ensures Activation.MentionsIn(conditions, prefix) <==>
              exists c :: c in conditions && (Has(c.variable, prefix) || Has(c.value, prefix))
  {
    forall c: Condition
      ensures Has(c.variable, prefix) || Has(c.value, prefix)
              <==> Contains(c.variable, prefix) || Contains(c.value, prefix)
    {
      HasIsContains(c.variable, prefix);
      HasIsContains(c.value, prefix);
    }
    if c :| c in conditions && (Has(c.variable, prefix) || Has(c.value, prefix)) {
      var i :| 0 <= i < |conditions| && conditions[i] == c;
    }
    if i :| 0 <= i < |conditions|
            && (Contains(conditions[i].variable, prefix) || Contains(conditions[i].value, prefix)) {
      assert conditions[i] in conditions;
    }
  }

  /** A goal is flagged for an agent, or a resource, exactly when a condition or a goal entry has such a placeholder. */
  lemma FlaggedIff(g: Goal)
    ensures Activation.Flagged(g) <==>
              && (g.needsAgent <==> GoalHas(g, "{{agent."))
              && (g.needsResource <==> GoalHas(g, "{{resource."))
  {
    GoalMentions(g, "{{agent.");
    GoalMentions(g, "{{resource.");
  }

  ghost predicate GoalHas(g: Goal, prefix: string) {
    || (exists c :: c in g.conditions && (Has(c.variable, prefix) || Has(c.value, prefix)))
    || (exists k :: k in g.goalState && (Has(k, prefix) || Has(g.goalState[k], prefix)))
  }

  lemma GoalMentions(g: Goal, prefix: string)
    ensures Activation.Mentions(g, prefix) <==> GoalHas(g, prefix)
  {
    MentionedIn(g.conditions, prefix);
    forall k | k in g.goalState
      ensures Has(k, prefix) || Has(g.goalState[k], prefix) <==> Contains(k, prefix) || Contains(g.goalState[k], prefix)
    {
      HasIsContains(k, prefix);
      HasIsContains(g.goalState[k], prefix);
    }
  }
}
