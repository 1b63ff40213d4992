/** Dispatch candidates: one agent's next plan, all agents' plans of a tick, and arbitration between them. */
module Candidates {
  import opened Text
  import opened Planning
  import opened Dispatch

  datatype FailureKey = FailureKey(goalID: string, binding: Binding, state: State)

  type Failures = map<string, FailureKey>

  datatype Candidate = Candidate(
    agentID: string, agentOrder: nat, goal: Goal, binding: Binding, plan: Plan, failureKey: FailureKey)

  function AgentsOf(c: Candidate): set<string> { {c.agentID} + Agents(c.binding, c.plan) }

  function KeysOf(c: Candidate): set<string> { Keys(c.binding, c.plan) }

  ghost predicate Exclusive(c: Candidate, d: Candidate) {
    AgentsOf(c) !! AgentsOf(d) && KeysOf(c) !! KeysOf(d)
  }

  /** What stays fixed while a tick looks for work. */
  datatype Tick = Tick(sv: Services, current: State, goals: seq<Goal>, resources: seq<ResourceInfo>)

  // ----- one goal for one agent

  datatype Verdict = Skipped | Failing(key: FailureKey) | Conflicting | Ready(plan: Plan)

  /** What becomes of an activated goal. */
  function Judge(t: Tick, g: Goal, agentID: string, b: Binding, busy: set<string>, failed: Failures): Verdict {
    var key := FailureKey(g.id, b, t.current);
    if t.sv.satisfied(t.current, g, b) || (g.id in failed && failed[g.id] == key) then Skipped
    else match t.sv.solve(t.current, g, b, agentID)
      case SolveError(_) => Failing(key)
      case Solved(isValid, plan) =>
        if !isValid || plan == [] then Failing(key)
        else if PlanKeys(plan) * busy != {} then Conflicting
        else Ready(plan)
  }

  function AvailableTo(t: Tick, agent: AgentInfo, busy: set<string>): ResourceInfo -> bool {
    (r: ResourceInfo) => Available(r, t.current, agent, busy)
  }

  ghost function BindingOf(t: Tick, agent: AgentInfo, g: Goal, busy: set<string>): Option<Binding> {
    if !g.enabled then None
    else Activated(t.sv, t.current, g, [agent], Filter(t.resources, AvailableTo(t, agent, busy)), TrimSpace(agent.id))
  }

  /** A candidate, and the failures recorded on the way. */
  datatype Found = Found(candidate: Option<Candidate>, failed: Failures)

  /** The first goal from the k-th on that the agent can be sent on. */
  ghost function FindFrom(
    t: Tick, agent: AgentInfo, order: nat, busy: set<string>, failed: Failures, k: nat): Found
    requires k <= |t.goals|
    decreases |t.goals| - k
  {
    if k == |t.goals| then Found(None, failed)
    else
      var g := t.goals[k];
      match BindingOf(t, agent, g, busy)
      case None => FindFrom(t, agent, order, busy, failed, k + 1)
      case Some(b) =>
        match Judge(t, g, TrimSpace(agent.id), b, busy, failed)
        case Skipped => FindFrom(t, agent, order, busy, failed, k + 1)
        case Conflicting => FindFrom(t, agent, order, busy, failed, k + 1)
        case Failing(key) => FindFrom(t, agent, order, busy, failed[g.id := key], k + 1)
        case Ready(plan) =>
          Found(Some(Candidate(TrimSpace(agent.id), order, g, b, plan, FailureKey(g.id, b, t.current))), failed)
  }

  lemma FindStep(t: Tick, agent: AgentInfo, order: nat, busy: set<string>, failed: Failures, k: nat)
    requires k < |t.goals|
    ensures var all, g := FindFrom(t, agent, order, busy, failed, k), t.goals[k];
            match BindingOf(t, agent, g, busy)
            case None => all == FindFrom(t, agent, order, busy, failed, k + 1)
            case Some(b) =>
              match Judge(t, g, TrimSpace(agent.id), b, busy, failed)
              case Skipped => all == FindFrom(t, agent, order, busy, failed, k + 1)
              case Conflicting => all == FindFrom(t, agent, order, busy, failed, k + 1)
              case Failing(key) => all == FindFrom(t, agent, order, busy, failed[g.id := key], k + 1)
              case Ready(plan) => all == Found(Some(Candidate(
                TrimSpace(agent.id), order, g, b, plan, FailureKey(g.id, b, t.current))), failed)
  {
  }

  /** What is on record when the agent's search goes on after goal j. */
  ghost function Later(t: Tick, agent: AgentInfo, busy: set<string>, failed: Failures, j: nat): Failures
    requires j < |t.goals|
  {
    match BindingOf(t, agent, t.goals[j], busy)
    case None => failed
    case Some(b) =>
      match Judge(t, t.goals[j], TrimSpace(agent.id), b, busy, failed)
      case Failing(key) => failed[t.goals[j].id := key]
      case _ => failed
  }

  // ----- the search in the words of the planner's answers

  /** Goal k is activated for the agent, its bound goal state does not hold, and it is not on record as failed. */
  ghost predicate Wanted(t: Tick, agent: AgentInfo, busy: set<string>, failed: Failures, k: nat) {
    k < |t.goals| &&
    match BindingOf(t, agent, t.goals[k], busy)
    case None => false
    case Some(b) =>
      && !t.sv.satisfied(t.current, t.goals[k], b)
      && (t.goals[k].id in failed ==> failed[t.goals[k].id] != FailureKey(t.goals[k].id, b, t.current))
  }

  /** What the planner answers on goal k, bound for the agent. */
  ghost function AnswerOn(t: Tick, agent: AgentInfo, busy: set<string>, k: nat): Option<Solution> {
    if k < |t.goals| && BindingOf(t, agent, t.goals[k], busy).Some?
    then Some(t.sv.solve(t.current, t.goals[k], BindingOf(t, agent, t.goals[k], busy).value, TrimSpace(agent.id)))
    else None
  }

  /** The planner has no plan for goal k: its answer is an error, an invalid plan or an empty one. */
  ghost predicate Unplannable(t: Tick, agent: AgentInfo, busy: set<string>, k: nat) {
    var answer := AnswerOn(t, agent, busy, k);
    answer.Some? && (answer.value.SolveError? || !answer.value.isValid || answer.value.plan == [])
  }

  /** The planner has a plan for goal k, and its assignments name nothing busy. */
  ghost predicate Plannable(t: Tick, agent: AgentInfo, busy: set<string>, k: nat) {
    var answer := AnswerOn(t, agent, busy, k);
    && answer.Some? && answer.value.Solved? && answer.value.isValid && answer.value.plan != []
    && (forall key :: key in busy ==> !SomeNames(answer.value.plan, key))
  }

  predicate DistinctGoals(goals: seq<Goal>) {
    forall i, j :: 0 <= i < j < |goals| ==> goals[i].id != goals[j].id
  }

  ghost function CandidateOn(t: Tick, agent: AgentInfo, order: nat, busy: set<string>, k: nat): Option<Candidate> {
    if !Plannable(t, agent, busy, k) then None
    else
      var g, b := t.goals[k], BindingOf(t, agent, t.goals[k], busy).value;
      Some(Candidate(TrimSpace(agent.id), order, g, b, AnswerOn(t, agent, busy, k).value.plan,
                     FailureKey(g.id, b, t.current)))
  }

  lemma BusyIsAvoided(plan: Plan, busy: set<string>)
    ensures PlanKeys(plan) * busy == {} <==> forall key :: key in busy ==> !SomeNames(plan, key)
  {
    forall key { PlanKeysAreNamed(plan, key); }
    if PlanKeys(plan) * busy == {} {
      forall key | key in busy ensures !SomeNames(plan, key) { assert key !in PlanKeys(plan) * busy; }
    }
  }

  /** One goal's turn: a candidate when it is wanted and plannable, a record when it is wanted and unplannable. */
  lemma SearchTurn(t: Tick, agent: AgentInfo, order: nat, busy: set<string>, failed: Failures, k: nat, next: nat)
    requires k < next == k + 1 <= |t.goals|
    ensures FindFrom(t, agent, order, busy, failed, k)
            == if Wanted(t, agent, busy, failed, k) && Plannable(t, agent, busy, k)
               then Found(CandidateOn(t, agent, order, busy, k), failed)
               else FindFrom(t, agent, order, busy, Later(t, agent, busy, failed, k), next)
    ensures Later(t, agent, busy, failed, k)
            == if Wanted(t, agent, busy, failed, k) && Unplannable(t, agent, busy, k)
               then failed[t.goals[k].id := KeyOn(t, agent, busy, k)] else failed
  {
    FindStep(t, agent, order, busy, failed, k);
    var b := BindingOf(t, agent, t.goals[k], busy);
    if b.Some? {
      match t.sv.solve(t.current, t.goals[k], b.value, TrimSpace(agent.id))
      case SolveError(_) =>
      case Solved(_, plan) => BusyIsAvoided(plan, busy);
    }
  }

  ghost function KeyOn(t: Tick, agent: AgentInfo, busy: set<string>, k: nat): FailureKey
    requires k < |t.goals| && BindingOf(t, agent, t.goals[k], busy).Some?
  {
    FailureKey(t.goals[k].id, BindingOf(t, agent, t.goals[k], busy).value, t.current)
  }

  /** The record of the goal id is not what it was. */
  predicate Changed(before: Failures, after: Failures, id: string) {
    (id in before) != (id in after) || (id in before && before[id] != after[id])
  }

  /** A search changes the record of a goal only where the planner has no plan for it. */
  lemma {:induction false} OnlyUnplannableAreRecorded(
    t: Tick, agent: AgentInfo, order: nat, busy: set<string>, failed: Failures, k: nat, id: string)
    requires k <= |t.goals| && Changed(failed, FindFrom(t, agent, order, busy, failed, k).failed, id)
    ensures exists j :: k <= j < |t.goals| && t.goals[j].id == id && Unplannable(t, agent, busy, j)
    decreases |t.goals| - k
  {
    if k < |t.goals| {
      var next := k + 1;
      var later := Later(t, agent, busy, failed, k);
      SearchTurn(t, agent, order, busy, failed, k, next);
      if Changed(later, FindFrom(t, agent, order, busy, later, next).failed, id) {
        OnlyUnplannableAreRecorded(t, agent, order, busy, later, next, id);
      }
    }
  }

  lemma WantedIsTaken(t: Tick, agent: AgentInfo, order: nat, busy: set<string>, failed: Failures, m: nat)
    requires m < |t.goals| && Wanted(t, agent, busy, failed, m) && Plannable(t, agent, busy, m)
    ensures FindFrom(t, agent, order, busy, failed, m) == Found(CandidateOn(t, agent, order, busy, m), failed)
  {
    SearchTurn(t, agent, order, busy, failed, m, m + 1);
  }

  lemma UnwantedIsPassed(
    t: Tick, agent: AgentInfo, order: nat, busy: set<string>, failed: Failures, k: nat, next: nat)
    requires k < next == k + 1 <= |t.goals| && !Wanted(t, agent, busy, failed, k)
    ensures FindFrom(t, agent, order, busy, failed, k) == FindFrom(t, agent, order, busy, failed, next)
  {
    SearchTurn(t, agent, order, busy, failed, k, next);
  }

  /** Where no goal before is wanted, the first wanted goal is the candidate if the planner has a plan for it. */
  lemma {:induction false} FirstWantedIsTaken(
    t: Tick, agent: AgentInfo, order: nat, busy: set<string>, failed: Failures, k: nat, m: nat)
    requires k <= m < |t.goals| && Wanted(t, agent, busy, failed, m) && Plannable(t, agent, busy, m)
    requires forall j :: k <= j < m ==> !Wanted(t, agent, busy, failed, j)
    ensures FindFrom(t, agent, order, busy, failed, k) == Found(CandidateOn(t, agent, order, busy, m), failed)
    decreases m - k
  {
    if k == m {
      WantedIsTaken(t, agent, order, busy, failed, m);
    } else {
      var next := k + 1;
      FirstWantedIsTaken(t, agent, order, busy, failed, next, m);
      UnwantedIsPassed(t, agent, order, busy, failed, k, next);
    }
  }

  /** The search from goal k takes goal m, the first wanted one with a plan, or there is none and m is the end. */
  ghost predicate TakesFirst(
    t: Tick, agent: AgentInfo, busy: set<string>, before: Failures, k: nat, m: nat)
  {
    && k <= m <= |t.goals|
    && (m < |t.goals| ==> Wanted(t, agent, busy, before, m) && Plannable(t, agent, busy, m))
    && (forall j :: k <= j < m ==> !(Wanted(t, agent, busy, before, j) && Plannable(t, agent, busy, j)))
  }

  /** The goals from k to m that are wanted and unplannable are what has gone on record. */
  ghost predicate RecordsUnplannable(
    t: Tick, agent: AgentInfo, busy: set<string>, before: Failures, k: nat, after: Failures, m: nat)
    requires m <= |t.goals|
  {
    && (forall j :: k <= j < m && Wanted(t, agent, busy, before, j) && Unplannable(t, agent, busy, j) ==>
          t.goals[j].id in after && after[t.goals[j].id] == KeyOn(t, agent, busy, j))
    && (forall id :: Changed(before, after, id) ==>
          exists j :: k <= j < m && t.goals[j].id == id
                      && Wanted(t, agent, busy, before, j) && Unplannable(t, agent, busy, j))
  }

  ghost predicate StoppedAt(
    t: Tick, agent: AgentInfo, order: nat, busy: set<string>, before: Failures, k: nat, found: Found, m: nat)
  {
    && TakesFirst(t, agent, busy, before, k, m) && found.candidate == CandidateOn(t, agent, order, busy, m)
    && RecordsUnplannable(t, agent, busy, before, k, found.failed, m)
  }

  lemma RecordLeavesOthersWanted(
    t: Tick, agent: AgentInfo, busy: set<string>, failed: Failures, id: string, key: FailureKey, j: nat)
    requires j < |t.goals| && t.goals[j].id != id
    ensures Wanted(t, agent, busy, failed[id := key], j) <==> Wanted(t, agent, busy, failed, j)
  {
  }

  lemma {:induction false} SearchStops(
    t: Tick, agent: AgentInfo, order: nat, busy: set<string>, failed: Failures, k: nat) returns (m: nat)
    requires DistinctGoals(t.goals) && k <= |t.goals|
    ensures StoppedAt(t, agent, order, busy, failed, k, FindFrom(t, agent, order, busy, failed, k), m)
    decreases |t.goals| - k
  {
    m := k;
    if k < |t.goals| {
      var next := k + 1;
      SearchTurn(t, agent, order, busy, failed, k, next);
      if !(Wanted(t, agent, busy, failed, k) && Plannable(t, agent, busy, k)) {
        var later := Later(t, agent, busy, failed, k);
        m := SearchStops(t, agent, order, busy, later, next);
        StopsEarlier(t, agent, order, busy, failed, k, next, later, FindFrom(t, agent, order, busy, later, next), m);
      }
    }
  }

  /** What is on record after goal k. */
  ghost predicate Recorded(t: Tick, agent: AgentInfo, busy: set<string>, failed: Failures, k: nat, later: Failures)
    requires k < |t.goals|
  {
    later == if Wanted(t, agent, busy, failed, k) && Unplannable(t, agent, busy, k)
             then failed[t.goals[k].id := KeyOn(t, agent, busy, k)] else failed
  }

  lemma StopsEarlier(
    t: Tick, agent: AgentInfo, order: nat, busy: set<string>, failed: Failures, k: nat, next: nat, later: Failures,
    found: Found, m: nat)
    requires DistinctGoals(t.goals) && k < next == k + 1 <= |t.goals| && Recorded(t, agent, busy, failed, k, later)
    requires !(Wanted(t, agent, busy, failed, k) && Plannable(t, agent, busy, k))
    requires StoppedAt(t, agent, order, busy, later, next, found, m)
    ensures StoppedAt(t, agent, order, busy, failed, k, found, m)
  {
    forall j | next <= j < |t.goals| ensures Wanted(t, agent, busy, later, j) <==> Wanted(t, agent, busy, failed, j) {
      OthersStayWanted(t, agent, busy, failed, k, later, j);
    }
    RecordsEarlier(t, agent, busy, failed, k, next, later, found.failed, m);
  }

  lemma OthersStayWanted(
    t: Tick, agent: AgentInfo, busy: set<string>, failed: Failures, k: nat, later: Failures, j: nat)
    requires DistinctGoals(t.goals) && k < j < |t.goals| && Recorded(t, agent, busy, failed, k, later)
    ensures Wanted(t, agent, busy, later, j) <==> Wanted(t, agent, busy, failed, j)
  {
    if later != failed { RecordLeavesOthersWanted(t, agent, busy, failed, t.goals[k].id, KeyOn(t, agent, busy, k), j); }
  }

  lemma RecordsEarlier(
    t: Tick, agent: AgentInfo, busy: set<string>, failed: Failures, k: nat, next: nat, later: Failures,
    after: Failures, m: nat)
    requires DistinctGoals(t.goals) && k < next == k + 1 <= m <= |t.goals| && Recorded(t, agent, busy, failed, k, later)
    requires forall j :: next <= j < m ==> (Wanted(t, agent, busy, later, j) <==> Wanted(t, agent, busy, failed, j))
    requires RecordsUnplannable(t, agent, busy, later, next, after, m)
    ensures RecordsUnplannable(t, agent, busy, failed, k, after, m)
  {
    assert !Changed(later, after, t.goals[k].id);
    forall id | Changed(failed, after, id)
      ensures exists j :: k <= j < m && t.goals[j].id == id
                          && Wanted(t, agent, busy, failed, j) && Unplannable(t, agent, busy, j)
    {
      if id != t.goals[k].id {
        assert Changed(later, after, id);
        var j :| next <= j < m && t.goals[j].id == id
                 && Wanted(t, agent, busy, later, j) && Unplannable(t, agent, busy, j);
        assert Wanted(t, agent, busy, failed, j);
      }
    }
  }

  lemma UnchangedIsSame(before: Failures, after: Failures)
    requires forall id :: !Changed(before, after, id)
    ensures before == after
  {
    forall id ensures id in before <==> id in after { assert !Changed(before, after, id); }
    forall id | id in before ensures before[id] == after[id] { assert !Changed(before, after, id); }
  }

  /** buildDispatchCandidateForAgent */
  method BuildCandidate(t: Tick, agent: AgentInfo, order: nat, busy: set<string>, failedBefore: Failures)
    returns (candidate: Option<Candidate>, failed: Failures)
    ensures Found(candidate, failed)
            == if IsBlank(agent.id) then Found(None, failedBefore) else FindFrom(t, agent, order, busy, failedBefore, 0)
    ensures forall id :: Changed(failedBefore, failed, id) ==>
              exists k :: 0 <= k < |t.goals| && t.goals[k].id == id && Unplannable(t, agent, busy, k)
    ensures (forall k :: 0 <= k < |t.goals| ==> !Unplannable(t, agent, busy, k)) ==> failed == failedBefore
    ensures !IsBlank(agent.id) ==> forall m: nat ::
              Wanted(t, agent, busy, failedBefore, m) && Plannable(t, agent, busy, m)
              && (forall j :: 0 <= j < m ==> !Wanted(t, agent, busy, failedBefore, j)) ==>
                candidate == CandidateOn(t, agent, order, busy, m) && failed == failedBefore
    ensures !IsBlank(agent.id) && DistinctGoals(t.goals) ==>
              exists m: nat :: StoppedAt(t, agent, order, busy, failedBefore, 0, Found(candidate, failed), m)
  {
    if IsBlank(agent.id) { return None, failedBefore; }
    candidate, failed := SearchGoals(t, agent, order, busy, failedBefore);
    SearchSaid(t, agent, order, busy, failedBefore, candidate, failed);
  }

  lemma SearchSaid(
    t: Tick, agent: AgentInfo, order: nat, busy: set<string>, before: Failures, candidate: Option<Candidate>,
    failed: Failures)
    requires Found(candidate, failed) == FindFrom(t, agent, order, busy, before, 0)
    ensures forall id :: Changed(before, failed, id) ==>
              exists k :: 0 <= k < |t.goals| && t.goals[k].id == id && Unplannable(t, agent, busy, k)
    ensures (forall k :: 0 <= k < |t.goals| ==> !Unplannable(t, agent, busy, k)) ==> failed == before
    ensures forall m: nat ::
              Wanted(t, agent, busy, before, m) && Plannable(t, agent, busy, m)
              && (forall j :: 0 <= j < m ==> !Wanted(t, agent, busy, before, j)) ==>
                candidate == CandidateOn(t, agent, order, busy, m) && failed == before
    ensures DistinctGoals(t.goals) ==>
              exists m: nat :: StoppedAt(t, agent, order, busy, before, 0, Found(candidate, failed), m)
  {
    forall id | Changed(before, failed, id)
      ensures exists k :: 0 <= k < |t.goals| && t.goals[k].id == id && Unplannable(t, agent, busy, k)
    {
      OnlyUnplannableAreRecorded(t, agent, order, busy, before, 0, id);
    }
    if forall k :: 0 <= k < |t.goals| ==> !Unplannable(t, agent, busy, k) { UnchangedIsSame(before, failed); }
    forall m: nat | Wanted(t, agent, busy, before, m) && Plannable(t, agent, busy, m)
                    && forall j :: 0 <= j < m ==> !Wanted(t, agent, busy, before, j)
      ensures candidate == CandidateOn(t, agent, order, busy, m) && failed == before
    {
      FirstWantedIsTaken(t, agent, order, busy, before, 0, m);
    }
    if DistinctGoals(t.goals) { var m := SearchStops(t, agent, order, busy, before, 0); }
  }

  method SearchGoals(t: Tick, agent: AgentInfo, order: nat, busy: set<string>, failedBefore: Failures)
    returns (candidate: Option<Candidate>, failed: Failures)
    requires !IsBlank(agent.id)
    ensures Found(candidate, failed) == FindFrom(t, agent, order, busy, failedBefore, 0)
  {
    candidate, failed := None, failedBefore;
    var k := 0;
    while k < |t.goals|
      invariant 0 <= k <= |t.goals| && candidate.None?
      invariant FindFrom(t, agent, order, busy, failedBefore, 0) == FindFrom(t, agent, order, busy, failed, k)
    {
      candidate, failed := TryGoal(t, agent, order, busy, failed, k);
      if candidate.Some? { return; }
      k := k + 1;
    }
    NothingFound(t, agent, order, busy, failed);
  }

  lemma NothingFound(t: Tick, agent: AgentInfo, order: nat, busy: set<string>, failed: Failures)
    ensures FindFrom(t, agent, order, busy, failed, |t.goals|) == Found(None, failed)
  {
  }

  /** One goal for the agent: a candidate, or what is on record when the search goes on. */
  method TryGoal(t: Tick, agent: AgentInfo, order: nat, busy: set<string>, before: Failures, k: nat)
    returns (candidate: Option<Candidate>, failed: Failures)
    requires k < |t.goals|
    ensures FindFrom(t, agent, order, busy, before, k)
            == if candidate.Some? then Found(candidate, failed) else FindFrom(t, agent, order, busy, failed, k + 1)
  {
    candidate, failed := None, before;
    FindStep(t, agent, order, busy, before, k);
    var g := t.goals[k];
    var b := BindGoal(t, agent, g, busy);
    if b.Some? {
      match Judge(t, g, TrimSpace(agent.id), b.value, busy, before)
      case Skipped =>
      case Conflicting =>
      case Failing(key) =>
        failed := before[g.id := key];
      case Ready(plan) =>
        var key := FailureKey(g.id, b.value, t.current);
        candidate := Some(Candidate(TrimSpace(agent.id), order, g, b.value, plan, key));
    }
  }

  method BindGoal(t: Tick, agent: AgentInfo, g: Goal, busy: set<string>) returns (b: Option<Binding>)
    ensures b == BindingOf(t, agent, g, busy)
  {
    if !g.enabled { return None; }
    var available := Keep(t.resources, AvailableTo(t, agent, busy));
    var met, binding := ActivationConditionsMet(t.sv, t.current, g, [agent], available, TrimSpace(agent.id));
    b := if met then Some(binding) else None;
  }

  /** A candidate uses nothing busy, its bound resource is free for this agent, and its plan is for this agent. */
  ghost predicate GoodCandidate(t: Tick, agent: AgentInfo, busy: set<string>, c: Candidate) {
    && c.agentID == TrimSpace(agent.id)
    && AgentsOf(c) == {c.agentID}
    && KeysOf(c) !! busy
    && c.plan != [] && c.goal in t.goals && c.goal.enabled && !t.sv.satisfied(t.current, c.goal, c.binding)
    && (c.goal.needsResource ==> exists r ::
          IsFree(t, agent, busy, r) && c.binding.resourceID == TrimSpace(r.id))
  }

  /** A resource in scope is a free instance of the session's list. */
  ghost predicate IsFree(t: Tick, agent: AgentInfo, busy: set<string>, r: ResourceInfo) {
    r in t.resources && !IsType(r) && !IsBusy(r, busy) && !ReservedByOther(r, t.current, agent)
  }

  lemma ScopedResourceIsFree(t: Tick, agent: AgentInfo, g: Goal, busy: set<string>, r: ResourceInfo)
    requires g.needsResource
    requires r in ResourceScope(g, Filter(t.resources, AvailableTo(t, agent, busy)))
    ensures IsFree(t, agent, busy, r)
  {
    assert TypeFilter(g)(r) && AvailableTo(t, agent, busy)(r);
  }

  lemma FreeNames(r: ResourceInfo, busy: set<string>)
    requires !IsBusy(r, busy)
    ensures NonBlank({TrimSpace(r.id), Named(r.name, r.id)}) !! busy
  {
  }

  lemma BindingIsFree(t: Tick, agent: AgentInfo, g: Goal, busy: set<string>, b: Binding) returns (r: ResourceInfo)
    requires !IsBlank(agent.id) && BindingOf(t, agent, g, busy) == Some(b)
    ensures b.agentID == "" || b.agentID == TrimSpace(agent.id)
    ensures if g.needsResource
            then IsFree(t, agent, busy, r) && b.resourceID == TrimSpace(r.id) && b.resourceName == Named(r.name, r.id)
            else b.resourceID == "" && b.resourceName == ""
  {
    r := NoResource;
    if !IsPlain(g) {
      var scope := AgentScope(g, [agent], TrimSpace(agent.id));
      var rs := ResourceScope(g, Filter(t.resources, AvailableTo(t, agent, busy)));
      var i, j := ActivatedWitness(
        t.sv, t.current, g, [agent], Filter(t.resources, AvailableTo(t, agent, busy)), TrimSpace(agent.id));
      r := rs[j];
      if g.needsResource { ScopedResourceIsFree(t, agent, g, busy, r); }
    }
  }

  lemma {:induction false} FoundIsGood(
    t: Tick, agent: AgentInfo, order: nat, busy: set<string>, failed: Failures, k: nat)
    requires Honest(t.sv) && !IsBlank(agent.id) && k <= |t.goals|
    ensures var f := FindFrom(t, agent, order, busy, failed, k);
            f.candidate.Some? ==> GoodCandidate(t, agent, busy, f.candidate.value)
    decreases |t.goals| - k
  {
    if k < |t.goals| {
      FindStep(t, agent, order, busy, failed, k);
      var g := t.goals[k];
      match BindingOf(t, agent, g, busy)
      case None => FoundIsGood(t, agent, order, busy, failed, k + 1);
      case Some(b) =>
        match Judge(t, g, TrimSpace(agent.id), b, busy, failed)
        case Skipped => FoundIsGood(t, agent, order, busy, failed, k + 1);
        case Conflicting => FoundIsGood(t, agent, order, busy, failed, k + 1);
        case Failing(key) => FoundIsGood(t, agent, order, busy, failed[g.id := key], k + 1);
        case Ready(plan) => ReadyIsGood(t, agent, order, busy, failed, k, b, plan);
    }
  }

  lemma ReadyIsGood(
    t: Tick, agent: AgentInfo, order: nat, busy: set<string>, failed: Failures, k: nat, b: Binding, plan: Plan)
    requires Honest(t.sv) && !IsBlank(agent.id) && k < |t.goals|
    requires BindingOf(t, agent, t.goals[k], busy) == Some(b)
    requires Judge(t, t.goals[k], TrimSpace(agent.id), b, busy, failed) == Ready(plan)
    ensures GoodCandidate(t, agent, busy,
              Candidate(TrimSpace(agent.id), order, t.goals[k], b, plan, FailureKey(t.goals[k].id, b, t.current)))
  {
    var agentID := TrimSpace(agent.id);
    var r := BindingIsFree(t, agent, t.goals[k], busy, b);
    if t.goals[k].needsResource { FreeNames(r, busy); }
    JudgedReady(t, t.goals[k], agentID, b, busy, failed, plan);
    assert SolvesFor(t.sv.solve(t.current, t.goals[k], b, agentID), agentID);
    PlanAgentsOf(plan, agentID);
    OccupiesOnly(b, plan, agentID, busy);
  }

  lemma OccupiesOnly(b: Binding, plan: Plan, agentID: string, busy: set<string>)
    requires IsTrimmed(agentID) && agentID != "" && (b.agentID == "" || b.agentID == agentID)
    requires PlanAgents(plan) == {agentID} && PlanKeys(plan) * busy == {}
    requires (b.resourceID == "" && b.resourceName == "") || NonBlank({b.resourceID, b.resourceName}) !! busy
    ensures {agentID} + Agents(b, plan) == {agentID}
    ensures Keys(b, plan) !! busy
  {
    assert NonBlank({b.agentID}) <= {agentID};
    DisjointIfNoCommon(PlanKeys(plan), busy);
    if b.resourceID == "" && b.resourceName == "" { assert NonBlank({b.resourceID, b.resourceName}) == {}; }
    assert NonBlank({b.resourceID, b.resourceName}) !! busy;
    UnionDisjoint(NonBlank({b.resourceID, b.resourceName}), PlanKeys(plan), busy);
  }

  lemma DisjointIfNoCommon(a: set<string>, b: set<string>)
    requires a * b == {}
    ensures a !! b
  {
    assert forall x :: x in a && x in b ==> x in a * b;
  }

  lemma UnionDisjoint(a: set<string>, b: set<string>, c: set<string>)
    requires a !! c && b !! c
    ensures a + b !! c
  {
  }

  lemma JudgedReady(t: Tick, g: Goal, agentID: string, b: Binding, busy: set<string>, failed: Failures, plan: Plan)
    requires Judge(t, g, agentID, b, busy, failed) == Ready(plan)
    ensures t.sv.solve(t.current, g, b, agentID) == Solved(true, plan)
    ensures plan != [] && PlanKeys(plan) * busy == {} && !t.sv.satisfied(t.current, g, b)
  {
  }

  // ----- all agents of a tick

  datatype Collected = Collected(candidates: seq<Candidate>, failed: Failures)

  /** The candidates of the agents from the k-th on, each built with everything chosen so far provisionally busy. */
  ghost function CollectFrom(
    t: Tick, agents: seq<AgentInfo>, k: nat, busyAgents: set<string>, busy: set<string>, failed: Failures): Collected
    requires k <= |agents|
    decreases |agents| - k
  {
    if k == |agents| then Collected([], failed)
    else
      var id := TrimSpace(agents[k].id);
      if id == "" || id in busyAgents || !t.sv.idle(t.current, agents[k]) then
        CollectFrom(t, agents, k + 1, busyAgents, busy, failed)
      else
        var f := FindFrom(t, agents[k], k, busy, failed, 0);
        match f.candidate
        case None => CollectFrom(t, agents, k + 1, busyAgents, busy, f.failed)
        case Some(c) =>
          var rest := CollectFrom(t, agents, k + 1, busyAgents + {id} + PlanAgents(c.plan), busy + KeysOf(c), f.failed);
          Collected([c] + rest.candidates, rest.failed)
  }

  lemma CollectStep(
    t: Tick, agents: seq<AgentInfo>, k: nat, busyAgents: set<string>, busy: set<string>, failed: Failures)
    requires k < |agents|
    ensures var id := TrimSpace(agents[k].id);
            var all := CollectFrom(t, agents, k, busyAgents, busy, failed);
            if id == "" || id in busyAgents || !t.sv.idle(t.current, agents[k]) then
              all == CollectFrom(t, agents, k + 1, busyAgents, busy, failed)
            else
              var f := FindFrom(t, agents[k], k, busy, failed, 0);
              if f.candidate.None? then all == CollectFrom(t, agents, k + 1, busyAgents, busy, f.failed)
              else
                var c := f.candidate.value;
                var rest := CollectFrom(
                  t, agents, k + 1, busyAgents + {id} + PlanAgents(c.plan), busy + KeysOf(c), f.failed);
                all == Collected([c] + rest.candidates, rest.failed)
  {
  }

  /** The candidate loop of tick. */
  method CollectCandidates(
    t: Tick, agents: seq<AgentInfo>, busyAgents: set<string>, busyResources: set<string>, failedBefore: Failures)
    returns (candidates: seq<Candidate>, failed: Failures)
    ensures Collected(candidates, failed) == CollectFrom(t, agents, 0, busyAgents, busyResources, failedBefore)
  {
    var provisionalAgents, provisional := busyAgents, busyResources;
    candidates, failed := [], failedBefore;
    ghost var all := CollectFrom(t, agents, 0, busyAgents, busyResources, failedBefore);
    var k := 0;
    while k < |agents|
      invariant 0 <= k <= |agents|
      invariant all == Prepend(candidates, CollectFrom(t, agents, k, provisionalAgents, provisional, failed))
    {
      ghost var rest := CollectFrom(t, agents, k, provisionalAgents, provisional, failed);
      var found;
      found, provisionalAgents, provisional, failed :=
        CollectOne(t, agents, k, provisionalAgents, provisional, failed);
      PrependTwice(candidates, found, CollectFrom(t, agents, k + 1, provisionalAgents, provisional, failed));
      candidates := candidates + found;
      k := k + 1;
    }
  }

  function Prepend(cs: seq<Candidate>, c: Collected): Collected { c.(candidates := cs + c.candidates) }

  lemma PrependTwice(a: seq<Candidate>, b: seq<Candidate>, c: Collected)
    ensures Prepend(a, Prepend(b, c)) == Prepend(a + b, c)
  {
    assert a + (b + c.candidates) == (a + b) + c.candidates;
  }

  /** One agent's turn: at most one candidate, and what is provisionally busy afterwards. */
  method CollectOne(
    t: Tick, agents: seq<AgentInfo>, k: nat, busyAgents: set<string>, busy: set<string>, failedBefore: Failures)
    returns (found: seq<Candidate>, agents': set<string>, busy': set<string>, failed: Failures)
    requires k < |agents|
    ensures CollectFrom(t, agents, k, busyAgents, busy, failedBefore)
            == Prepend(found, CollectFrom(t, agents, k + 1, agents', busy', failed))
  {
    CollectStep(t, agents, k, busyAgents, busy, failedBefore);
    found, agents', busy', failed := [], busyAgents, busy, failedBefore;
    var id := TrimSpace(agents[k].id);
    if id != "" && id !in busyAgents && t.sv.idle(t.current, agents[k]) {
      var candidate;
      candidate, failed := BuildCandidate(t, agents[k], k, busy, failed);
      if candidate.Some? {
        found := [candidate.value];
        agents', busy' := Reserve(candidate.value, id, busyAgents, busy);
      }
    }
  }

  method Reserve(c: Candidate, id: string, busyAgents: set<string>, busyResources: set<string>)
    returns (agents: set<string>, resources: set<string>)
    ensures agents == busyAgents + {id} + PlanAgents(c.plan)
    ensures resources == busyResources + KeysOf(c)
  {
    agents := busyAgents + {id};
    resources := busyResources + NonBlank({c.binding.resourceID, c.binding.resourceName});
    agents, resources := MarkBusy(c.plan, agents, resources);
  }

  ghost predicate AvoidsBusy(cs: seq<Candidate>, busyAgents: set<string>, busy: set<string>) {
    forall x :: 0 <= x < |cs| ==> AgentsOf(cs[x]) !! busyAgents && KeysOf(cs[x]) !! busy
  }

  ghost predicate MutuallyExclusive(cs: seq<Candidate>) {
    forall x, y :: 0 <= x < y < |cs| ==> Exclusive(cs[x], cs[y])
  }

  lemma ConsIsExclusive(
    c: Candidate, rest: seq<Candidate>, busyAgents: set<string>, busy: set<string>, agents': set<string>,
    busy': set<string>)
    requires AgentsOf(c) !! busyAgents && KeysOf(c) !! busy
    requires agents' >= busyAgents + AgentsOf(c) && busy' >= busy + KeysOf(c)
    requires AvoidsBusy(rest, agents', busy') && MutuallyExclusive(rest)
    ensures AvoidsBusy([c] + rest, busyAgents, busy) && MutuallyExclusive([c] + rest)
  {
    forall x | 0 <= x < |rest|
      ensures Exclusive(c, rest[x]) && AgentsOf(rest[x]) !! busyAgents && KeysOf(rest[x]) !! busy
    {
      assert AgentsOf(rest[x]) !! agents' && KeysOf(rest[x]) !! busy';
    }
  }

  /** Every candidate of a tick avoids what is busy and every other candidate. */
  lemma {:induction false} CollectedAreExclusive(
    t: Tick, agents: seq<AgentInfo>, k: nat, busyAgents: set<string>, busy: set<string>, failed: Failures)
    requires Honest(t.sv) && k <= |agents|
    ensures AvoidsBusy(CollectFrom(t, agents, k, busyAgents, busy, failed).candidates, busyAgents, busy)
    ensures MutuallyExclusive(CollectFrom(t, agents, k, busyAgents, busy, failed).candidates)
    decreases |agents| - k
  {
    if k < |agents| {
      CollectStep(t, agents, k, busyAgents, busy, failed);
      var id := TrimSpace(agents[k].id);
      if id == "" || id in busyAgents || !t.sv.idle(t.current, agents[k]) {
        CollectedAreExclusive(t, agents, k + 1, busyAgents, busy, failed);
      } else {
        var f := FindFrom(t, agents[k], k, busy, failed, 0);
        FoundIsGood(t, agents[k], k, busy, failed, 0);
        if f.candidate.None? {
          CollectedAreExclusive(t, agents, k + 1, busyAgents, busy, f.failed);
        } else {
          var c := f.candidate.value;
          var agents', busy' := busyAgents + {id} + PlanAgents(c.plan), busy + KeysOf(c);
          CollectedAreExclusive(t, agents, k + 1, agents', busy', f.failed);
          var rest := CollectFrom(t, agents, k + 1, agents', busy', f.failed).candidates;
          ConsIsExclusive(c, rest, busyAgents, busy, agents', busy');
        }
      }
    }
  }
}
