/** A realtime session: its fields, and the tick that syncs, merges, dispatches and starts executions. */
module RealtimeSession {
  import opened Text
  import opened Planning
  import opened Dispatch
  import opened Candidates
  import opened Contexts
  import SP = SessionProtocol
  import Executor
  import MergeState
  import Fairness

  function OfferOf(c: Candidate): SP.Offer { SP.Offer(Agents(c.binding, c.plan), Keys(c.binding, c.plan)) }

  function OffersOf(cs: seq<Candidate>): (r: seq<SP.Offer>)
    ensures |r| == |cs|
    ensures forall i :: 0 <= i < |cs| ==> r[i] == OfferOf(cs[i])
  {
    seq(|cs|, i requires 0 <= i < |cs| => OfferOf(cs[i]))
  }

  /** Candidates that avoid what is busy and each other make offers that do. */
  lemma OffersAreApart(cs: seq<Candidate>, busyAgents: set<string>, busy: set<string>)
    requires AvoidsBusy(cs, busyAgents, busy) && MutuallyExclusive(cs)
    ensures SP.OffersApart(OffersOf(cs))
    ensures forall x :: 0 <= x < |cs| ==> OffersOf(cs)[x].agents !! busyAgents && OffersOf(cs)[x].keys !! busy
  {
    forall x | 0 <= x < |cs|
      ensures OffersOf(cs)[x].agents <= AgentsOf(cs[x]) && OffersOf(cs)[x].keys == KeysOf(cs[x])
    {
    }
    forall x, y | 0 <= x < y < |cs|
      ensures OffersOf(cs)[x].agents !! OffersOf(cs)[y].agents && OffersOf(cs)[x].keys !! OffersOf(cs)[y].keys
    {
      assert Exclusive(cs[x], cs[y]);
    }
  }

  /** A freshly minted execution id. */
  predicate Usable(id: string) { id != "" && IsTrimmed(id) }

  /** The executor's answers to the start requests of a tick: an id or a refusal; ids are fresh and never repeat. */
  ghost predicate FreshIds(start: nat -> Option<string>, from: nat, executor: map<string, Entry>) {
    && (forall x: nat :: from <= x && start(x).Some? ==> Usable(start(x).value) && start(x).value !in executor)
    && (forall x: nat, y: nat :: from <= x < y && start(x).Some? ==> start(x) != start(y))
  }

  lemma FreshStep(start: nat -> Option<string>, x: nat, executor: map<string, Entry>, e: Entry)
    requires FreshIds(start, x, executor)
    ensures FreshIds(start, x + 1, executor)
    ensures start(x).Some? ==> FreshIds(start, x + 1, executor[start(x).value := e])
  {
  }

  lemma AddEntry(executor: map<string, Entry>, id: string, e: Entry)
    ensures ReportsOf(executor[id := e]) == ReportsOf(executor)[id := ReportOf(e)]
  {
  }

  /** What a session is configured with. */
  datatype Setup = Setup(
    agents: seq<AgentInfo>, resources: seq<ResourceInfo>, goals: seq<Goal>, hasTrees: bool, services: Services)

  class RealtimeSession {
    const setup: Setup
    var current: State
    var active: map<string, Context>
    var failed: Failures
    var lastSelectedAgentID: string
    /** The plan executor's registry, as the session sees it. */
    var executor: map<string, Entry>

    ghost const initial: State
    ghost var view: SP.Session
    ghost var history: seq<SP.Action>

    /** The fields are those of a protocol state that `history` leads to. */
    ghost predicate Valid()
      reads this
    {
      && SP.Leads(SP.Initial(initial), history, view)
      && current == view.current && Jobs(active) == view.active && ReportsOf(executor) == view.registry
      && AllFit(active, executor)
    }

    /** The protocol moved from one view to the next along some actions. */
    twostate predicate Moved(next: SP.Session)
      reads this
    {
      old(history) <= history && view == next
    }

    constructor (setup: Setup, state: State)
      ensures Valid() && view == SP.Initial(state) && this.setup == setup
    {
      this.setup := setup;
      current, active, failed, lastSelectedAgentID, executor := state, map[], map[], "", map[];
      initial, view, history := state, SP.Initial(state), [];
    }

    /** Extends the history along actions that lead on from the view. */
    ghost method Follow(actions: seq<SP.Action>, next: SP.Session)
      requires SP.Leads(SP.Initial(initial), history, view) && SP.Leads(view, actions, next)
      modifies this`view, this`history
      ensures SP.Leads(SP.Initial(initial), history, view)
      ensures view == next && old(history) <= history
    {
      SP.LeadsThrough(SP.Initial(initial), history, view, actions, next);
      history, view := history + actions, next;
    }

    /** Stop: the session forgets its executions at once. */
    method Stop()
      requires Valid()
      modifies this
      ensures Valid() && Moved(SP.Apply(old(view), SP.Stop))
      ensures active == map[] && current == old(current) && executor == old(executor)
    {
      SP.LeadsByOne(view, SP.Stop);
      active := map[];
      Follow([SP.Stop], SP.Apply(view, SP.Stop));
    }

    /** The executor reports progress on one of its executions. */
    method Progress(id: string, status: Executor.ExecStatus, steps: seq<StepSnapshot>)
      requires Valid() && id in executor && InFlight(executor[id])
      modifies this
      ensures Valid() && executor == old(executor)[id := Entry(old(executor)[id].plan, status, steps)]
      ensures active == old(active) && current == old(current) && view.phase == old(view).phase
    {
      var entry := executor[id].(status := status, steps := steps);
      AddEntry(executor, id, entry);
      if !InFlight(entry) {
        ghost var ends := SP.Progress(id, ReportOf(entry).effect);
        SP.LeadsByOne(view, ends);
        Follow([ends], SP.Apply(view, ends));
      } else {
        assert view.registry[id := SP.Live] == view.registry;
      }
      executor := executor[id := entry];
    }

    /** syncExecutions */
    method SyncExecutions()
      requires Valid() && view.phase.Resting?
      modifies this
      ensures Valid() && old(history) <= history && view.phase.Synced? && executor == old(executor)
      ensures active == Surviving(old(active), executor) && lastSelectedAgentID == old(lastSelectedAgentID)
      ensures forall id :: id in active <==>
                id in old(active)
                && (executor[id].status == Executor.ExecPending || executor[id].status == Executor.ExecRunning)
      ensures forall id :: id in active ==> active[id] == old(active)[id]
      ensures failed == old(failed) - CompletedGoals(old(active), executor)
      ensures forall a :: IsListing(BY_START, a, old(active)) ==>
                current == Synced(old(current), a, ReportsOf(executor))
      ensures forall id :: id in old(active) && id !in active ==> id in view.folds
    {
      SurvivorsAre(active, executor);
      FoldAndWriteBack();
    }

    method FoldAndWriteBack()
      requires Valid() && view.phase.Resting?
      modifies this
      ensures Valid() && old(history) <= history && view.phase.Synced? && executor == old(executor)
      ensures active == Surviving(old(active), executor) && lastSelectedAgentID == old(lastSelectedAgentID)
      ensures failed == old(failed) - CompletedGoals(old(active), executor)
      ensures forall a :: IsListing(BY_START, a, old(active)) ==>
                current == Synced(old(current), a, ReportsOf(executor))
      ensures forall id :: id in old(active) && id !in active ==> id in view.folds
    {
      var listing, next, remaining, completed := FoldActive(active, executor, current);
      ghost var actions, synced := SyncFollows(view, active, executor, listing, current, next, remaining);
      Follow(actions, synced);
      current, active, failed := next, remaining, failed - completed;
    }

    /** sessionMergedState */
    method MergeOverlays(sources: seq<MergeState.Source>, now: int, live: string -> bool) returns (merged: State)
      requires Valid() && view.phase.Synced?
      modifies this
      ensures Valid() && old(history) <= history && view.phase.Merged?
      ensures merged == MergeState.Merged(old(current), sources, now, live, setup.agents, setup.resources)
      ensures current == MergeState.Refreshed(old(current), sources, now, live, setup.agents, setup.resources)
      ensures active == old(active) && executor == old(executor) && failed == old(failed)
      ensures view.folds == old(view).folds && lastSelectedAgentID == old(lastSelectedAgentID)
    {
      merged, current :=
        MergeState.SessionMergedState(current, sources, now, live, setup.agents, setup.resources);
      SP.LeadsByOne(view, SP.Merge(current));
      Follow([SP.Merge(current)], SP.Apply(view, SP.Merge(current)));
    }

    ghost function Standing(): Fleet
      reads this
    {
      Fleet(active, executor, failed, lastSelectedAgentID)
    }

    /** The dispatch half of a tick up to the list of candidates. */
    method ChooseWork(merged: State) returns (candidates: seq<Candidate>)
      requires Valid() && view.phase.Merged? && Honest(setup.services)
      modifies this
      ensures Valid() && old(history) <= history && view.phase == SP.Starting(OffersOf(candidates))
      ensures Collected(candidates, failed) == Choices(setup, merged, old(Standing()))
      ensures Standing() == old(Standing()).(failed := failed)
      ensures current == old(current) && view.folds == old(view).folds
    {
      var rotated := RotateAgents(setup.agents, lastSelectedAgentID);
      var busyAgents, busyResources := CollectBusy(active, executor);
      var tick := Candidates.Tick(setup.services, merged, setup.goals, setup.resources);
      candidates, failed := CollectCandidates(tick, rotated, busyAgents, busyResources, failed);
      CollectedAreExclusive(tick, rotated, 0, busyAgents, busyResources, old(failed));
      OffersAreApart(candidates, busyAgents, busyResources);
      FollowChoice(OffersOf(candidates));
    }

    /** The survey of what is busy, and a choice that avoids it. */
    ghost method FollowChoice(offers: seq<SP.Offer>)
      requires SP.Leads(SP.Initial(initial), history, view) && view.phase.Merged? && SP.OffersApart(offers)
      requires forall x :: 0 <= x < |offers| ==> offers[x].agents !! SP.BusyAgents(view.registry, view.active)
      requires forall x :: 0 <= x < |offers| ==> offers[x].keys !! SP.BusyKeys(view.registry, view.active)
      modifies this`view, this`history
      ensures SP.Leads(SP.Initial(initial), history, view) && old(history) <= history
      ensures view == old(view).(phase := SP.Starting(offers))
    {
      var order := SP.SomeOrder(view.active);
      var survey := SP.SurveyIsARun(view, order);
      Follow(survey, SP.AfterSurvey(view));
      SP.LeadsByOne(view, SP.Choose(offers));
      Follow([SP.Choose(offers)], SP.Apply(view, SP.Choose(offers)));
    }

    /** The start loop is done with its first offer. */
    twostate predicate NextOffer()
      reads this
    {
      && old(history) <= history && view.folds == old(view).folds
      && old(view).phase.Starting? && old(view).phase.offers != []
      && view.phase == SP.Starting(old(view).phase.offers[1..])
    }

    method StartCandidate(c: Candidate, id: string, at: int)
      requires Valid() && Usable(id) && id !in executor
      requires view.phase.Starting? && view.phase.offers != [] && view.phase.offers[0] == OfferOf(c)
      modifies this
      ensures Valid() && NextOffer() && current == old(current)
      ensures Standing() == StartOne(old(Standing()), c, Some(id), at)
    {
      ghost var actions := SP.StartIsARun(view, id);
      StartFits(Standing(), c, id, at);
      RecordStart(c, id, at);
      Follow(actions, SP.AfterStart(view, id));
    }

    method RecordStart(c: Candidate, id: string, at: int)
      modifies this`active, this`executor, this`failed, this`lastSelectedAgentID
      ensures Standing() == StartOne(old(Standing()), c, Some(id), at)
    {
      executor := executor[id := NewEntry(c)];
      failed := failed - {c.goal.id};
      active := active[id := ContextFor(c, id, at)];
      if !IsBlank(c.binding.agentID) { lastSelectedAgentID := TrimSpace(c.binding.agentID); }
    }

    method RefuseCandidate(c: Candidate, at: int)
      requires Valid() && view.phase.Starting? && view.phase.offers != []
      modifies this
      ensures Valid() && NextOffer() && current == old(current)
      ensures Standing() == StartOne(old(Standing()), c, None, at)
    {
      SP.LeadsByOne(view, SP.StartFails);
      failed := failed[c.goal.id := c.failureKey];
      Follow([SP.StartFails], SP.Apply(view, SP.StartFails));
    }

    method HandleAnswer(c: Candidate, answer: Option<string>, at: int)
      requires Valid() && (answer.Some? ==> Usable(answer.value) && answer.value !in executor)
      requires view.phase.Starting? && view.phase.offers != [] && view.phase.offers[0] == OfferOf(c)
      modifies this
      ensures Valid() && NextOffer() && current == old(current)
      ensures Standing() == StartOne(old(Standing()), c, answer, at)
    {
      if answer.Some? {
        StartCandidate(c, answer.value, at);
      } else {
        RefuseCandidate(c, at);
      }
    }

    /** The start loop of a tick. */
    method StartCandidates(cs: seq<Candidate>, start: nat -> Option<string>, clock: nat -> int)
      requires Valid() && view.phase == SP.Starting(OffersOf(cs)) && FreshIds(start, 0, executor)
      modifies this
      ensures Valid() && old(history) <= history && view.phase == SP.Starting([]) && view.folds == old(view).folds
      ensures Standing() == StartAll(old(Standing()), cs, start, clock, |cs|) && current == old(current)
    {
      var x := 0;
      while x < |cs|
        invariant 0 <= x <= |cs|
        invariant Valid() && old(history) <= history && view.phase == SP.Starting(OffersOf(cs[x..]))
        invariant view.folds == old(view).folds && current == old(current)
        invariant FreshIds(start, x, executor) && Standing() == StartAll(old(Standing()), cs, start, clock, x)
      {
        assert OffersOf(cs[x..])[1..] == OffersOf(cs[x + 1..]);
        FreshStep(start, x, executor, NewEntry(cs[x]));
        HandleAnswer(cs[x], start(x), clock(x));
        x := x + 1;
      }
      assert OffersOf(cs[x..]) == [];
    }

    method EndTick()
      requires Valid() && (view.phase.Merged? || view.phase.Starting?)
      modifies this`view, this`history
      ensures Valid() && Moved(old(view).(phase := SP.Resting))
    {
      SP.LeadsByOne(view, SP.EndTick);
      Follow([SP.EndTick], SP.Apply(view, SP.EndTick));
    }

    /** tick, with the executor's answers, the overlays and the clock given. */
    method Tick(
      sources: seq<MergeState.Source>, now: int, live: string -> bool, start: nat -> Option<string>,
      clock: nat -> int) returns (candidates: seq<Candidate>)
      requires Valid() && view.phase.Resting? && Honest(setup.services) && FreshIds(start, 0, executor)
      modifies this
      ensures Valid() && view.phase.Resting? && old(history) <= history
      ensures forall id :: id in old(active) && id !in Surviving(old(active), old(executor)) ==> id in view.folds
      ensures forall a :: IsListing(BY_START, a, old(active)) ==>
                current == MergeState.Refreshed(
                  Synced(old(current), a, ReportsOf(old(executor))), sources, now, live, setup.agents, setup.resources)
      ensures forall a :: IsListing(BY_START, a, old(active)) ==>
                Standing() == Dispatched(
                  setup, old(Standing()), start, clock,
                  MergeState.Merged(
                    Synced(old(current), a, ReportsOf(old(executor))), sources, now, live, setup.agents,
                    setup.resources))
    {
      candidates := [];
      SyncExecutions();
      var merged := MergeOverlays(sources, now, live);
      if setup.agents != [] && setup.hasTrees {
        candidates := ChooseWork(merged);
        StartCandidates(candidates, start, clock);
      }
      EndTick();
    }
  }

  // ----- the dispatch half as functions

  datatype Fleet = Fleet(
    active: map<string, Context>, executor: map<string, Entry>, failed: Failures, lastSelectedAgentID: string)

  function NewEntry(c: Candidate): Entry { Entry(c.plan, Executor.ExecPending, []) }

  function ContextFor(c: Candidate, id: string, at: int): Context { Context(id, at, c.plan, c.goal, c.binding) }

  /** The executor's answer to one start request, recorded. */
  function StartOne(f: Fleet, c: Candidate, answer: Option<string>, at: int): Fleet {
    match answer
    case None => f.(failed := f.failed[c.goal.id := c.failureKey])
    case Some(id) =>
      Fleet(f.active[id := ContextFor(c, id, at)], f.executor[id := NewEntry(c)], f.failed - {c.goal.id},
            if IsBlank(c.binding.agentID) then f.lastSelectedAgentID else TrimSpace(c.binding.agentID))
  }

  lemma StartFits(f: Fleet, c: Candidate, id: string, at: int)
    requires AllFit(f.active, f.executor) && Usable(id) && id !in f.executor
    ensures var g := StartOne(f, c, Some(id), at);
            && AllFit(g.active, g.executor)
            && ReportsOf(g.executor) == ReportsOf(f.executor)[id := SP.Live]
            && Jobs(g.active) == Jobs(f.active) + {SP.Job(id, OfferOf(c).agents, OfferOf(c).keys)}
  {
    AddEntry(f.executor, id, NewEntry(c));
    assert forall k :: k in f.active ==> Fits(k, f.active[k], f.executor);
    AddJob(f.active, ContextFor(c, id, at));
  }

  function StartAll(f: Fleet, cs: seq<Candidate>, start: nat -> Option<string>, clock: nat -> int, n: nat): Fleet
    requires n <= |cs|
  {
    if n == 0 then f else StartOne(StartAll(f, cs, start, clock, n - 1), cs[n - 1], start(n - 1), clock(n - 1))
  }

  /** Answer `x` decides for `id`: it is the execution started for candidate `x`. */
  ghost predicate StartedAs(f: Fleet, cs: seq<Candidate>, start: nat -> Option<string>, clock: nat -> int, x: nat)
    requires x < |cs| && start(x).Some?
  {
    var id, c := start(x).value, cs[x];
    && id in f.active && f.active[id] == Context(id, clock(x), c.plan, c.goal, c.binding)
    && id in f.executor && f.executor[id].plan == c.plan && f.executor[id].status == Executor.ExecPending
  }

  /** Whoever was accepted is active and pending under its id, with its plan, goal and binding. */
  lemma {:induction false} AcceptedIsActive(
    f: Fleet, cs: seq<Candidate>, start: nat -> Option<string>, clock: nat -> int, n: nat, x: nat)
    requires x < n <= |cs| && FreshIds(start, 0, f.executor) && start(x).Some?
    ensures StartedAs(StartAll(f, cs, start, clock, n), cs, start, clock, x)
  {
    if x < n - 1 {
      AcceptedIsActive(f, cs, start, clock, n - 1, x);
      assert start(n - 1) != start(x);
    }
  }

  /** Nobody else is new, and whoever was there before stays as it was. */
  lemma {:induction false} OnlyAcceptedAreNew(
    f: Fleet, cs: seq<Candidate>, start: nat -> Option<string>, clock: nat -> int, n: nat, id: string)
    requires n <= |cs| && FreshIds(start, 0, f.executor)
    ensures var g := StartAll(f, cs, start, clock, n);
            && (id in g.active && id !in f.active ==> exists x: nat :: x < n && start(x) == Some(id))
            && (id in f.executor ==> id in g.executor && g.executor[id] == f.executor[id])
            && (id in f.executor && id in f.active ==> id in g.active && g.active[id] == f.active[id])
  {
    if n > 0 { OnlyAcceptedAreNew(f, cs, start, clock, n - 1, id); }
  }

  /** A goal's last answer decides its record: a refusal is on record under the candidate's key, a start clears it. */
  lemma {:induction false} LastAnswerDecides(
    f: Fleet, cs: seq<Candidate>, start: nat -> Option<string>, clock: nat -> int, n: nat, x: nat)
    requires x < n <= |cs| && forall y: nat :: x < y < n ==> cs[y].goal.id != cs[x].goal.id
    ensures var failed, id := StartAll(f, cs, start, clock, n).failed, cs[x].goal.id;
            if start(x).Some? then id !in failed else id in failed && failed[id] == cs[x].failureKey
  {
    if x < n - 1 { LastAnswerDecides(f, cs, start, clock, n - 1, x); }
  }

  /** The next rotation starts behind the agent of the last accepted candidate that binds one. */
  lemma {:induction false} LastAcceptedLeads(
    f: Fleet, cs: seq<Candidate>, start: nat -> Option<string>, clock: nat -> int, n: nat, x: nat)
    requires x < n <= |cs| && start(x).Some? && !IsBlank(cs[x].binding.agentID)
    requires forall y: nat :: x < y < n && start(y).Some? ==> IsBlank(cs[y].binding.agentID)
    ensures StartAll(f, cs, start, clock, n).lastSelectedAgentID == TrimSpace(cs[x].binding.agentID)
  {
    if x < n - 1 { LastAcceptedLeads(f, cs, start, clock, n - 1, x); }
  }

  /** The candidates of a tick, chosen against what the live executions occupy. */
  ghost function Choices(setup: Setup, merged: State, f: Fleet): Collected {
    CollectFrom(
      Candidates.Tick(setup.services, merged, setup.goals, setup.resources),
      Rotated(setup.agents, f.lastSelectedAgentID), 0, SP.BusyAgents(ReportsOf(f.executor), Jobs(f.active)),
      SP.BusyKeys(ReportsOf(f.executor), Jobs(f.active)), f.failed)
  }

  /** The fleet after a sync. */
  function AfterFold(f: Fleet): Fleet {
    f.(active := Surviving(f.active, f.executor), failed := f.failed - CompletedGoals(f.active, f.executor))
  }

  /** The fleet after a whole tick. */
  ghost function Dispatched(
    setup: Setup, f: Fleet, start: nat -> Option<string>, clock: nat -> int, merged: State): Fleet
  {
    var g := AfterFold(f);
    if setup.agents == [] || !setup.hasTrees then g
    else
      var c := Choices(setup, merged, g);
      StartAll(g.(failed := c.failed), c.candidates, start, clock, |c.candidates|)
  }

  // ----- what holds of every session object

  /** Whatever a session went through, two pending or running executions share neither agent nor resource. */
  lemma FleetIsExclusive(s: RealtimeSession, i: string, j: string)
    requires s.Valid() && i in s.active && j in s.active && i != j && i in s.executor && j in s.executor
    requires s.executor[i].status == Executor.ExecPending || s.executor[i].status == Executor.ExecRunning
    requires s.executor[j].status == Executor.ExecPending || s.executor[j].status == Executor.ExecRunning
    ensures Agents(s.active[i].binding, s.active[i].plan) !! Agents(s.active[j].binding, s.active[j].plan)
    ensures Keys(s.active[i].binding, s.active[i].plan) !! Keys(s.active[j].binding, s.active[j].plan)
    ensures forall k :: !(Occupies(s.active[i], k) && Occupies(s.active[j], k))
    ensures forall k :: !(Sends(s.active[i], k) && Sends(s.active[j], k))
  {
    SP.LeadsKeepsCounted(SP.Initial(s.initial), s.history, s.view);
    var a, b := JobOf(s.active[i]), JobOf(s.active[j]);
    assert Fits(i, s.active[i], s.executor) && Fits(j, s.active[j], s.executor);
    assert a in SP.Tracked(s.view) && b in SP.Tracked(s.view);
    assert SP.Apart(a, b);
    ApartNamesApart(s.active[i], s.active[j]);
  }

  lemma ApartNamesApart(c: Context, d: Context)
    requires SP.Apart(JobOf(c), JobOf(d))
    ensures forall k :: !(Occupies(c, k) && Occupies(d, k))
    ensures forall k :: !(Sends(c, k) && Sends(d, k))
  {
    forall k ensures !(Occupies(c, k) && Occupies(d, k)) && !(Sends(c, k) && Sends(d, k)) {
      JobIsNamed(c, k);
      JobIsNamed(d, k);
    }
  }

  /**
   The same in the words of the plans: nothing that one of two pending or running executions uses is used by the other,
   and no assignment of one is given to an agent of the other.
   */
  lemma NoMachineIsShared(s: RealtimeSession, i: string, j: string)
    requires s.Valid() && i in s.active && j in s.active && i != j && i in s.executor && j in s.executor
    requires s.executor[i].status == Executor.ExecPending || s.executor[i].status == Executor.ExecRunning
    requires s.executor[j].status == Executor.ExecPending || s.executor[j].status == Executor.ExecRunning
    ensures forall v, w :: Uses(s.active[i], v) && Uses(s.active[j], w) ==>
              TrimSpace(v) == "" || TrimSpace(v) != TrimSpace(w)
    ensures forall x, y :: 0 <= x < |s.active[i].plan| && 0 <= y < |s.active[j].plan| ==>
              TrimSpace(s.active[i].plan[x].agentID) == ""
              || TrimSpace(s.active[i].plan[x].agentID) != TrimSpace(s.active[j].plan[y].agentID)
  {
    FleetIsExclusive(s, i, j);
    NoCommonUse(s.active[i], s.active[j]);
    NoCommonAgent(s.active[i], s.active[j]);
  }

  /** And no execution has been folded into its planner state twice, nor while it is still active. */
  lemma FoldsAreOnce(s: RealtimeSession, x: nat, y: nat)
    requires s.Valid() && x < y < |s.view.folds|
    ensures s.view.folds[x] != s.view.folds[y]
    ensures s.view.folds[x] !in s.active
  {
    SP.LeadsKeepsCounted(SP.Initial(s.initial), s.history, s.view);
    forall id | id in s.active ensures id !in s.view.folds {
      assert Fits(id, s.active[id], s.executor);
      assert JobOf(s.active[id]) in SP.Tracked(s.view);
    }
  }

  /** A tick that starts its only candidate, whose goal binds its agent, is a round of the rotation. */
  lemma TickIsARound(
    setup: Setup, f: Fleet, start: nat -> Option<string>, clock: nat -> int, merged: State, last: nat, next: nat)
    requires setup.hasTrees && last < |setup.agents| && next < |setup.agents|
    requires TrimSpace(f.lastSelectedAgentID) == TrimSpace(setup.agents[last].id) && start(0).Some?
    requires var c := Choices(setup, merged, AfterFold(f)).candidates;
             |c| == 1 && c[0].binding.agentID == c[0].agentID && c[0].agentID == TrimSpace(setup.agents[next].id) != ""
    ensures Fairness.SelectsOne(setup.agents, RoundOf(setup, merged, AfterFold(f)), last, next)
    ensures Dispatched(setup, f, start, clock, merged).lastSelectedAgentID == TrimSpace(setup.agents[next].id)
  {
    var c := Choices(setup, merged, AfterFold(f));
    assert Rotated(setup.agents, f.lastSelectedAgentID) == Rotated(setup.agents, setup.agents[last].id);
    var g := AfterFold(f).(failed := c.failed);
    assert StartAll(g, c.candidates, start, clock, 1)
        == StartOne(StartAll(g, c.candidates, start, clock, 0), c.candidates[0], start(0), clock(0));
  }

  ghost function RoundOf(setup: Setup, merged: State, f: Fleet): Fairness.Round {
    Fairness.Round(
      Candidates.Tick(setup.services, merged, setup.goals, setup.resources),
      SP.BusyAgents(ReportsOf(f.executor), Jobs(f.active)), SP.BusyKeys(ReportsOf(f.executor), Jobs(f.active)),
      f.failed)
  }

  /** What a sync makes of the protocol's view of the session. */
  lemma SyncFollows(
    view: SP.Session, active: map<string, Context>, executor: map<string, Entry>, listing: seq<Context>,
    current: State, next: State, remaining: map<string, Context>)
    returns (actions: seq<SP.Action>, synced: SP.Session)
    requires view.phase.Resting? && view.current == current && view.active == Jobs(active)
    requires view.registry == ReportsOf(executor) && AllFit(active, executor)
    requires SP.Lists(JobsOf(listing), Jobs(active)) && next == Synced(current, listing, ReportsOf(executor))
    requires remaining == Surviving(active, executor)
    ensures SP.Leads(view, actions, synced) && synced.phase.Synced? && synced.registry == view.registry
    ensures synced.current == next && synced.active == Jobs(remaining) && AllFit(remaining, executor)
    ensures forall id :: id in active && id !in remaining ==> id in synced.folds
  {
    var order := JobsOf(listing);
    SurvivingJobs(active, executor);
    actions := SP.SyncIsARun(view, order);
    synced := SP.AfterSync(view, order);
    FoldedIds(view, active, executor, order);
  }

  /** The listing and the loop of syncExecutions: what becomes of state, executions and failures. */
  method FoldActive(active: map<string, Context>, executor: map<string, Entry>, current: State)
    returns (listing: seq<Context>, next: State, remaining: map<string, Context>, completed: set<string>)
    requires AllFit(active, executor)
    ensures SP.Lists(JobsOf(listing), Jobs(active)) && next == Synced(current, listing, ReportsOf(executor))
    ensures remaining == Surviving(active, executor) && completed == CompletedGoals(active, executor)
    ensures forall a :: IsListing(BY_START, a, active) ==> a == listing
  {
    listing := ListActive(active);
    ListingInSight(listing, active, executor);
    next, remaining, completed := FoldExecutions(listing, executor, current, active);
    assert listing[..|listing|] == listing;
    CompletedAre(listing, active, executor);
    SiftedIsSurviving(listing, active, executor, remaining);
    OnlyListing(listing, active);
  }

  lemma OnlyListing(listing: seq<Context>, active: map<string, Context>)
    requires IsListing(BY_START, listing, active)
    ensures forall a :: IsListing(BY_START, a, active) ==> a == listing
  {
    StartOrderIsOrder();
    forall a | IsListing(BY_START, a, active) ensures a == listing { ListingIsUnique(BY_START, a, listing); }
  }

  lemma FoldedIds(s: SP.Session, active: map<string, Context>, executor: map<string, Entry>, order: seq<SP.Job>)
    requires s.registry == ReportsOf(executor) && AllFit(active, executor) && SP.Lists(order, Jobs(active))
    ensures forall id :: id in active && id !in Surviving(active, executor) ==> id in SP.AfterSync(s, order).folds
  {
    forall id | id in active && id !in Surviving(active, executor) ensures id in SP.AfterSync(s, order).folds {
      assert Fits(id, active[id], executor);
      var j := JobOf(active[id]);
      assert j in SP.JobSet(order);
      EndedIsListed(s.registry, order, j);
    }
  }

  lemma {:induction false} EndedIsListed(registry: map<string, SP.Report>, order: seq<SP.Job>, j: SP.Job)
    requires j in order && j.id in registry && registry[j.id].Ended?
    ensures j.id in SP.IdSeq(SP.EndedJobs(registry, order))
  {
    var ended := SP.EndedJobs(registry, order);
    if j == order[0] {
      assert ended[0] == j && SP.IdSeq(ended)[0] == j.id;
    } else {
      assert order == [order[0]] + order[1..];
      EndedIsListed(registry, order[1..], j);
      var rest := SP.EndedJobs(registry, order[1..]);
      var x :| 0 <= x < |SP.IdSeq(rest)| && SP.IdSeq(rest)[x] == j.id;
      var shift := |ended| - |rest|;
      assert ended[shift + x] == rest[x] && SP.IdSeq(ended)[shift + x] == j.id;
    }
  }
}
