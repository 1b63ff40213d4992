/** The rotation of agents between ticks bounds how often a ready agent can be overtaken. */
module Fairness {
  import opened Text
  import opened Planning
  import opened Dispatch
  import opened Candidates

  /** Agent ids are usable and pairwise different. */
  predicate DistinctAgents(agents: seq<AgentInfo>) {
    && (forall i :: 0 <= i < |agents| ==> !IsBlank(agents[i].id))
    && (forall i, j :: 0 <= i < j < |agents| ==> TrimSpace(agents[i].id) != TrimSpace(agents[j].id))
  }

  // ----- within one tick

  /** The agent at position k is passed over without a candidate. */
  ghost predicate PassedOver(
    t: Tick, agents: seq<AgentInfo>, k: nat, busyAgents: set<string>, busy: set<string>, failed: Failures)
    requires k < |agents|
  {
    var id := TrimSpace(agents[k].id);
    || id == "" || id in busyAgents || !t.sv.idle(t.current, agents[k])
    || FindFrom(t, agents[k], k, busy, failed, 0).candidate.None?
  }

  /** The failures on record after the agent at position k was passed over. */
  ghost function FailuresAfter(
    t: Tick, agents: seq<AgentInfo>, k: nat, busyAgents: set<string>, busy: set<string>, failed: Failures): Failures
    requires k < |agents|
  {
    var id := TrimSpace(agents[k].id);
    if id == "" || id in busyAgents || !t.sv.idle(t.current, agents[k]) then failed
    else FindFrom(t, agents[k], k, busy, failed, 0).failed
  }

  /** Who is passed over, and what is on record afterwards, given the failures on record before. */
  type Passing = (nat, Failures) -> bool
  type Recording = (nat, Failures) -> Failures

  ghost function PassingOf(t: Tick, agents: seq<AgentInfo>, busyAgents: set<string>, busy: set<string>): Passing {
    (k: nat, failed: Failures) => k < |agents| && PassedOver(t, agents, k, busyAgents, busy, failed)
  }

  ghost function RecordingOf(t: Tick, agents: seq<AgentInfo>, busyAgents: set<string>, busy: set<string>): Recording {
    (k: nat, failed: Failures) =>
      if k < |agents| then FailuresAfter(t, agents, k, busyAgents, busy, failed) else failed
  }

  /** On the walk from position k either someone is chosen before position p or the agent at p is not passed over. */
  ghost predicate NotOvertaken(passed: Passing, after: Recording, k: nat, p: nat, failed: Failures)
    requires k <= p
    decreases p - k
  {
    if k == p then !passed(k, failed)
    else passed(k, failed) ==> NotOvertaken(passed, after, k + 1, p, after(k, failed))
  }

  /** The same with the tick's initial busy sets. */
  ghost predicate Able(
    t: Tick, agents: seq<AgentInfo>, k: nat, p: nat, busyAgents: set<string>, busy: set<string>, failed: Failures)
    requires k <= p < |agents|
  {
    NotOvertaken(
      PassingOf(t, agents, busyAgents, busy), RecordingOf(t, agents, busyAgents, busy), k, p, failed)
  }

  /** The position at which the walk first chooses someone. */
  lemma {:induction false} SomeoneIsChosen(passed: Passing, after: Recording, k: nat, p: nat, failed: Failures)
    returns (q: nat, there: Failures)
    requires k <= p && NotOvertaken(passed, after, k, p, failed)
    ensures k <= q <= p && !passed(q, there) && Walked(passed, after, k, q, failed, there)
    decreases p - k
  {
    if passed(k, failed) {
      q, there := SomeoneIsChosen(passed, after, k + 1, p, after(k, failed));
    } else {
      q, there := k, failed;
    }
  }

  /** The walk passes everyone from position k up to q, and `there` is on record when it gets there. */
  ghost predicate Walked(passed: Passing, after: Recording, k: nat, q: nat, failed: Failures, there: Failures)
    requires k <= q
    decreases q - k
  {
    if k == q then there == failed else passed(k, failed) && Walked(passed, after, k + 1, q, after(k, failed), there)
  }

  lemma OnePassed(
    t: Tick, agents: seq<AgentInfo>, k: nat, busyAgents: set<string>, busy: set<string>, failed: Failures,
    later: Failures)
    requires k < |agents| && PassingOf(t, agents, busyAgents, busy)(k, failed)
    requires later == RecordingOf(t, agents, busyAgents, busy)(k, failed)
    ensures CollectFrom(t, agents, k, busyAgents, busy, failed)
            == CollectFrom(t, agents, k + 1, busyAgents, busy, later)
  {
    assert PassedOver(t, agents, k, busyAgents, busy, failed);
    assert later == FailuresAfter(t, agents, k, busyAgents, busy, failed);
    PassedStep(t, agents, k, busyAgents, busy, failed);
  }

  /** What does not change when someone is passed over is the same at the end of the walk. */
  lemma {:induction false} SameAtTheEnd(
    passed: Passing, after: Recording, collect: (nat, Failures) -> Collected, k: nat, q: nat, failed: Failures,
    there: Failures)
    requires k <= q && Walked(passed, after, k, q, failed, there)
    requires forall x: nat, f :: x < q && passed(x, f) ==> collect(x, f) == collect(x + 1, after(x, f))
    ensures collect(k, failed) == collect(q, there)
    decreases q - k
  {
    if k < q {
      WalkedOne(passed, after, k, q, failed, there);
      SameAtTheEnd(passed, after, collect, k + 1, q, after(k, failed), there);
    }
  }

  ghost function CollectAt(
    t: Tick, agents: seq<AgentInfo>, busyAgents: set<string>, busy: set<string>, k: nat, failed: Failures): Collected
  {
    if k <= |agents| then CollectFrom(t, agents, k, busyAgents, busy, failed) else Collected([], failed)
  }

  lemma WalkedCollects(
    t: Tick, agents: seq<AgentInfo>, k: nat, q: nat, busyAgents: set<string>, busy: set<string>, failed: Failures,
    there: Failures, passed: Passing, after: Recording)
    requires passed == PassingOf(t, agents, busyAgents, busy) && after == RecordingOf(t, agents, busyAgents, busy)
    requires k <= q <= |agents| && Walked(passed, after, k, q, failed, there)
    ensures CollectAt(t, agents, busyAgents, busy, k, failed) == CollectAt(t, agents, busyAgents, busy, q, there)
  {
    var collect := Collecting(t, agents, busyAgents, busy);
    AllPass(t, agents, busyAgents, busy, passed, after, collect, q);
    SameAtTheEnd(passed, after, collect, k, q, failed, there);
  }

  ghost function Collecting(t: Tick, agents: seq<AgentInfo>, busyAgents: set<string>, busy: set<string>)
    : (nat, Failures) -> Collected
  {
    (k: nat, f: Failures) => CollectAt(t, agents, busyAgents, busy, k, f)
  }

  lemma AllPass(
    t: Tick, agents: seq<AgentInfo>, busyAgents: set<string>, busy: set<string>, passed: Passing, after: Recording,
    collect: (nat, Failures) -> Collected, q: nat)
    requires passed == PassingOf(t, agents, busyAgents, busy) && after == RecordingOf(t, agents, busyAgents, busy)
    requires collect == Collecting(t, agents, busyAgents, busy) && q <= |agents|
    ensures forall x: nat, f :: x < q && passed(x, f) ==> collect(x, f) == collect(x + 1, after(x, f))
  {
    forall x: nat, f | x < q && passed(x, f) ensures collect(x, f) == collect(x + 1, after(x, f)) {
      OnePasses(t, agents, x, busyAgents, busy, f, passed, after, collect);
    }
  }

  lemma OnePasses(
    t: Tick, agents: seq<AgentInfo>, x: nat, busyAgents: set<string>, busy: set<string>, f: Failures, passed: Passing,
    after: Recording, collect: (nat, Failures) -> Collected)
    requires passed == PassingOf(t, agents, busyAgents, busy) && after == RecordingOf(t, agents, busyAgents, busy)
    requires collect == Collecting(t, agents, busyAgents, busy) && x < |agents| && passed(x, f)
    ensures collect(x, f) == collect(x + 1, after(x, f))
  {
    CollectPasses(t, agents, x, busyAgents, busy, f, passed, after);
  }

  lemma CollectPasses(
    t: Tick, agents: seq<AgentInfo>, x: nat, busyAgents: set<string>, busy: set<string>, f: Failures, passed: Passing,
    after: Recording)
    requires passed == PassingOf(t, agents, busyAgents, busy) && after == RecordingOf(t, agents, busyAgents, busy)
    requires x < |agents| && passed(x, f)
    ensures CollectAt(t, agents, busyAgents, busy, x, f) == CollectAt(t, agents, busyAgents, busy, x + 1, after(x, f))
  {
    OnePassed(t, agents, x, busyAgents, busy, f, after(x, f));
  }

  lemma WalkedOne(passed: Passing, after: Recording, k: nat, q: nat, failed: Failures, there: Failures)
    requires k < q && Walked(passed, after, k, q, failed, there)
    ensures passed(k, failed) && Walked(passed, after, k + 1, q, after(k, failed), there)
  {
  }

  /** The tick's first candidate belongs to an agent at or before any able one. */
  lemma FirstCandidateAtOrBefore(
    t: Tick, agents: seq<AgentInfo>, k: nat, p: nat, busyAgents: set<string>, busy: set<string>, failed: Failures)
    requires k <= p < |agents| && Able(t, agents, k, p, busyAgents, busy, failed)
    ensures LedBy(CollectFrom(t, agents, k, busyAgents, busy, failed), agents, k, p)
  {
    var passed, after := PassingOf(t, agents, busyAgents, busy), RecordingOf(t, agents, busyAgents, busy);
    var q, there := SomeoneIsChosen(passed, after, k, p, failed);
    WalkedCollects(t, agents, k, q, busyAgents, busy, failed, there, passed, after);
    ChosenStep(t, agents, q, busyAgents, busy, there);
  }

  /** The first collected candidate is the agent at some position from k to p. */
  ghost predicate LedBy(c: Collected, agents: seq<AgentInfo>, k: nat, p: nat) {
    && c.candidates != [] && k <= c.candidates[0].agentOrder <= p < |agents|
    && c.candidates[0].agentID == TrimSpace(agents[c.candidates[0].agentOrder].id)
  }

  lemma PassedStep(
    t: Tick, agents: seq<AgentInfo>, k: nat, busyAgents: set<string>, busy: set<string>, failed: Failures)
    requires k < |agents| && PassedOver(t, agents, k, busyAgents, busy, failed)
    ensures CollectFrom(t, agents, k, busyAgents, busy, failed)
            == CollectFrom(t, agents, k + 1, busyAgents, busy, FailuresAfter(t, agents, k, busyAgents, busy, failed))
  {
    CollectStep(t, agents, k, busyAgents, busy, failed);
  }

  lemma ChosenStep(
    t: Tick, agents: seq<AgentInfo>, k: nat, busyAgents: set<string>, busy: set<string>, failed: Failures)
    requires k < |agents| && !PassedOver(t, agents, k, busyAgents, busy, failed)
    ensures LedBy(CollectFrom(t, agents, k, busyAgents, busy, failed), agents, k, k)
  {
    CollectStep(t, agents, k, busyAgents, busy, failed);
    FoundNamesAgent(t, agents[k], k, busy, failed, 0);
  }

  lemma {:induction false} FoundNamesAgent(
    t: Tick, agent: AgentInfo, order: nat, busy: set<string>, failed: Failures, g: nat)
    requires g <= |t.goals|
    ensures var f := FindFrom(t, agent, order, busy, failed, g).candidate;
            f.Some? ==> f.value.agentOrder == order && f.value.agentID == TrimSpace(agent.id)
    decreases |t.goals| - g
  {
    if g < |t.goals| {
      FindStep(t, agent, order, busy, failed, g);
      match BindingOf(t, agent, t.goals[g], busy)
      case None => FoundNamesAgent(t, agent, order, busy, failed, g + 1);
      case Some(b) =>
        match Judge(t, t.goals[g], TrimSpace(agent.id), b, busy, failed)
        case Failing(key) => FoundNamesAgent(t, agent, order, busy, failed[t.goals[g].id := key], g + 1);
        case Ready(_) =>
        case _ => FoundNamesAgent(t, agent, order, busy, failed, g + 1);
    }
  }

  // ----- the rotation

  /** Where agent `a` stands when the rotation starts after agent `last`. */
  function Position(a: nat, last: nat, n: nat): (p: nat)
    requires a < n && last < n
    ensures p < n && Wrap(last + 1 + p, n) == a
  {
    if last < a then a - last - 1 else a + n - last - 1
  }

  lemma PivotIs(agents: seq<AgentInfo>, last: nat)
    requires DistinctAgents(agents) && last < |agents|
    ensures Pivot(agents, TrimSpace(agents[last].id)) == last
  {
    var p := Pivot(agents, TrimSpace(agents[last].id));
    assert p <= last;
  }

  lemma RotatedAt(agents: seq<AgentInfo>, last: nat, q: nat)
    requires DistinctAgents(agents) && last < |agents| && q < |agents|
    ensures Rotated(agents, TrimSpace(agents[last].id))[q] == agents[Wrap(last + 1 + q, |agents|)]
  {
    TrimTwice(agents[last].id);
    PivotIs(agents, last);
    RingAt(agents, last, q);
  }

  lemma RingAt(agents: seq<AgentInfo>, last: nat, q: nat)
    requires last < |agents| && q < |agents|
    ensures RotatedAfter(agents, last)[q] == agents[Wrap(last + 1 + q, |agents|)]
  {
  }

  // ----- over ticks

  /** One tick that starts exactly one candidate, whose goal binds its agent. */
  datatype Round = Round(tick: Tick, busyAgents: set<string>, busy: set<string>, failed: Failures)

  ghost function Started(agents: seq<AgentInfo>, last: nat, r: Round): seq<Candidate>
    requires last < |agents|
  {
    CollectFrom(r.tick, Rotated(agents, agents[last].id), 0, r.busyAgents, r.busy, r.failed).candidates
  }

  /** `lasts[j]` is the agent selected last before round j; each round selects the agent it starts. */
  ghost predicate Rounds(agents: seq<AgentInfo>, rounds: seq<Round>, lasts: seq<nat>) {
    && |lasts| == |rounds| + 1
    && (forall j :: 0 <= j < |lasts| ==> lasts[j] < |agents|)
    && (forall j :: 0 <= j < |rounds| ==> RoundSelects(agents, rounds, lasts, j))
  }

  ghost predicate RoundSelects(agents: seq<AgentInfo>, rounds: seq<Round>, lasts: seq<nat>, j: int)
    requires |lasts| == |rounds| + 1 && 0 <= j < |rounds|
    requires forall i :: 0 <= i < |lasts| ==> lasts[i] < |agents|
  {
    SelectsOne(agents, rounds[j], lasts[j], lasts[j + 1])
  }

  ghost predicate SelectsOne(agents: seq<AgentInfo>, r: Round, last: nat, next: nat)
    requires last < |agents| && next < |agents|
  {
    && |Started(agents, last, r)| == 1
    && Started(agents, last, r)[0].binding.agentID == Started(agents, last, r)[0].agentID
    && TrimSpace(agents[next].id) == Started(agents, last, r)[0].binding.agentID
  }

  ghost predicate AbleIn(agents: seq<AgentInfo>, r: Round, last: nat, a: nat)
    requires last < |agents| && a < |agents|
  {
    Able(r.tick, Rotated(agents, agents[last].id), 0, Position(a, last, |agents|), r.busyAgents, r.busy, r.failed)
  }

  /** A round that does not start an able agent moves it strictly forward. */
  lemma PassedAgentMovesUp(agents: seq<AgentInfo>, r: Round, last: nat, next: nat, a: nat)
    requires DistinctAgents(agents) && last < |agents| && next < |agents| && a < |agents|
    requires SelectsOne(agents, r, last, next) && AbleIn(agents, r, last, a) && next != a
    ensures Position(a, next, |agents|) < Position(a, last, |agents|)
  {
    var n, p := |agents|, Position(a, last, |agents|);
    var rotated := Rotated(agents, agents[last].id);
    FirstCandidateAtOrBefore(r.tick, rotated, 0, p, r.busyAgents, r.busy, r.failed);
    var q := Started(agents, last, r)[0].agentOrder;
    RotatedAt(agents, last, q);
    RotatedIgnoresSpace(agents, last);
    assert TrimSpace(agents[next].id) == TrimSpace(agents[Wrap(last + 1 + q, n)].id);
    assert next == Wrap(last + 1 + q, n);
  }

  lemma RotatedIgnoresSpace(agents: seq<AgentInfo>, last: nat)
    requires last < |agents|
    ensures Rotated(agents, agents[last].id) == Rotated(agents, TrimSpace(agents[last].id))
  {
  }

  /** From round s on, an agent that stays able is started within as many rounds as its position says. */
  lemma {:induction false} OvertakingFrom(
    agents: seq<AgentInfo>, rounds: seq<Round>, lasts: seq<nat>, a: nat, s: nat) returns (j: nat)
    requires DistinctAgents(agents) && Rounds(agents, rounds, lasts) && a < |agents|
    requires forall j :: 0 <= j < |rounds| ==> AbleIn(agents, rounds[j], lasts[j], a)
    requires s < |lasts| && s + Position(a, lasts[s], |agents|) < |rounds|
    ensures s < j < |lasts| && lasts[j] == a
    decreases |rounds| - s
  {
    assert RoundSelects(agents, rounds, lasts, s);
    j := s + 1;
    if lasts[j] != a {
      PassedAgentMovesUp(agents, rounds[s], lasts[s], lasts[j], a);
      j := OvertakingFrom(agents, rounds, lasts, a, j);
    }
  }

  /** Bounded overtaking: an agent that stays able is started within as many rounds as there are agents. */
  lemma BoundedOvertaking(agents: seq<AgentInfo>, rounds: seq<Round>, lasts: seq<nat>, a: nat)
    requires DistinctAgents(agents) && Rounds(agents, rounds, lasts) && a < |agents|
    requires forall j :: 0 <= j < |rounds| ==> AbleIn(agents, rounds[j], lasts[j], a)
    requires |agents| <= |rounds|
    ensures exists j :: 0 < j <= |agents| && lasts[j] == a
  {
    var few := |agents|;
    var early, earlyLasts := rounds[..few], lasts[..few + 1];
    forall j | 0 <= j < few ensures RoundSelects(agents, early, earlyLasts, j) {
      assert RoundSelects(agents, rounds, lasts, j);
    }
    var j := OvertakingFrom(agents, early, earlyLasts, a, 0);
  }

  // ----- able by one's own search

  /**
   Against the given busy resources and failures, goal `m` is activated for the agent and binds it, and the planner has
   a plan for it that uses nothing busy.
   */
  ghost predicate Open(t: Tick, agent: AgentInfo, busy: set<string>, failed: Failures, m: nat) {
    && m < |t.goals|
    && var b := BindingOf(t, agent, t.goals[m], busy);
       && b.Some? && b.value.agentID == TrimSpace(agent.id) != ""
       && Judge(t, t.goals[m], TrimSpace(agent.id), b.value, busy, failed).Ready?
  }

  /** The agent on its own could be sent to work: it is not busy, reports idle, and some goal is open to it. */
  ghost predicate AbleAlone(t: Tick, agent: AgentInfo, busyAgents: set<string>, busy: set<string>, failed: Failures) {
    && TrimSpace(agent.id) !in busyAgents && t.sv.idle(t.current, agent)
    && exists m :: Open(t, agent, busy, failed, m)
  }

  /** The later failures say the same of each goal, or speak of another agent. */
  ghost predicate Unharmed(later: Failures, failed: Failures, id: string) {
    forall g :: g in later && later[g].binding.agentID == id ==> g in failed && failed[g] == later[g]
  }

  lemma OpenStays(t: Tick, agent: AgentInfo, busy: set<string>, failed: Failures, later: Failures, m: nat)
    requires Open(t, agent, busy, failed, m) && Unharmed(later, failed, TrimSpace(agent.id))
    ensures Open(t, agent, busy, later, m)
  {
  }

  lemma OpenDespite(t: Tick, agent: AgentInfo, busy: set<string>, failed: Failures, m: nat, id: string, key: FailureKey)
    requires Open(t, agent, busy, failed, m) && id != t.goals[m].id
    ensures Open(t, agent, busy, failed[id := key], m)
  {
  }

  /** What the agent's search finds from goal j on. */
  ghost function Finding(t: Tick, agent: AgentInfo, order: nat, busy: set<string>, failed: Failures, j: nat)
    : Option<Candidate>
    requires j <= |t.goals|
  {
    FindFrom(t, agent, order, busy, failed, j).candidate
  }

  lemma OpenIsFound(t: Tick, agent: AgentInfo, order: nat, busy: set<string>, failed: Failures, m: nat)
    requires m < |t.goals| && WorkAt(t, agent, busy, failed, m).Some?
    ensures Finding(t, agent, order, busy, failed, m).Some?
  {
    FindStep(t, agent, order, busy, failed, m);
  }

  /** A goal before the open one leaves it open. */
  lemma LaterStaysOpen(t: Tick, agent: AgentInfo, busy: set<string>, failed: Failures, j: nat, m: nat)
    returns (later: Failures)
    requires DistinctGoals(t.goals) && j < m < |t.goals| && WorkAt(t, agent, busy, failed, m).Some?
    ensures later == Later(t, agent, busy, failed, j) && WorkAt(t, agent, busy, later, m).Some?
  {
    later := Later(t, agent, busy, failed, j);
    var b := BindingOf(t, agent, t.goals[j], busy);
    if b.Some? {
      match Judge(t, t.goals[j], TrimSpace(agent.id), b.value, busy, failed)
      case Failing(key) => OpenDespite(t, agent, busy, failed, m, t.goals[j].id, key);
      case _ =>
    }
  }

  /** A goal is dispatched, or the search goes on with what is on record then. */
  lemma SearchGoesOn(
    t: Tick, agent: AgentInfo, order: nat, busy: set<string>, failed: Failures, j: nat, next: nat, later: Failures)
    requires j < next == j + 1 <= |t.goals| && later == Later(t, agent, busy, failed, j)
    requires Finding(t, agent, order, busy, later, next).Some?
    ensures Finding(t, agent, order, busy, failed, j).Some?
  {
    FindStep(t, agent, order, busy, failed, j);
  }

  /** The agent's search finds something as long as a goal ahead of it is open. */
  lemma {:induction false} SearchSucceeds(
    t: Tick, agent: AgentInfo, order: nat, busy: set<string>, failed: Failures, j: nat, m: nat)
    requires DistinctGoals(t.goals) && j <= m < |t.goals| && WorkAt(t, agent, busy, failed, m).Some?
    ensures Finding(t, agent, order, busy, failed, j).Some?
    decreases m - j
  {
    if j == m {
      OpenIsFound(t, agent, order, busy, failed, j);
    } else {
      var next := j + 1;
      var later := LaterStaysOpen(t, agent, busy, failed, j, m);
      SearchSucceeds(t, agent, order, busy, later, next, m);
      SearchGoesOn(t, agent, order, busy, failed, j, next, later);
    }
  }

  /** The plan for goal m where it is open to the agent. */
  ghost function WorkAt(t: Tick, agent: AgentInfo, busy: set<string>, failed: Failures, m: nat): Option<Plan> {
    if Open(t, agent, busy, failed, m)
    then Some(Judge(t, t.goals[m], TrimSpace(agent.id), BindingOf(t, agent, t.goals[m], busy).value, busy, failed).plan)
    else None
  }

  /** What another agent's search records speaks of that agent, or of none. */
  lemma {:induction false} OthersDoNoHarm(
    t: Tick, other: AgentInfo, order: nat, busy: set<string>, failed: Failures, first: Failures, id: string, j: nat)
    requires j <= |t.goals| && !IsBlank(other.id) && id != "" && id != TrimSpace(other.id)
    requires Unharmed(failed, first, id)
    ensures Unharmed(FindFrom(t, other, order, busy, failed, j).failed, first, id)
    decreases |t.goals| - j
  {
    if j < |t.goals| {
      FindStep(t, other, order, busy, failed, j);
      match BindingOf(t, other, t.goals[j], busy)
      case None => OthersDoNoHarm(t, other, order, busy, failed, first, id, j + 1);
      case Some(b) =>
        match Judge(t, t.goals[j], TrimSpace(other.id), b, busy, failed)
        case Failing(key) =>
          HarmlessRecord(t, other, busy, failed, first, id, j, b, key);
          OthersDoNoHarm(t, other, order, busy, failed[t.goals[j].id := key], first, id, j + 1);
        case Ready(_) =>
        case _ => OthersDoNoHarm(t, other, order, busy, failed, first, id, j + 1);
    }
  }

  lemma HarmlessRecord(
    t: Tick, other: AgentInfo, busy: set<string>, failed: Failures, first: Failures, id: string, j: nat, b: Binding,
    key: FailureKey)
    requires j < |t.goals| && !IsBlank(other.id) && id != "" && id != TrimSpace(other.id) && Unharmed(failed, first, id)
    requires BindingOf(t, other, t.goals[j], busy) == Some(b) && key.binding == b
    ensures Unharmed(failed[t.goals[j].id := key], first, id)
  {
    var r := BindingIsFree(t, other, t.goals[j], busy, b);
    RecordOfAnother(failed, first, id, t.goals[j].id, key);
  }

  lemma RecordOfAnother(failed: Failures, first: Failures, id: string, g: string, key: FailureKey)
    requires Unharmed(failed, first, id) && key.binding.agentID != id
    ensures Unharmed(failed[g := key], first, id)
  {
  }

  /** What holds of the record wherever the walk gets decides who is overtaken. */
  lemma {:induction false} KeptIsNotOvertaken(
    passed: Passing, after: Recording, k: nat, p: nat, failed: Failures, keeps: Failures -> bool)
    requires k <= p && keeps(failed) && forall f :: keeps(f) ==> !passed(p, f)
    requires forall x: nat, f :: k <= x < p && keeps(f) ==> keeps(after(x, f))
    ensures NotOvertaken(passed, after, k, p, failed)
    decreases p - k
  {
    if k < p { KeptIsNotOvertaken(passed, after, k + 1, p, after(k, failed), keeps); }
  }

  /** Whoever comes before it, an agent able on its own is not passed over against the tick's initial busy sets. */
  lemma AloneIsAble(
    t: Tick, agents: seq<AgentInfo>, p: nat, busyAgents: set<string>, busy: set<string>, failed: Failures)
    requires DistinctAgents(agents) && DistinctGoals(t.goals) && p < |agents|
    requires AbleAlone(t, agents[p], busyAgents, busy, failed)
    ensures Able(t, agents, 0, p, busyAgents, busy, failed)
  {
    var id := TrimSpace(agents[p].id);
    var passed, after := PassingOf(t, agents, busyAgents, busy), RecordingOf(t, agents, busyAgents, busy);
    var keeps := KeepsFor(failed, id);
    forall f | keeps(f) ensures !passed(p, f) { NotPassedOver(t, agents, p, busyAgents, busy, failed, f); }
    forall x: nat, f | x < p && keeps(f) ensures keeps(after(x, f)) {
      StepDoesNoHarm(t, agents, x, busyAgents, busy, f, failed, id);
    }
    KeptIsNotOvertaken(passed, after, 0, p, failed, keeps);
  }

  ghost function KeepsFor(failed: Failures, id: string): Failures -> bool {
    (later: Failures) => Unharmed(later, failed, id)
  }

  lemma StepDoesNoHarm(
    t: Tick, agents: seq<AgentInfo>, k: nat, busyAgents: set<string>, busy: set<string>, failed: Failures,
    first: Failures, id: string)
    requires k < |agents| && !IsBlank(agents[k].id) && id != "" && id != TrimSpace(agents[k].id)
    requires Unharmed(failed, first, id)
    ensures Unharmed(FailuresAfter(t, agents, k, busyAgents, busy, failed), first, id)
  {
    OthersDoNoHarm(t, agents[k], k, busy, failed, first, id, 0);
  }

  lemma NotPassedOver(
    t: Tick, agents: seq<AgentInfo>, p: nat, busyAgents: set<string>, busy: set<string>, first: Failures,
    failed: Failures)
    requires DistinctGoals(t.goals) && p < |agents| && !IsBlank(agents[p].id)
    requires AbleAlone(t, agents[p], busyAgents, busy, first) && Unharmed(failed, first, TrimSpace(agents[p].id))
    ensures !PassedOver(t, agents, p, busyAgents, busy, failed)
  {
    var m :| Open(t, agents[p], busy, first, m);
    OpenStays(t, agents[p], busy, first, failed, m);
    SearchSucceeds(t, agents[p], p, busy, failed, 0, m);
  }

  lemma RotatedIsDistinct(agents: seq<AgentInfo>, last: nat)
    requires DistinctAgents(agents) && last < |agents|
    ensures |Rotated(agents, agents[last].id)| == |agents| && DistinctAgents(Rotated(agents, agents[last].id))
  {
    var rotated, n := Rotated(agents, agents[last].id), |agents|;
    RotatedIgnoresSpace(agents, last);
    forall q: nat | q < n ensures rotated[q] == agents[Wrap(last + 1 + q, n)] { RotatedAt(agents, last, q); }
    forall q, r | 0 <= q < r < n ensures TrimSpace(rotated[q].id) != TrimSpace(rotated[r].id) {
      assert Wrap(last + 1 + q, n) != Wrap(last + 1 + r, n);
    }
  }

  /** Being able in a round follows from the agent's own state, the goals, and what was busy and failed at its start. */
  lemma AbleByOwnSearch(agents: seq<AgentInfo>, r: Round, last: nat, a: nat)
    requires DistinctAgents(agents) && DistinctGoals(r.tick.goals) && last < |agents| && a < |agents|
    requires AbleAlone(r.tick, agents[a], r.busyAgents, r.busy, r.failed)
    ensures AbleIn(agents, r, last, a)
  {
    var rotated, p := Rotated(agents, agents[last].id), Position(a, last, |agents|);
    RotatedHas(agents, last, a);
    RotatedIsDistinct(agents, last);
    AloneIsAble(r.tick, rotated, p, r.busyAgents, r.busy, r.failed);
  }

  lemma RotatedHas(agents: seq<AgentInfo>, last: nat, a: nat)
    requires DistinctAgents(agents) && last < |agents| && a < |agents|
    ensures var rotated, p := Rotated(agents, agents[last].id), Position(a, last, |agents|);
            p < |rotated| && rotated[p] == agents[a]
  {
    var p := Position(a, last, |agents|);
    RotatedIgnoresSpace(agents, last);
    RotatedAt(agents, last, p);
    assert Wrap(last + 1 + p, |agents|) == a;
  }

  /** Bounded overtaking, said of the agent alone: whoever stays able is started within as many rounds as agents. */
  lemma AbleAgentIsStarted(agents: seq<AgentInfo>, rounds: seq<Round>, lasts: seq<nat>, a: nat)
    requires DistinctAgents(agents) && Rounds(agents, rounds, lasts) && a < |agents| <= |rounds|
    requires forall j :: 0 <= j < |rounds| ==>
      DistinctGoals(rounds[j].tick.goals)
      && AbleAlone(rounds[j].tick, agents[a], rounds[j].busyAgents, rounds[j].busy, rounds[j].failed)
    ensures exists j :: 0 < j <= |agents| && lasts[j] == a
  {
    forall j | 0 <= j < |rounds| ensures AbleIn(agents, rounds[j], lasts[j], a) {
      AbleByOwnSearch(agents, rounds[j], lasts[j], a);
    }
    BoundedOvertaking(agents, rounds, lasts, a);
  }
}
