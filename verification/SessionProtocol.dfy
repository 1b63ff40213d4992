/**
 One realtime session as a concurrent protocol. The tick goroutine works in many short critical sections; between any
 two of them executions make progress, the session may be stopped, and resets or status requests may rewrite the
 planner state. A run is any interleaving of these actions.
 */
module SessionProtocol {
  import opened Planning

  /** An execution started by the session: the agents and resource keys it occupies while it lives. */
  datatype Job = Job(id: string, agents: set<string>, keys: set<string>)

  /** A dispatch candidate: what its execution will occupy. */
  datatype Offer = Offer(agents: set<string>, keys: set<string>)

  /** What the executor reports: pending or running, or ended with the writes its replay yields. */
  datatype Report = Live | Ended(effect: State)

  /** Where the tick goroutine stands, with the local variables that outlive a critical section. */
  datatype Phase =
    | Resting
    | Listed(todo: seq<Job>)
    | Folding(todo: seq<Job>, remaining: set<Job>, read: State, next: State, folded: seq<Job>)
    | Synced
    | Merged
    | Surveying(todo: seq<Job>, busyAgents: set<string>, busyKeys: set<string>)
    | Starting(offers: seq<Offer>)
    | Recording(id: string, offer: Offer, offers: seq<Offer>)

  /**
   `folds` lists the executions folded into `current` so far, `recorded` all executions ever made active, and
   `dropped` those a stop has forgotten.
   */
  datatype Session = Session(
    current: State, active: set<Job>, registry: map<string, Report>, phase: Phase,
    folds: seq<string>, recorded: set<string>, dropped: set<string>)

  datatype Action =
    | ListActive(order: seq<Job>) | ReadState | FoldOne | WriteBack | Merge(merged: State)
    | Survey(order: seq<Job>) | SurveyOne | Choose(offers: seq<Offer>) | StartFails | Launch(id: string) | Record
    | EndTick | Stop | Overwrite(state: State) | Progress(id: string, effect: State)

  function Ids(jobs: set<Job>): set<string> { set j | j in jobs :: j.id }

  function JobSet(jobs: seq<Job>): set<Job> { set j | j in jobs }

  predicate IsLive(registry: map<string, Report>, id: string) { id in registry && registry[id].Live? }

  ghost predicate Apart(a: Job, b: Job) { a.agents !! b.agents && a.keys !! b.keys }

  ghost predicate OfferApart(o: Offer, j: Job) { o.agents !! j.agents && o.keys !! j.keys }

  ghost predicate OffersApart(offers: seq<Offer>) {
    forall x, y :: 0 <= x < y < |offers| ==> offers[x].agents !! offers[y].agents && offers[x].keys !! offers[y].keys
  }

  /** `order` lists a set of jobs once each. */
  ghost predicate Lists(order: seq<Job>, jobs: set<Job>) {
    JobSet(order) == jobs && forall x, y :: 0 <= x < y < |order| ==> order[x] != order[y]
  }

  ghost predicate Enabled(s: Session, a: Action) {
    match a
    case ListActive(order) => s.phase.Resting? && Lists(order, s.active)
    case ReadState => s.phase.Listed?
    case FoldOne => s.phase.Folding? && s.phase.todo != []
    case WriteBack => s.phase.Folding? && s.phase.todo == []
    case Merge(merged) => s.phase.Synced? && merged.Keys == s.current.Keys
    case Survey(order) => s.phase.Merged? && Lists(order, s.active)
    case SurveyOne => s.phase.Surveying? && s.phase.todo != []
    case Choose(offers) =>
      && s.phase.Surveying? && s.phase.todo == [] && OffersApart(offers)
      && forall x :: 0 <= x < |offers| ==>
           offers[x].agents !! s.phase.busyAgents && offers[x].keys !! s.phase.busyKeys
    case StartFails => s.phase.Starting? && s.phase.offers != []
    case Launch(id) => s.phase.Starting? && s.phase.offers != [] && id !in s.registry
    case Record => s.phase.Recording?
    case EndTick => s.phase.Merged? || s.phase.Starting?
    case Stop => true
    case Overwrite(_) => true
    case Progress(id, _) => IsLive(s.registry, id)
  }

  /** One iteration of the sync loop: keep a live execution, fold an ended one, forget an unknown one. */
  function FoldHead(registry: map<string, Report>, p: Phase): (r: Phase)
    requires p.Folding? && p.todo != []
    ensures r.Folding? && |r.todo| == |p.todo| - 1
  {
    var j := p.todo[0];
    if j.id !in registry then Folding(p.todo[1..], p.remaining, p.read, p.next, p.folded)
    else if registry[j.id].Live? then Folding(p.todo[1..], p.remaining + {j}, p.read, p.next, p.folded)
    else Folding(p.todo[1..], p.remaining, p.read, p.next + registry[j.id].effect, p.folded + [j])
  }

  /** One iteration of the busy survey: only live executions occupy anything. */
  function SurveyHead(registry: map<string, Report>, p: Phase): (r: Phase)
    requires p.Surveying? && p.todo != []
    ensures r.Surveying? && |r.todo| == |p.todo| - 1
  {
    var j := p.todo[0];
    if IsLive(registry, j.id) then Surveying(p.todo[1..], p.busyAgents + j.agents, p.busyKeys + j.keys)
    else Surveying(p.todo[1..], p.busyAgents, p.busyKeys)
  }

  ghost function Apply(s: Session, a: Action): Session
    requires Enabled(s, a)
  {
    match a
    case ListActive(order) => s.(phase := if order == [] then Synced else Listed(order))
    case ReadState => s.(phase := Folding(s.phase.todo, {}, s.current, s.current, []))
    case FoldOne => s.(phase := FoldHead(s.registry, s.phase))
    case WriteBack =>
      s.(current := s.phase.next, active := s.phase.remaining, folds := s.folds + IdSeq(s.phase.folded),
         phase := Synced)
    case Merge(merged) => s.(current := merged, phase := Merged)
    case Survey(order) => s.(phase := Surveying(order, {}, {}))
    case SurveyOne => s.(phase := SurveyHead(s.registry, s.phase))
    case Choose(offers) => s.(phase := Starting(offers))
    case StartFails => s.(phase := Starting(s.phase.offers[1..]))
    case Launch(id) =>
      s.(registry := s.registry[id := Live], phase := Recording(id, s.phase.offers[0], s.phase.offers[1..]))
    case Record =>
      s.(active := s.active + {Job(s.phase.id, s.phase.offer.agents, s.phase.offer.keys)},
         recorded := s.recorded + {s.phase.id}, phase := Starting(s.phase.offers))
    case EndTick => s.(phase := Resting)
    case Stop => s.(active := {}, dropped := s.dropped + Ids(s.active))
    case Overwrite(state) => s.(current := state)
    case Progress(id, effect) => s.(registry := s.registry[id := Ended(effect)])
  }

  function IdSeq(jobs: seq<Job>): (r: seq<string>)
    ensures |r| == |jobs|
  {
    seq(|jobs|, i requires 0 <= i < |jobs| => jobs[i].id)
  }

  function Initial(state: State): Session { Session(state, {}, map[], Resting, [], {}, {}) }

  ghost predicate IsRun(state: State, states: seq<Session>, actions: seq<Action>) {
    && |states| == |actions| + 1
    && states[0] == Initial(state)
    && forall t :: 0 <= t < |actions| ==> StepOfRun(states, actions, t)
  }

  ghost predicate StepOfRun(states: seq<Session>, actions: seq<Action>, t: int)
    requires |states| == |actions| + 1 && 0 <= t < |actions|
  {
    Enabled(states[t], actions[t]) && states[t + 1] == Apply(states[t], actions[t])
  }

  // ----- the invariant

  /** The jobs the tick's local variables still hold. */
  function Held(p: Phase): set<Job> {
    match p
    case Listed(todo) => JobSet(todo)
    case Folding(todo, remaining, _, _, folded) => JobSet(todo) + remaining + JobSet(folded)
    case _ => {}
  }

  function Tracked(s: Session): set<Job> { s.active + Held(s.phase) }

  /** While a sync is under way, `active` can only have been emptied. */
  predicate Syncing(p: Phase) { p.Listed? || p.Folding? }

  ghost predicate JobsKnown(s: Session) {
    && (forall j :: j in Tracked(s) ==> j.id in s.registry && j.id in s.recorded)
    && (forall i, j :: i in Tracked(s) && j in Tracked(s) && i.id == j.id ==> i == j)
    && (forall id :: id in s.recorded ==> id in s.registry)
    && (s.phase.Recording? ==> s.phase.id in s.registry && s.phase.id !in s.recorded)
    && (Syncing(s.phase) ==> s.active <= Held(s.phase))
  }

  /** Two live executions of the session share neither agent nor resource. */
  ghost predicate Exclusive(s: Session) {
    forall i, j :: i in Tracked(s) && j in Tracked(s) && i != j && IsLive(s.registry, i.id) && IsLive(s.registry, j.id)
                   ==> Apart(i, j)
  }

  /** What the dispatch half of a tick relies on. */
  ghost predicate DispatchSafe(s: Session) {
    match s.phase
    case Surveying(todo, busyAgents, busyKeys) =>
      forall j :: j in s.active && IsLive(s.registry, j.id) ==>
        j in todo || (j.agents <= busyAgents && j.keys <= busyKeys)
    case Starting(offers) => OffersApart(offers) && OffersFit(s, offers)
    case Recording(id, offer, offers) => OffersApart([offer] + offers) && OffersFit(s, [offer] + offers)
    case _ => true
  }

  ghost predicate OffersFit(s: Session, offers: seq<Offer>) {
    forall x, j :: 0 <= x < |offers| && j in s.active && IsLive(s.registry, j.id) ==> OfferApart(offers[x], j)
  }

  ghost predicate Inv(s: Session) { JobsKnown(s) && Exclusive(s) && DispatchSafe(s) }

  // ----- mutual exclusion

  lemma QuietActionKeepsInv(s: Session, a: Action)
    requires Inv(s) && Enabled(s, a)
    requires a.Merge? || a.Overwrite? || a.EndTick? || a.StartFails? || a.Choose?
    ensures Inv(Apply(s, a))
  {
    var s' := Apply(s, a);
    assert Tracked(s') == Tracked(s);
    if a.Choose? {
      forall x, j | 0 <= x < |a.offers| && j in s.active && IsLive(s.registry, j.id)
        ensures OfferApart(a.offers[x], j)
      {
      }
    }
  }

  lemma SyncActionKeepsInv(s: Session, a: Action)
    requires Inv(s) && Enabled(s, a)
    requires a.ListActive? || a.ReadState? || a.WriteBack?
    ensures Inv(Apply(s, a))
  {
    var s' := Apply(s, a);
    assert Tracked(s') <= Tracked(s);
  }

  lemma FoldOneKeepsInv(s: Session)
    requires Inv(s) && Enabled(s, FoldOne)
    ensures Inv(Apply(s, FoldOne))
  {
    var s' := Apply(s, FoldOne);
    var p := s.phase;
    assert p.todo == [p.todo[0]] + p.todo[1..];
    assert p.todo[0] in Tracked(s);
    assert Held(s'.phase) == Held(s.phase);
  }

  lemma SurveyKeepsInv(s: Session, a: Action)
    requires Inv(s) && Enabled(s, a) && (a.Survey? || a.SurveyOne?)
    ensures Inv(Apply(s, a))
  {
    var s' := Apply(s, a);
    assert Tracked(s') == Tracked(s);
    if a.SurveyOne? {
      var todo := s.phase.todo;
      assert todo == [todo[0]] + todo[1..];
    } else {
      assert forall j :: j in s.active ==> j in a.order;
    }
  }

  lemma LaunchKeepsInv(s: Session, id: string)
    requires Inv(s) && Enabled(s, Launch(id))
    ensures Inv(Apply(s, Launch(id)))
  {
    var s' := Apply(s, Launch(id));
    assert Tracked(s') == Tracked(s);
    assert forall j :: j in Tracked(s) ==> IsLive(s'.registry, j.id) == IsLive(s.registry, j.id);
    assert [s.phase.offers[0]] + s.phase.offers[1..] == s.phase.offers;
  }

  lemma RecordKeepsInv(s: Session)
    requires Inv(s) && Enabled(s, Record)
    ensures Inv(Apply(s, Record))
  {
    var s' := Apply(s, Record);
    var all := [s.phase.offer] + s.phase.offers;
    var job := Job(s.phase.id, s.phase.offer.agents, s.phase.offer.keys);
    assert Tracked(s') == Tracked(s) + {job};
    forall j | j in Tracked(s) && IsLive(s.registry, j.id) ensures Apart(job, j) && Apart(j, job) {
      assert OfferApart(all[0], j);
    }
    forall x | 0 <= x < |s.phase.offers| ensures OfferApart(s.phase.offers[x], job) {
      assert all[0].agents !! all[x + 1].agents && all[0].keys !! all[x + 1].keys;
    }
    forall x, j | 0 <= x < |s.phase.offers| && j in s.active && IsLive(s.registry, j.id)
      ensures OfferApart(s.phase.offers[x], j)
    {
      assert OfferApart(all[x + 1], j);
    }
    TailApart(s.phase.offer, s.phase.offers);
  }

  lemma TailApart(o: Offer, offers: seq<Offer>)
    requires OffersApart([o] + offers)
    ensures OffersApart(offers)
  {
    var all := [o] + offers;
    forall x, y | 0 <= x < y < |offers|
      ensures offers[x].agents !! offers[y].agents && offers[x].keys !! offers[y].keys
    {
      assert all[x + 1].agents !! all[y + 1].agents && all[x + 1].keys !! all[y + 1].keys;
    }
  }

  lemma StopKeepsInv(s: Session)
    requires Inv(s)
    ensures Inv(Apply(s, Stop))
  {
    assert Tracked(Apply(s, Stop)) <= Tracked(s);
  }

  lemma ProgressKeepsInv(s: Session, id: string, effect: State)
    requires Inv(s) && Enabled(s, Progress(id, effect))
    ensures Inv(Apply(s, Progress(id, effect)))
  {
    var s' := Apply(s, Progress(id, effect));
    assert Tracked(s') == Tracked(s);
    assert forall k :: IsLive(s'.registry, k) ==> IsLive(s.registry, k);
  }

  lemma ApplyKeepsInv(s: Session, a: Action)
    requires Inv(s) && Enabled(s, a)
    ensures Inv(Apply(s, a))
  {
    match a
    case FoldOne => FoldOneKeepsInv(s);
    case Survey(_) => SurveyKeepsInv(s, a);
    case SurveyOne => SurveyKeepsInv(s, a);
    case Launch(id) => LaunchKeepsInv(s, id);
    case Record => RecordKeepsInv(s);
    case Stop => StopKeepsInv(s);
    case Progress(id, effect) => ProgressKeepsInv(s, id, effect);
    case ListActive(_) => SyncActionKeepsInv(s, a);
    case ReadState => SyncActionKeepsInv(s, a);
    case WriteBack => SyncActionKeepsInv(s, a);
    case _ => QuietActionKeepsInv(s, a);
  }

  lemma {:induction false} RunKeepsInv(state: State, states: seq<Session>, actions: seq<Action>, t: nat)
    requires IsRun(state, states, actions) && t < |states|
    ensures Inv(states[t])
  {
    if t > 0 {
      RunKeepsInv(state, states, actions, t - 1);
      assert StepOfRun(states, actions, t - 1);
      ApplyKeepsInv(states[t - 1], actions[t - 1]);
    }
  }

  /**
   Mutual exclusion over every run: two active executions that are pending or running occupy different agents and
   share no resource key.
   */
  lemma MutualExclusion(state: State, states: seq<Session>, actions: seq<Action>, t: nat, i: Job, j: Job)
    requires IsRun(state, states, actions) && t < |states|
    requires i in states[t].active && j in states[t].active && i != j
    requires IsLive(states[t].registry, i.id) && IsLive(states[t].registry, j.id)
    ensures i.agents !! j.agents && i.keys !! j.keys && i.id != j.id
  {
    RunKeepsInv(state, states, actions, t);
    assert i in Tracked(states[t]) && j in Tracked(states[t]);
    assert Apart(i, j);
  }

  // ----- exactly-once folding

  function EffectOf(registry: map<string, Report>, j: Job): State {
    if j.id in registry && registry[j.id].Ended? then registry[j.id].effect else map[]
  }

  function EffectsOf(registry: map<string, Report>, jobs: seq<Job>): (r: seq<State>)
    ensures |r| == |jobs|
  {
    seq(|jobs|, i requires 0 <= i < |jobs| => EffectOf(registry, jobs[i]))
  }

  ghost predicate Distinct<T>(s: seq<T>) {
    forall x, y :: 0 <= x < y < |s| ==> s[x] != s[y]
  }

  /** A sync in progress splits its jobs into those to visit, those kept and those folded. */
  ghost predicate SplitRight(registry: map<string, Report>, p: Phase) {
    match p
    case Listed(todo) => Distinct(todo)
    case Folding(todo, remaining, read, next, folded) =>
      && Distinct(todo) && Distinct(folded)
      && JobSet(todo) !! remaining && JobSet(todo) !! JobSet(folded) && remaining !! JobSet(folded)
      && (forall j :: j in folded ==> j.id in registry && registry[j.id].Ended?)
      && next == read + Accumulate(EffectsOf(registry, folded))
    case _ => true
  }

  ghost predicate FoldsRight(s: Session) {
    && Distinct(s.folds)
    && (forall id :: id in s.folds ==> id in s.recorded && id in s.registry && s.registry[id].Ended?)
    && (forall j :: j in Tracked(s) ==> j.id !in s.folds)
    && (forall id :: id in s.recorded ==> id in Ids(Tracked(s)) || id in s.folds || id in s.dropped)
  }

  ghost predicate Counted(s: Session) { Inv(s) && SplitRight(s.registry, s.phase) && FoldsRight(s) }

  lemma FoldHeadKeepsSplit(registry: map<string, Report>, p: Phase)
    requires p.Folding? && p.todo != [] && SplitRight(registry, p)
    ensures SplitRight(registry, FoldHead(registry, p))
  {
    var j, rest := p.todo[0], p.todo[1..];
    assert p.todo == [j] + rest;
    assert j !in rest by { assert forall x :: 1 <= x < |p.todo| ==> p.todo[0] != p.todo[x]; }
    assert JobSet(p.todo) == JobSet(rest) + {j};
    if j.id in registry && registry[j.id].Ended? {
      assert JobSet(p.folded + [j]) == JobSet(p.folded) + {j};
      FoldedEffectsStep(registry, p.folded, j, p.read);
    }
  }

  lemma FoldedEffectsStep(registry: map<string, Report>, folded: seq<Job>, j: Job, read: State)
    ensures read + Accumulate(EffectsOf(registry, folded + [j]))
            == (read + Accumulate(EffectsOf(registry, folded))) + EffectOf(registry, j)
  {
    var effects := EffectsOf(registry, folded + [j]);
    assert effects == EffectsOf(registry, folded) + [EffectOf(registry, j)];
    assert effects[..|folded|] == EffectsOf(registry, folded);
    MergeAssociates(read, Accumulate(EffectsOf(registry, folded)), EffectOf(registry, j));
  }

  lemma RegistryGrowthKeepsSplit(registry: map<string, Report>, id: string, r: Report, p: Phase)
    requires SplitRight(registry, p) && (id !in registry || registry[id].Live?)
    ensures SplitRight(registry[id := r], p)
  {
    if p.Folding? { assert EffectsOf(registry[id := r], p.folded) == EffectsOf(registry, p.folded); }
  }

  lemma ApplyKeepsSplit(s: Session, a: Action)
    requires Counted(s) && Enabled(s, a)
    ensures SplitRight(Apply(s, a).registry, Apply(s, a).phase)
  {
    match a
    case FoldOne => FoldHeadKeepsSplit(s.registry, s.phase);
    case Launch(id) =>
    case Progress(id, effect) => RegistryGrowthKeepsSplit(s.registry, id, Ended(effect), s.phase);
    case ReadState => assert EffectsOf(s.registry, []) == [] && s.current + map[] == s.current;
    case _ =>
  }

  lemma WriteBackKeepsFolds(s: Session)
    requires Counted(s) && Enabled(s, WriteBack)
    ensures FoldsRight(Apply(s, WriteBack))
  {
    var s', p := Apply(s, WriteBack), s.phase;
    var ids := IdSeq(p.folded);
    assert forall x :: 0 <= x < |ids| ==> p.folded[x] in Tracked(s);
    assert Distinct(s'.folds);
    assert Tracked(s') == p.remaining;
    forall j | j in p.remaining ensures j.id !in s'.folds {
      assert j in Tracked(s);
      assert forall x :: 0 <= x < |p.folded| ==> p.folded[x] in JobSet(p.folded) && p.folded[x] != j;
    }
    forall id | id in s.recorded ensures id in Ids(p.remaining) || id in s'.folds || id in s.dropped {
      if id in Ids(Tracked(s)) {
        var j :| j in Tracked(s) && j.id == id;
        if j !in p.remaining {
          assert j in p.folded;
          var x :| 0 <= x < |p.folded| && p.folded[x] == j;
          assert ids[x] == id && s'.folds[|s.folds| + x] == id;
        }
      }
    }
  }

  /** The folds stay right while the same executions are tracked. */
  lemma SameTrackedKeepsFolds(s: Session, s': Session)
    requires FoldsRight(s) && Tracked(s') == Tracked(s)
    requires s'.folds == s.folds && s'.recorded == s.recorded && s'.dropped == s.dropped
    requires forall id :: id in s.registry ==> id in s'.registry && (s.registry[id].Ended? ==> s'.registry[id].Ended?)
    ensures FoldsRight(s')
  {
  }

  lemma RecordKeepsFolds(s: Session)
    requires Counted(s) && Enabled(s, Record)
    ensures FoldsRight(Apply(s, Record))
  {
    var s' := Apply(s, Record);
    var job := Job(s.phase.id, s.phase.offer.agents, s.phase.offer.keys);
    assert Tracked(s') == Tracked(s) + {job};
    assert Ids(Tracked(s')) == Ids(Tracked(s)) + {job.id};
  }

  lemma StopKeepsFolds(s: Session)
    requires Counted(s)
    ensures FoldsRight(Apply(s, Stop))
  {
    var s' := Apply(s, Stop);
    assert Tracked(s) == s.active + Tracked(s');
    assert Ids(Tracked(s)) == Ids(s.active) + Ids(Tracked(s'));
  }

  lemma OtherActionKeepsTracked(s: Session, a: Action)
    requires Inv(s) && Enabled(s, a) && !a.WriteBack? && !a.Record? && !a.Stop?
    ensures Tracked(Apply(s, a)) == Tracked(s)
  {
    if a.FoldOne? { FoldOneKeepsHeld(s); }
  }

  lemma FoldOneKeepsHeld(s: Session)
    requires Inv(s) && Enabled(s, FoldOne)
    ensures Held(FoldHead(s.registry, s.phase)) == Held(s.phase)
  {
    var todo := s.phase.todo;
    assert todo == [todo[0]] + todo[1..];
    assert todo[0] in Tracked(s);
  }

  lemma OtherActionKeepsFolds(s: Session, a: Action)
    requires Inv(s) && FoldsRight(s) && Enabled(s, a) && !a.WriteBack? && !a.Record? && !a.Stop?
    ensures FoldsRight(Apply(s, a))
  {
    OtherActionKeepsTracked(s, a);
    SameTrackedKeepsFolds(s, Apply(s, a));
  }

  lemma ApplyKeepsCounted(s: Session, a: Action)
    requires Counted(s) && Enabled(s, a)
    ensures Counted(Apply(s, a))
  {
    ApplyKeepsInv(s, a);
    ApplyKeepsSplit(s, a);
    match a
    case WriteBack => WriteBackKeepsFolds(s);
    case Record => RecordKeepsFolds(s);
    case Stop => StopKeepsFolds(s);
    case _ => OtherActionKeepsFolds(s, a);
  }

  lemma {:induction false} RunKeepsCounted(state: State, states: seq<Session>, actions: seq<Action>, t: nat)
    requires IsRun(state, states, actions) && t < |states|
    ensures Counted(states[t])
  {
    if t > 0 {
      RunKeepsCounted(state, states, actions, t - 1);
      assert StepOfRun(states, actions, t - 1);
      ApplyKeepsCounted(states[t - 1], actions[t - 1]);
    }
  }

  /** Over every run each execution is folded into the planner state at most once. */
  lemma FoldedAtMostOnce(state: State, states: seq<Session>, actions: seq<Action>, t: nat, x: nat, y: nat)
    requires IsRun(state, states, actions) && t < |states|
    requires x < y < |states[t].folds|
    ensures states[t].folds[x] != states[t].folds[y]
  {
    RunKeepsCounted(state, states, actions, t);
  }

  lemma {:induction false} NoStopNoDrop(state: State, states: seq<Session>, actions: seq<Action>, t: nat)
    requires IsRun(state, states, actions) && t < |states|
    requires forall u :: 0 <= u < t ==> !actions[u].Stop?
    ensures states[t].dropped == {}
  {
    if t > 0 {
      NoStopNoDrop(state, states, actions, t - 1);
      assert StepOfRun(states, actions, t - 1);
    }
  }

  /** Between ticks of a session never stopped, every started execution is either still active or folded, not both. */
  lemma NoExecutionIsLost(state: State, states: seq<Session>, actions: seq<Action>, t: nat, id: string)
    requires IsRun(state, states, actions) && t < |states| && states[t].phase.Resting?
    requires forall u :: 0 <= u < t ==> !actions[u].Stop?
    requires id in states[t].recorded
    ensures id in Ids(states[t].active) <==> id !in states[t].folds
  {
    RunKeepsCounted(state, states, actions, t);
    NoStopNoDrop(state, states, actions, t);
    assert Tracked(states[t]) == states[t].active;
  }

  /** A sync writes back exactly the effects of the executions it folds, on top of the state it read. */
  lemma SyncWritesFoldedEffects(state: State, states: seq<Session>, actions: seq<Action>, t: nat)
    requires IsRun(state, states, actions) && t < |actions| && actions[t].WriteBack?
    ensures states[t].phase.Folding?
    ensures states[t + 1].current
            == states[t].phase.read + Accumulate(EffectsOf(states[t].registry, states[t].phase.folded))
    ensures states[t + 1].folds == states[t].folds + IdSeq(states[t].phase.folded)
  {
    assert StepOfRun(states, actions, t);
    RunKeepsCounted(state, states, actions, t);
  }

  lemma {:induction false} FoldKeepsRead(state: State, states: seq<Session>, actions: seq<Action>, t0: nat, t: nat)
    requires IsRun(state, states, actions) && t0 < t < |states|
    requires actions[t0].ReadState? && forall u :: t0 < u <= t ==> states[u].phase.Folding?
    ensures states[t].phase.read == states[t0].current
  {
    assert StepOfRun(states, actions, t - 1);
    if t0 + 1 < t { FoldKeepsRead(state, states, actions, t0, t - 1); }
  }

  /**
   The sync reads the planner state in one critical section and writes it back in another. Whatever a reset wrote in
   between is lost: the state written back is the one read at the start with the folded effects on top.
   */
  lemma SyncForgetsInterveningWrites(state: State, states: seq<Session>, actions: seq<Action>, t0: nat, t: nat)
    requires IsRun(state, states, actions) && t0 < t < |actions|
    requires actions[t0].ReadState? && actions[t].WriteBack?
    requires forall u :: t0 < u <= t ==> states[u].phase.Folding?
    ensures states[t + 1].current
            == states[t0].current + Accumulate(EffectsOf(states[t].registry, states[t].phase.folded))
  {
    FoldKeepsRead(state, states, actions, t0, t);
    SyncWritesFoldedEffects(state, states, actions, t);
  }

  /** An execution that had ended when a sync listed it is folded by that sync. */
  lemma {:induction false} EndedExecutionIsFolded(
    state: State, states: seq<Session>, actions: seq<Action>, t0: nat, t: nat, j: Job)
    requires IsRun(state, states, actions) && t0 < t < |states|
    requires actions[t0].ListActive? && j in states[t0].active
    requires j.id in states[t0].registry && states[t0].registry[j.id].Ended?
    requires forall u :: t0 < u < t ==> Syncing(states[u].phase)
    ensures j.id in states[t].registry && states[t].registry[j.id].Ended?
    ensures match states[t].phase
            case Listed(todo) => j in todo
            case Folding(todo, _, _, _, folded) => j in todo || j in folded
            case _ => j.id in states[t].folds
  {
    assert StepOfRun(states, actions, t - 1);
    if t == t0 + 1 {
      assert j in JobSet(actions[t0].order);
    } else {
      EndedExecutionIsFolded(state, states, actions, t0, t - 1, j);
      var s, a := states[t - 1], actions[t - 1];
      FoldedStaysInSight(s, a, j);
    }
  }

  lemma FoldedStaysInSight(s: Session, a: Action, j: Job)
    requires Enabled(s, a) && Syncing(s.phase)
    requires j.id in s.registry && s.registry[j.id].Ended?
    requires j in s.phase.todo || (s.phase.Folding? && j in s.phase.folded)
    ensures j.id in Apply(s, a).registry && Apply(s, a).registry[j.id].Ended?
    ensures match Apply(s, a).phase
            case Listed(todo) => j in todo
            case Folding(todo, _, _, _, folded) => j in todo || j in folded
            case _ => j.id in Apply(s, a).folds
  {
    if a.FoldOne? {
      assert s.phase.todo == [s.phase.todo[0]] + s.phase.todo[1..];
    } else if a.WriteBack? {
      var x :| 0 <= x < |s.phase.folded| && s.phase.folded[x] == j;
      assert Apply(s, a).folds[|s.folds| + x] == IdSeq(s.phase.folded)[x] == j.id;
    }
  }

  // ----- stretches of a run

  /** The actions lead from `s` to `t`. */
  ghost predicate Leads(s: Session, actions: seq<Action>, t: Session)
    decreases |actions|
  {
    if actions == [] then t == s
    else Enabled(s, actions[0]) && Leads(Apply(s, actions[0]), actions[1..], t)
  }

  lemma {:induction false} LeadsThrough(s: Session, a: seq<Action>, m: Session, b: seq<Action>, t: Session)
    requires Leads(s, a, m) && Leads(m, b, t)
    ensures Leads(s, a + b, t)
    decreases |a|
  {
    if a == [] {
      assert a + b == b;
    } else {
      LeadsThrough(Apply(s, a[0]), a[1..], m, b, t);
      assert (a + b)[0] == a[0] && (a + b)[1..] == a[1..] + b;
    }
  }

  lemma LeadsByOne(s: Session, a: Action)
    requires Enabled(s, a)
    ensures Leads(s, [a], Apply(s, a))
  {
    assert [a][1..] == [];
  }

  lemma {:induction false} LeadsKeepsCounted(s: Session, actions: seq<Action>, t: Session)
    requires Counted(s) && Leads(s, actions, t)
    ensures Counted(t)
    decreases |actions|
  {
    if actions != [] {
      ApplyKeepsCounted(s, actions[0]);
      LeadsKeepsCounted(Apply(s, actions[0]), actions[1..], t);
    }
  }

  /** Where the sync loop ends. */
  function FoldAll(registry: map<string, Report>, p: Phase): Phase
    requires p.Folding?
    decreases |p.todo|
  {
    if p.todo == [] then p else FoldAll(registry, FoldHead(registry, p))
  }

  function LiveJobs(registry: map<string, Report>, jobs: set<Job>): set<Job> {
    set j | j in jobs && IsLive(registry, j.id)
  }

  function EndedJobs(registry: map<string, Report>, todo: seq<Job>): seq<Job> {
    if todo == [] then []
    else (if todo[0].id in registry && registry[todo[0].id].Ended? then [todo[0]] else [])
         + EndedJobs(registry, todo[1..])
  }

  /** The end of the sync loop in one step: live executions stay, the effects of the ended ones apply in turn. */
  function FoldEnd(registry: map<string, Report>, p: Phase): Phase
    requires p.Folding?
  {
    Folding([], p.remaining + LiveJobs(registry, JobSet(p.todo)), p.read,
            p.next + Accumulate(EffectsOf(registry, p.todo)), p.folded + EndedJobs(registry, p.todo))
  }

  lemma HeadEffect(registry: map<string, Report>, todo: seq<Job>, next: State)
    requires todo != []
    ensures next + Accumulate(EffectsOf(registry, todo))
            == (next + EffectOf(registry, todo[0])) + Accumulate(EffectsOf(registry, todo[1..]))
  {
    assert EffectsOf(registry, todo) == [EffectOf(registry, todo[0])] + EffectsOf(registry, todo[1..]);
    AccumulateCons(EffectOf(registry, todo[0]), EffectsOf(registry, todo[1..]));
    MergeAssociates(next, EffectOf(registry, todo[0]), Accumulate(EffectsOf(registry, todo[1..])));
  }

  lemma HeadJob(todo: seq<Job>)
    requires todo != []
    ensures JobSet(todo) == {todo[0]} + JobSet(todo[1..])
  {
    assert todo == [todo[0]] + todo[1..];
  }

  lemma HeadLive(registry: map<string, Report>, todo: seq<Job>, remaining: set<Job>)
    requires todo != []
    ensures remaining + LiveJobs(registry, JobSet(todo))
            == (remaining + if IsLive(registry, todo[0].id) then {todo[0]} else {})
               + LiveJobs(registry, JobSet(todo[1..]))
  {
    HeadJob(todo);
  }

  lemma FoldEndStep(registry: map<string, Report>, p: Phase)
    requires p.Folding? && p.todo != []
    ensures FoldEnd(registry, p) == FoldEnd(registry, FoldHead(registry, p))
  {
    var j, rest, q := p.todo[0], p.todo[1..], FoldHead(registry, p);
    var ended := if j.id in registry && registry[j.id].Ended? then [j] else [];
    HeadEffect(registry, p.todo, p.next);
    HeadLive(registry, p.todo, p.remaining);
    HeadOutcome(registry, p);
    EndedStep(p.folded, ended, EndedJobs(registry, rest));
  }

  lemma EndedStep(a: seq<Job>, b: seq<Job>, c: seq<Job>)
    ensures a + (b + c) == (a + b) + c
  {
  }

  lemma HeadOutcome(registry: map<string, Report>, p: Phase)
    requires p.Folding? && p.todo != []
    ensures var j, q := p.todo[0], FoldHead(registry, p);
            && q.remaining == p.remaining + (if IsLive(registry, j.id) then {j} else {})
            && q.next == p.next + EffectOf(registry, j)
            && q.folded == p.folded + (if j.id in registry && registry[j.id].Ended? then [j] else [])
  {
    assert p.next + map[] == p.next;
  }

  lemma {:induction false} FoldAllTotal(registry: map<string, Report>, p: Phase)
    requires p.Folding?
    ensures FoldAll(registry, p) == FoldEnd(registry, p)
    decreases |p.todo|
  {
    if p.todo == [] {
      assert EffectsOf(registry, p.todo) == [];
      assert p.next + map[] == p.next;
    } else {
      FoldAllTotal(registry, FoldHead(registry, p));
      FoldEndStep(registry, p);
    }
  }

  lemma {:induction false} FoldAllIsARun(s: Session) returns (actions: seq<Action>)
    requires s.phase.Folding?
    ensures Leads(s, actions, s.(phase := FoldAll(s.registry, s.phase)))
    decreases |s.phase.todo|
  {
    if s.phase.todo == [] {
      actions := [];
    } else {
      var rest := FoldAllIsARun(Apply(s, FoldOne));
      actions := [FoldOne] + rest;
      assert actions[1..] == rest;
    }
  }

  /** Where the busy survey ends. */
  function SurveyAll(registry: map<string, Report>, p: Phase): Phase
    requires p.Surveying?
    decreases |p.todo|
  {
    if p.todo == [] then p else SurveyAll(registry, SurveyHead(registry, p))
  }

  lemma {:induction false} SurveyAllIsARun(s: Session) returns (actions: seq<Action>)
    requires s.phase.Surveying?
    ensures Leads(s, actions, s.(phase := SurveyAll(s.registry, s.phase)))
    decreases |s.phase.todo|
  {
    if s.phase.todo == [] {
      actions := [];
    } else {
      var rest := SurveyAllIsARun(Apply(s, SurveyOne));
      actions := [SurveyOne] + rest;
      assert actions[1..] == rest;
    }
  }

  function BusyAgents(registry: map<string, Report>, jobs: set<Job>): set<string> {
    set j, a | j in jobs && IsLive(registry, j.id) && a in j.agents :: a
  }

  function BusyKeys(registry: map<string, Report>, jobs: set<Job>): set<string> {
    set j, k | j in jobs && IsLive(registry, j.id) && k in j.keys :: k
  }

  lemma BusyStep(registry: map<string, Report>, jobs: set<Job>, j: Job)
    ensures BusyAgents(registry, jobs + {j})
            == BusyAgents(registry, jobs) + if IsLive(registry, j.id) then j.agents else {}
    ensures BusyKeys(registry, jobs + {j}) == BusyKeys(registry, jobs) + if IsLive(registry, j.id) then j.keys else {}
  {
  }

  /** The end of the survey in one step: everything a live execution occupies. */
  function SurveyEnd(registry: map<string, Report>, p: Phase): Phase
    requires p.Surveying?
  {
    Surveying([], p.busyAgents + BusyAgents(registry, JobSet(p.todo)),
              p.busyKeys + BusyKeys(registry, JobSet(p.todo)))
  }

  lemma Regroup(a: set<string>, b: set<string>, c: set<string>)
    ensures a + (b + c) == (a + c) + b
  {
  }

  lemma HeadBusyAgents(registry: map<string, Report>, todo: seq<Job>, busy: set<string>)
    requires todo != []
    ensures busy + BusyAgents(registry, JobSet(todo))
            == (busy + if IsLive(registry, todo[0].id) then todo[0].agents else {})
               + BusyAgents(registry, JobSet(todo[1..]))
  {
    var j, rest := todo[0], JobSet(todo[1..]);
    HeadJob(todo);
    assert JobSet(todo) == rest + {j};
    BusyStep(registry, rest, j);
    Regroup(busy, BusyAgents(registry, rest), if IsLive(registry, j.id) then j.agents else {});
  }

  lemma HeadBusyKeys(registry: map<string, Report>, todo: seq<Job>, busy: set<string>)
    requires todo != []
    ensures busy + BusyKeys(registry, JobSet(todo))
            == (busy + if IsLive(registry, todo[0].id) then todo[0].keys else {})
               + BusyKeys(registry, JobSet(todo[1..]))
  {
    var j, rest := todo[0], JobSet(todo[1..]);
    HeadJob(todo);
    assert JobSet(todo) == rest + {j};
    BusyStep(registry, rest, j);
    Regroup(busy, BusyKeys(registry, rest), if IsLive(registry, j.id) then j.keys else {});
  }

  lemma SurveyEndStep(registry: map<string, Report>, p: Phase)
    requires p.Surveying? && p.todo != []
    ensures SurveyEnd(registry, p) == SurveyEnd(registry, SurveyHead(registry, p))
  {
    HeadBusyAgents(registry, p.todo, p.busyAgents);
    HeadBusyKeys(registry, p.todo, p.busyKeys);
    assert p.busyAgents + {} == p.busyAgents && p.busyKeys + {} == p.busyKeys;
  }

  lemma {:induction false} SurveyAllTotal(registry: map<string, Report>, p: Phase)
    requires p.Surveying?
    ensures SurveyAll(registry, p) == SurveyEnd(registry, p)
    decreases |p.todo|
  {
    if p.todo != [] {
      SurveyAllTotal(registry, SurveyHead(registry, p));
      SurveyEndStep(registry, p);
    }
  }

  // ----- the sections of an undisturbed tick

  /** After a sync that nothing interrupts. */
  function AfterSync(s: Session, order: seq<Job>): Session {
    s.(current := s.current + Accumulate(EffectsOf(s.registry, order)), active := LiveJobs(s.registry, s.active),
       folds := s.folds + IdSeq(EndedJobs(s.registry, order)), phase := Synced)
  }

  lemma SyncIsARun(s: Session, order: seq<Job>) returns (actions: seq<Action>)
    requires s.phase.Resting? && Lists(order, s.active)
    ensures Leads(s, actions, AfterSync(s, order))
  {
    var listed := Apply(s, ListActive(order));
    LeadsByOne(s, ListActive(order));
    if order == [] {
      actions := [ListActive(order)];
      NothingToSync(s);
    } else {
      var reading := Apply(listed, ReadState);
      LeadsByOne(listed, ReadState);
      var folding := FoldAllIsARun(reading);
      FoldAllTotal(s.registry, reading.phase);
      var done := reading.(phase := FoldEnd(s.registry, reading.phase));
      LeadsByOne(done, WriteBack);
      LeadsThrough(s, [ListActive(order)], listed, [ReadState], reading);
      LeadsThrough(s, [ListActive(order)] + [ReadState], reading, folding, done);
      LeadsThrough(s, [ListActive(order)] + [ReadState] + folding, done, [WriteBack], Apply(done, WriteBack));
      actions := [ListActive(order)] + [ReadState] + folding + [WriteBack];
      assert {} + LiveJobs(s.registry, s.active) == LiveJobs(s.registry, s.active);
      assert [] + EndedJobs(s.registry, order) == EndedJobs(s.registry, order);
    }
  }

  lemma NothingToSync(s: Session)
    requires s.active == {}
    ensures AfterSync(s, []) == s.(phase := Synced)
  {
    assert EffectsOf(s.registry, []) == [];
    assert s.current + map[] == s.current;
    assert LiveJobs(s.registry, {}) == {};
    assert s.folds + IdSeq([]) == s.folds;
  }

  /** After a busy survey that nothing interrupts. */
  function AfterSurvey(s: Session): Session {
    s.(phase := Surveying([], BusyAgents(s.registry, s.active), BusyKeys(s.registry, s.active)))
  }

  /** A set of jobs can be listed. */
  lemma {:induction false} SomeOrder(jobs: set<Job>) returns (order: seq<Job>)
    ensures Lists(order, jobs)
  {
    if jobs == {} {
      order := [];
    } else {
      var j :| j in jobs;
      var rest := SomeOrder(jobs - {j});
      order := [j] + rest;
      HeadJob(order);
      assert order[1..] == rest;
      assert forall x :: 0 <= x < |rest| ==> rest[x] in JobSet(rest);
    }
  }

  lemma SurveyIsARun(s: Session, order: seq<Job>) returns (actions: seq<Action>)
    requires s.phase.Merged? && Lists(order, s.active)
    ensures Leads(s, actions, AfterSurvey(s))
  {
    var begun := Apply(s, Survey(order));
    LeadsByOne(s, Survey(order));
    var survey := SurveyAllIsARun(begun);
    SurveyAllTotal(s.registry, begun.phase);
    actions := [Survey(order)] + survey;
    assert {} + BusyAgents(s.registry, s.active) == BusyAgents(s.registry, s.active);
    assert {} + BusyKeys(s.registry, s.active) == BusyKeys(s.registry, s.active);
    LeadsThrough(s, [Survey(order)], begun, survey, AfterSurvey(s));
  }

  /** After a start that succeeds. */
  function AfterStart(s: Session, id: string): Session
    requires s.phase.Starting? && s.phase.offers != []
  {
    var offer := s.phase.offers[0];
    s.(registry := s.registry[id := Live], active := s.active + {Job(id, offer.agents, offer.keys)},
       recorded := s.recorded + {id}, phase := Starting(s.phase.offers[1..]))
  }

  lemma StartIsARun(s: Session, id: string) returns (actions: seq<Action>)
    requires Enabled(s, Launch(id))
    ensures Leads(s, actions, AfterStart(s, id))
  {
    var launched := Apply(s, Launch(id));
    LeadsByOne(s, Launch(id));
    LeadsByOne(launched, Record);
    actions := [Launch(id)] + [Record];
    LeadsThrough(s, [Launch(id)], launched, [Record], Apply(launched, Record));
  }
}
