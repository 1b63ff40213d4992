/** Active executions of a session, and the order in which a sync visits them. */
module Contexts {
  import opened Text
  import opened Planning
  import opened Dispatch
  import opened SessionProtocol
  import Executor
  import Replay

  datatype Context = Context(id: string, startedAt: int, plan: Plan, goal: Goal, binding: Binding)

  /** An entry of the plan executor's registry. */
  datatype Entry = Entry(plan: Plan, status: Executor.ExecStatus, steps: seq<StepSnapshot>)

  predicate InFlight(e: Entry) { e.status.ExecPending? || e.status.ExecRunning? }

  function JobOf(c: Context): Job { Job(c.id, Agents(c.binding, c.plan), Keys(c.binding, c.plan)) }

  function ReportOf(e: Entry): Report {
    if InFlight(e) then Live else Ended(Replay.ReplayWrites(e.plan, Replay.Recorded(e.steps)))
  }

  function ReportsOf(executor: map<string, Entry>): map<string, Report> {
    map id | id in executor :: ReportOf(executor[id])
  }

  function JobsOf(cs: seq<Context>): (r: seq<Job>)
    ensures |r| == |cs|
    ensures forall i :: 0 <= i < |cs| ==> r[i] == JobOf(cs[i])
  {
    seq(|cs|, i requires 0 <= i < |cs| => JobOf(cs[i]))
  }

  function Jobs(active: map<string, Context>): set<Job> { set id | id in active :: JobOf(active[id]) }

  /** A context the executor knows: minted id, and the executor runs the plan the session remembers. */
  predicate Fits(id: string, c: Context, executor: map<string, Entry>) {
    c.id == id && id != "" && IsTrimmed(id) && id in executor && executor[id].plan == c.plan
  }

  predicate AllFit(active: map<string, Context>, executor: map<string, Entry>) {
    forall id :: id in active ==> Fits(id, active[id], executor)
  }

  // ----- the visiting order

  /** String comparison by code points. */
  predicate LexLess(a: string, b: string) {
    if b == "" then false
    else if a == "" then true
    else a[0] < b[0] || (a[0] == b[0] && LexLess(a[1..], b[1..]))
  }

  predicate Before(c: Context, d: Context) {
    if c.startedAt == d.startedAt then LexLess(c.id, d.id) else c.startedAt < d.startedAt
  }

  type Order = (Context, Context) -> bool

  const BY_START: Order := (c: Context, d: Context) => Before(c, d)

  ghost predicate IsOrder(less: Order) {
    && (forall c :: !less(c, c))
    && (forall c, d, e :: less(c, d) && less(d, e) ==> less(c, e))
    && (forall c: Context, d: Context :: c.id != d.id ==> less(c, d) || less(d, c))
  }

  lemma {:induction false} LexTransitive(a: string, b: string, c: string)
    requires LexLess(a, b) && LexLess(b, c)
    ensures LexLess(a, c)
  {
    if a != "" && a[0] == b[0] == c[0] { LexTransitive(a[1..], b[1..], c[1..]); }
  }

  lemma {:induction false} LexTotal(a: string, b: string)
    ensures a == b <==> !LexLess(a, b) && !LexLess(b, a)
  {
    if a != "" && b != "" {
      LexTotal(a[1..], b[1..]);
      assert a == [a[0]] + a[1..] && b == [b[0]] + b[1..];
    }
  }

  lemma StartOrderIsOrder()
    ensures IsOrder(BY_START)
  {
    forall c: Context ensures !BY_START(c, c) { LexTotal(c.id, c.id); }
    forall c, d, e | BY_START(c, d) && BY_START(d, e) ensures BY_START(c, e) {
      if c.startedAt == d.startedAt == e.startedAt { LexTransitive(c.id, d.id, e.id); }
    }
    forall c: Context, d: Context | c.id != d.id ensures BY_START(c, d) || BY_START(d, c) { LexTotal(c.id, d.id); }
  }

  ghost predicate Ascending(less: Order, s: seq<Context>) {
    forall i, j :: 0 <= i < j < |s| ==> less(s[i], s[j])
  }

  /** `s` lists the active executions, earlier starts first. */
  ghost predicate IsListing(less: Order, s: seq<Context>, active: map<string, Context>) {
    Ascending(less, s) && forall c :: c in s <==> c in active.Values
  }

  /** There is only one such list, whatever the iteration order of the map. */
  lemma {:induction false} ListingIsUnique(less: Order, a: seq<Context>, b: seq<Context>)
    requires IsOrder(less) && Ascending(less, a) && Ascending(less, b)
    requires forall c :: c in a <==> c in b
    ensures a == b
    decreases |a|
  {
    OnlyEmptyFitsEmpty(a, b);
    OnlyEmptyFitsEmpty(b, a);
    if a != [] {
      assert a[0] in b && b[0] in a;
      assert a[0] == b[0];
      forall c ensures c in a[1..] <==> c in b[1..] {
        SameTail(less, a, b, c);
        SameTail(less, b, a, c);
      }
      ListingIsUnique(less, a[1..], b[1..]);
      assert a == [a[0]] + a[1..] && b == [b[0]] + b[1..];
    }
  }

  lemma OnlyEmptyFitsEmpty(a: seq<Context>, b: seq<Context>)
    requires forall c :: c in a ==> c in b
    ensures b == [] ==> a == []
  {
    if a != [] { assert a[0] in b; }
  }

  lemma SameTail(less: Order, a: seq<Context>, b: seq<Context>, c: Context)
    requires IsOrder(less) && Ascending(less, a) && a != [] && b != [] && a[0] == b[0]
    requires forall c :: c in a ==> c in b
    ensures c in a[1..] ==> c in b[1..]
  {
    if c in a[1..] {
      assert c in a && less(a[0], c);
      assert b == [b[0]] + b[1..];
    }
  }

  function Insert(less: Order, s: seq<Context>, c: Context): (r: seq<Context>)
    ensures forall d :: d in r <==> d in s || d == c
  {
    if s == [] then [c]
    else
      assert s == [s[0]] + s[1..];
      if less(c, s[0]) then [c] + s else [s[0]] + Insert(less, s[1..], c)
  }

  lemma {:induction false} InsertAscends(less: Order, s: seq<Context>, c: Context)
    requires IsOrder(less) && Ascending(less, s) && forall d :: d in s ==> d.id != c.id
    ensures Ascending(less, Insert(less, s, c))
  {
    if s != [] {
      if less(c, s[0]) {
        assert forall i :: 0 < i < |s| ==> less(c, s[i]);
      } else {
        InsertAscends(less, s[1..], c);
        var rest := Insert(less, s[1..], c);
        forall i | 0 <= i < |rest| ensures less(s[0], rest[i]) {
          assert rest[i] in rest;
          assert s[0] in s;
        }
      }
    }
  }

  /** The listing and sorting at the head of syncExecutions; the map is visited in any order. */
  method ListActive(active: map<string, Context>) returns (listing: seq<Context>)
    requires forall id :: id in active ==> active[id].id == id
    ensures IsListing(BY_START, listing, active)
  {
    StartOrderIsOrder();
    listing := [];
    var left := active.Keys;
    while left != {}
      invariant left <= active.Keys && Ascending(BY_START, listing)
      invariant forall c :: c in listing <==> c in active.Values && c.id !in left
      decreases left
    {
      var id :| id in left;
      InsertAscends(BY_START, listing, active[id]);
      listing := Insert(BY_START, listing, active[id]);
      left := left - {id};
    }
  }

  // ----- one sync

  /** What a sync makes of the planner state: the replayed writes of the ended executions, in listing order. */
  function Synced(current: State, listing: seq<Context>, reports: map<string, Report>): State {
    current + Accumulate(EffectsOf(reports, JobsOf(listing)))
  }

  function Surviving(active: map<string, Context>, executor: map<string, Entry>): map<string, Context> {
    map id | id in active && id in executor && InFlight(executor[id]) :: active[id]
  }

  /** The surviving executions are those that are pending or running. */
  lemma SurvivorsAre(active: map<string, Context>, executor: map<string, Entry>)
    requires AllFit(active, executor)
    ensures forall id :: id in Surviving(active, executor) <==>
              id in active
              && (executor[id].status == Executor.ExecPending || executor[id].status == Executor.ExecRunning)
    ensures forall id :: id in Surviving(active, executor) ==> Surviving(active, executor)[id] == active[id]
  {
  }

  /** The result of a sync does not depend on the order in which the active map is iterated. */
  lemma SyncIsOrderFree(
    current: State, active: map<string, Context>, executor: map<string, Entry>, a: seq<Context>, b: seq<Context>)
    requires IsListing(BY_START, a, active) && IsListing(BY_START, b, active)
    ensures Synced(current, a, ReportsOf(executor)) == Synced(current, b, ReportsOf(executor))
  {
    StartOrderIsOrder();
    ListingIsUnique(BY_START, a, b);
  }

  ghost predicate InSight(listing: seq<Context>, i: nat, active: map<string, Context>, executor: map<string, Entry>) {
    && i <= |listing| && AllFit(active, executor)
    && (forall x :: 0 <= x < |listing| ==> listing[x].id in active && active[listing[x].id] == listing[x])
    && (forall x, y :: 0 <= x < y < |listing| ==> listing[x].id != listing[y].id)
  }

  lemma ListingInSight(listing: seq<Context>, active: map<string, Context>, executor: map<string, Entry>)
    requires AllFit(active, executor) && IsListing(BY_START, listing, active)
    ensures InSight(listing, |listing|, active, executor)
    ensures JobSet(JobsOf(listing)) == Jobs(active) && Lists(JobsOf(listing), Jobs(active))
  {
    StartOrderIsOrder();
    forall x | 0 <= x < |listing| ensures listing[x].id in active && active[listing[x].id] == listing[x] {
      assert listing[x] in listing;
    }
    forall x, y | 0 <= x < y < |listing| ensures listing[x].id != listing[y].id {
      assert BY_START(listing[x], listing[y]);
    }
    var jobs := JobsOf(listing);
    forall j | j in jobs ensures j in Jobs(active) {
      var x :| 0 <= x < |jobs| && jobs[x] == j;
      assert active[listing[x].id] == listing[x];
    }
    forall j | j in Jobs(active) ensures j in jobs {
      var id :| id in active && JobOf(active[id]) == j;
      assert active[id] in listing;
      var x :| 0 <= x < |listing| && listing[x] == active[id];
      assert jobs[x] == j;
    }
    assert forall x, y :: 0 <= x < y < |jobs| ==> jobs[x].id != jobs[y].id;
  }

  lemma AddJob(active: map<string, Context>, c: Context)
    requires c.id !in active
    ensures Jobs(active[c.id := c]) == Jobs(active) + {JobOf(c)}
  {
    var more := active[c.id := c];
    forall j ensures j in Jobs(more) <==> j in Jobs(active) || j == JobOf(c) { IsJobOfMore(active, c, j); }
  }

  lemma IsJobOfMore(active: map<string, Context>, c: Context, j: Job)
    requires c.id !in active
    ensures j in Jobs(active[c.id := c]) <==> j in Jobs(active) || j == JobOf(c)
  {
    var more := active[c.id := c];
    assert more[c.id] == c;
    if id :| id in active && JobOf(active[id]) == j { assert more[id] == active[id]; }
  }

  lemma SyncedStep(
    listing: seq<Context>, i: nat, active: map<string, Context>, executor: map<string, Entry>, start: State)
    requires InSight(listing, i, active, executor) && i < |listing|
    ensures var reports, c := ReportsOf(executor), listing[i];
            Synced(start, listing[..i + 1], reports)
            == Synced(start, listing[..i], reports) + if InFlight(executor[c.id]) then map[] else reports[c.id].effect
  {
    var reports := ReportsOf(executor);
    var effects := EffectsOf(reports, JobsOf(listing));
    assert Fits(listing[i].id, active[listing[i].id], executor);
    assert EffectsOf(reports, JobsOf(listing[..i + 1])) == effects[..i + 1];
    assert EffectsOf(reports, JobsOf(listing[..i])) == effects[..i];
    AccumulateStep(effects, i);
    MergeAssociates(start, Accumulate(effects[..i]), effects[i]);
  }

  /** One execution in the loop of syncExecutions. */
  method FoldExecution(
    c: Context, entry: Entry, before: State, remaining: map<string, Context>, completed: set<string>)
    returns (next: State, remaining': map<string, Context>, completed': set<string>)
    requires entry.plan == c.plan
    ensures next == before + if InFlight(entry) then map[] else ReportOf(entry).effect
    ensures remaining' == if InFlight(entry) then remaining[c.id := c] else remaining
    ensures completed' == if entry.status.ExecCompleted? then completed + {c.goal.id} else completed
  {
    next, remaining', completed' := before, remaining, completed;
    if InFlight(entry) {
      remaining' := remaining[c.id := c];
    } else {
      next := Replay.ApplyExecutionEffects(before, c.plan, entry.steps);
      if entry.status.ExecCompleted? { completed' := completed + {c.goal.id}; }
    }
  }

  /** What the loop of syncExecutions has established before listing[i]. */
  ghost predicate Sifted(
    listing: seq<Context>, i: nat, active: map<string, Context>, executor: map<string, Entry>,
    remaining: map<string, Context>)
    requires InSight(listing, i, active, executor)
  {
    && (forall x :: 0 <= x < i ==>
          listing[x].id in executor && (listing[x].id in remaining <==> InFlight(executor[listing[x].id])))
    && (forall x :: i <= x < |listing| ==> listing[x].id !in remaining)
    && (forall id :: id in remaining ==> id in active && remaining[id] == active[id])
  }

  lemma SiftStep(
    listing: seq<Context>, i: nat, active: map<string, Context>, executor: map<string, Entry>,
    remaining: map<string, Context>)
    requires InSight(listing, i, active, executor) && i < |listing|
    requires Sifted(listing, i, active, executor, remaining)
    ensures listing[i].id in executor
    ensures Sifted(listing, i + 1, active, executor,
              if InFlight(executor[listing[i].id]) then remaining[listing[i].id := listing[i]] else remaining)
  {
    assert Fits(listing[i].id, active[listing[i].id], executor);
  }

  /** The goals of the executions that completed, among the first n listed. */
  function CompletedIn(listing: seq<Context>, executor: map<string, Entry>, n: nat): set<string>
    requires n <= |listing|
  {
    if n == 0 then {}
    else
      var c := listing[n - 1];
      CompletedIn(listing, executor, n - 1)
      + if c.id in executor && executor[c.id].status.ExecCompleted? then {c.goal.id} else {}
  }

  lemma {:induction false} InCompleted(listing: seq<Context>, executor: map<string, Entry>, n: nat, g: string)
    requires n <= |listing|
    ensures g in CompletedIn(listing, executor, n) <==>
              exists x :: 0 <= x < n && listing[x].id in executor
                          && executor[listing[x].id].status.ExecCompleted? && listing[x].goal.id == g
  {
    if n > 0 { InCompleted(listing, executor, n - 1, g); }
  }

  function CompletedGoals(active: map<string, Context>, executor: map<string, Entry>): set<string> {
    set id | id in active && id in executor && executor[id].status.ExecCompleted? :: active[id].goal.id
  }

  lemma CompletedAre(listing: seq<Context>, active: map<string, Context>, executor: map<string, Entry>)
    requires IsListing(BY_START, listing, active) && AllFit(active, executor)
    ensures CompletedIn(listing, executor, |listing|) == CompletedGoals(active, executor)
  {
    forall g ensures g in CompletedIn(listing, executor, |listing|) <==> g in CompletedGoals(active, executor) {
      InCompleted(listing, executor, |listing|, g);
      if g in CompletedGoals(active, executor) {
        var id :| id in active && id in executor && executor[id].status.ExecCompleted? && active[id].goal.id == g;
        assert Fits(id, active[id], executor);
        assert active[id] in listing;
      }
      if x :| 0 <= x < |listing| && listing[x].id in executor
              && executor[listing[x].id].status.ExecCompleted? && listing[x].goal.id == g {
        assert listing[x] in active.Values;
      }
    }
  }

  /** What the sync loop has computed from the first i executions. */
  ghost predicate Folded(
    listing: seq<Context>, i: nat, active: map<string, Context>, executor: map<string, Entry>, start: State,
    next: State, remaining: map<string, Context>, completed: set<string>)
  {
    && InSight(listing, i, active, executor)
    && next == Synced(start, listing[..i], ReportsOf(executor))
    && Sifted(listing, i, active, executor, remaining)
    && completed == CompletedIn(listing, executor, i)
  }

  lemma FoldedStep(
    listing: seq<Context>, i: nat, active: map<string, Context>, executor: map<string, Entry>, start: State,
    next: State, remaining: map<string, Context>, completed: set<string>)
    requires i < |listing| && Folded(listing, i, active, executor, start, next, remaining, completed)
    ensures var c := listing[i];
            c.id in executor && executor[c.id].plan == c.plan &&
            var entry := executor[c.id];
            Folded(
              listing, i + 1, active, executor, start,
              next + (if InFlight(entry) then map[] else ReportOf(entry).effect),
              if InFlight(entry) then remaining[c.id := c] else remaining,
              if entry.status.ExecCompleted? then completed + {c.goal.id} else completed)
  {
    SyncedStep(listing, i, active, executor, start);
    SiftStep(listing, i, active, executor, remaining);
    assert Fits(listing[i].id, active[listing[i].id], executor);
    assert completed + {} == completed;
  }

  lemma FoldedNone(listing: seq<Context>, active: map<string, Context>, executor: map<string, Entry>, start: State)
    requires InSight(listing, |listing|, active, executor)
    ensures Folded(listing, 0, active, executor, start, start, map[], {})
  {
    assert EffectsOf(ReportsOf(executor), JobsOf(listing[..0])) == [];
    assert start + map[] == start;
  }

  /** The loop of syncExecutions over the sorted listing. */
  method FoldExecutions(
    listing: seq<Context>, executor: map<string, Entry>, start: State, ghost active: map<string, Context>)
    returns (next: State, remaining: map<string, Context>, completed: set<string>)
    requires InSight(listing, |listing|, active, executor)
    ensures Folded(listing, |listing|, active, executor, start, next, remaining, completed)
  {
    next, remaining, completed := start, map[], {};
    FoldedNone(listing, active, executor, start);
    var i := 0;
    while i < |listing|
      invariant 0 <= i <= |listing|
      invariant Folded(listing, i, active, executor, start, next, remaining, completed)
    {
      next, remaining, completed := FoldNext(listing, i, executor, next, remaining, completed, active, start);
      i := i + 1;
    }
  }

  method FoldNext(
    listing: seq<Context>, i: nat, executor: map<string, Entry>, before: State, kept: map<string, Context>,
    done: set<string>, ghost active: map<string, Context>, ghost start: State)
    returns (next: State, remaining: map<string, Context>, completed: set<string>)
    requires i < |listing| && Folded(listing, i, active, executor, start, before, kept, done)
    ensures Folded(listing, i + 1, active, executor, start, next, remaining, completed)
  {
    FoldedStep(listing, i, active, executor, start, before, kept, done);
    var entry := executor[listing[i].id];
    next, remaining, completed := FoldExecution(listing[i], entry, before, kept, done);
  }

  lemma SiftedIsSurviving(
    listing: seq<Context>, active: map<string, Context>, executor: map<string, Entry>, remaining: map<string, Context>)
    requires IsListing(BY_START, listing, active) && InSight(listing, |listing|, active, executor)
    requires Sifted(listing, |listing|, active, executor, remaining)
    ensures remaining == Surviving(active, executor)
  {
    forall id | id in active
      ensures id in executor && (id in remaining <==> InFlight(executor[id]))
    {
      assert active[id] in listing;
      assert Fits(id, active[id], executor);
      var x :| 0 <= x < |listing| && listing[x] == active[id];
    }
  }

  /** The jobs of the surviving executions are the live ones. */
  lemma SurvivingJobs(active: map<string, Context>, executor: map<string, Entry>)
    requires AllFit(active, executor)
    ensures Jobs(Surviving(active, executor)) == LiveJobs(ReportsOf(executor), Jobs(active))
  {
    var survivors, reports := Surviving(active, executor), ReportsOf(executor);
    forall j | j in Jobs(survivors) ensures j in LiveJobs(reports, Jobs(active)) {
      var id :| id in survivors && JobOf(survivors[id]) == j;
      assert Fits(id, active[id], executor);
    }
    forall j | j in LiveJobs(reports, Jobs(active)) ensures j in Jobs(survivors) {
      var id :| id in active && JobOf(active[id]) == j;
      assert Fits(id, active[id], executor);
      assert survivors[id] == active[id];
    }
  }

  // ----- the busy survey

  /** The plan or the binding of an execution names the resource `k`. */
  ghost predicate Occupies(c: Context, k: string) {
    || SomeNames(c.plan, k)
    || (k != "" && (TrimSpace(c.binding.resourceID) == k || TrimSpace(c.binding.resourceName) == k))
  }

  /** The plan or the binding of an execution sends the agent `k`. */
  ghost predicate Sends(c: Context, k: string) {
    k != "" && (SomeGivenTo(c.plan, k) || TrimSpace(c.binding.agentID) == k)
  }

  lemma JobIsNamed(c: Context, k: string)
    ensures k in JobOf(c).keys <==> Occupies(c, k)
    ensures k in JobOf(c).agents <==> Sends(c, k)
  {
    PlanKeysAreNamed(c.plan, k);
    PlanAgentsAreNamed(c.plan, k);
    var b := c.binding;
    assert b.agentID in {b.agentID} && b.resourceID in {b.resourceID, b.resourceName};
    assert b.resourceName in {b.resourceID, b.resourceName};
  }

  /**
   The execution uses what the text `v` names: it is the bound resource's id or name, a fleet binding of an assignment
   or one of the four resource parameters of an assignment.
   */
  ghost predicate Uses(c: Context, v: string) {
    || v == c.binding.resourceID || v == c.binding.resourceName
    || (exists x :: 0 <= x < |c.plan| && c.plan[x].runtimeParams != map[] && v in c.plan[x].fleetBindings)
    || (exists x, p ::
          && 0 <= x < |c.plan| && p in c.plan[x].runtimeParams && c.plan[x].runtimeParams[p] == v
          && (p == "resource_id" || p == "resource_name" || p == "resource.id" || p == "resource.name"))
  }

  lemma UsedIsOccupied(c: Context, v: string)
    requires Uses(c, v) && TrimSpace(v) != ""
    ensures Occupies(c, TrimSpace(v))
  {
    if x, p :| 0 <= x < |c.plan| && p in c.plan[x].runtimeParams && c.plan[x].runtimeParams[p] == v
               && (p == "resource_id" || p == "resource_name" || p == "resource.id" || p == "resource.name") {
      assert ByParameter(c.plan[x], TrimSpace(v)) && NamesKey(c.plan[x], TrimSpace(v));
    } else if x :| 0 <= x < |c.plan| && c.plan[x].runtimeParams != map[] && v in c.plan[x].fleetBindings {
      assert NamesKey(c.plan[x], TrimSpace(v));
    }
  }

  lemma NoCommonUse(c: Context, d: Context)
    requires forall k :: !(Occupies(c, k) && Occupies(d, k))
    ensures forall v, w :: Uses(c, v) && Uses(d, w) ==> TrimSpace(v) == "" || TrimSpace(v) != TrimSpace(w)
  {
    forall v, w | Uses(c, v) && Uses(d, w) && TrimSpace(v) != "" ensures TrimSpace(v) != TrimSpace(w) {
      UsedIsOccupied(c, v);
      if TrimSpace(w) != "" { UsedIsOccupied(d, w); }
    }
  }

  lemma NoCommonAgent(c: Context, d: Context)
    requires forall k :: !(Sends(c, k) && Sends(d, k))
    ensures forall x, y :: 0 <= x < |c.plan| && 0 <= y < |d.plan| ==>
              TrimSpace(c.plan[x].agentID) == "" || TrimSpace(c.plan[x].agentID) != TrimSpace(d.plan[y].agentID)
  {
    forall x, y | 0 <= x < |c.plan| && 0 <= y < |d.plan| && TrimSpace(c.plan[x].agentID) != ""
      ensures TrimSpace(c.plan[x].agentID) != TrimSpace(d.plan[y].agentID)
    {
      var v := TrimSpace(c.plan[x].agentID);
      assert Sends(c, v);
      assert v == TrimSpace(d.plan[y].agentID) ==> Sends(d, v);
    }
  }

  /** The busy survey finds exactly what pending and running executions occupy. */
  lemma BusyIsNamed(active: map<string, Context>, executor: map<string, Entry>, k: string)
    requires AllFit(active, executor)
    ensures k in BusyKeys(ReportsOf(executor), Jobs(active)) <==>
              exists id ::
                id in active && Occupies(active[id], k)
                && (executor[id].status == Executor.ExecPending || executor[id].status == Executor.ExecRunning)
    ensures k in BusyAgents(ReportsOf(executor), Jobs(active)) <==>
              exists id ::
                id in active && Sends(active[id], k)
                && (executor[id].status == Executor.ExecPending || executor[id].status == Executor.ExecRunning)
  {
    forall id | id in active
      ensures JobOf(active[id]) in Jobs(active)
      ensures IsLive(ReportsOf(executor), JobOf(active[id]).id) <==>
                executor[id].status == Executor.ExecPending || executor[id].status == Executor.ExecRunning
      ensures k in JobOf(active[id]).keys <==> Occupies(active[id], k)
      ensures k in JobOf(active[id]).agents <==> Sends(active[id], k)
    {
      assert Fits(id, active[id], executor);
      JobIsNamed(active[id], k);
    }
  }

  /** collectBusyAgentsAndResources; the active map is visited in any order. */
  method CollectBusy(active: map<string, Context>, executor: map<string, Entry>)
    returns (busyAgents: set<string>, busyResources: set<string>)
    requires AllFit(active, executor)
    ensures busyAgents == BusyAgents(ReportsOf(executor), Jobs(active))
    ensures busyResources == BusyKeys(ReportsOf(executor), Jobs(active))
    ensures forall k :: k in busyResources <==>
              exists id ::
                id in active && Occupies(active[id], k)
                && (executor[id].status == Executor.ExecPending || executor[id].status == Executor.ExecRunning)
    ensures forall k :: k in busyAgents <==>
              exists id ::
                id in active && Sends(active[id], k)
                && (executor[id].status == Executor.ExecPending || executor[id].status == Executor.ExecRunning)
  {
    busyAgents, busyResources := SurveyBusy(active, executor);
    forall k { BusyIsNamed(active, executor, k); }
  }

  method SurveyBusy(active: map<string, Context>, executor: map<string, Entry>)
    returns (busyAgents: set<string>, busyResources: set<string>)
    requires AllFit(active, executor)
    ensures busyAgents == BusyAgents(ReportsOf(executor), Jobs(active))
    ensures busyResources == BusyKeys(ReportsOf(executor), Jobs(active))
  {
    busyAgents, busyResources := {}, {};
    ghost var reports := ReportsOf(executor);
    var left := active.Keys;
    assert Jobs(map[]) == {};
    assert active - left == map[];
    while left != {}
      invariant left <= active.Keys
      invariant busyAgents == BusyAgents(reports, Jobs(active - left))
      invariant busyResources == BusyKeys(reports, Jobs(active - left))
      decreases left
    {
      var id :| id in left;
      assert Fits(id, active[id], executor);
      assert active - (left - {id}) == (active - left)[id := active[id]];
      AddJob(active - left, active[id]);
      BusyStep(reports, Jobs(active - left), JobOf(active[id]));
      if InFlight(executor[id]) {
        busyAgents, busyResources := OccupyFor(active[id], busyAgents, busyResources);
      }
      left := left - {id};
    }
    assert active - left == active;
  }

  method OccupyFor(c: Context, busyAgents: set<string>, busyResources: set<string>)
    returns (agents: set<string>, resources: set<string>)
    ensures agents == busyAgents + JobOf(c).agents && resources == busyResources + JobOf(c).keys
  {
    agents, resources := MarkBusy(c.plan, busyAgents, busyResources);
    agents := agents + NonBlank({c.binding.agentID});
    resources := resources + NonBlank({c.binding.resourceID, c.binding.resourceName});
  }
}
