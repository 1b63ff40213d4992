/**
 The plan executor's protocol. One goroutine walks the orders of a plan, one goroutine per step runs the steps of an
 order in parallel, and the context may be cancelled at any moment. Every critical section is one atomic action; a
 run is any interleaving of them.
 */
module Executor {
  import opened Planning
  import Schedule

  datatype ExecStatus = ExecPending | ExecRunning | ExecCompleted | ExecFailed | ExecCancelled

  predicate IsTerminal(s: ExecStatus) { s.ExecCompleted? || s.ExecFailed? || s.ExecCancelled? }

  datatype StepRecord = StepRecord(status: StepStatus, error: string)

  /** How a step ended: its final record and what it wrote. It reports an error unless it completed. */
  datatype Ending = Ending(record: StepRecord, writes: State)

  predicate IsEnding(g: Ending) { HasEnded(g.record.status) }

  /** The order of each assignment of the plan. */
  type Orders = seq<nat>

  function MaxOrder(orders: Orders): (m: nat)
    ensures forall i :: 0 <= i < |orders| ==> orders[i] <= m
  {
    if orders == [] then 0
    else
      var m := MaxOrder(orders[..|orders| - 1]);
      if orders[|orders| - 1] > m then orders[|orders| - 1] else m
  }

  function TotalOrders(orders: Orders): nat { MaxOrder(orders) + 1 }

  // ----- the state of an execution

  /** The order-walking goroutine. */
  datatype Phase = Booting | Loading | AtOrder(k: nat) | InGroup(k: nat) | Returned

  /** The goroutine of one step. */
  datatype Worker = Idle | Spawned | Working | Done

  /** `planning` holds what the ended steps have written, `log` the order in which they ended and `endings` how. */
  datatype Execution = Execution(
    status: ExecStatus, phase: Phase, contextCancelled: bool, workers: seq<Worker>, steps: seq<StepRecord>,
    planning: State, log: seq<nat>, endings: map<nat, Ending>)

  function Initial(n: nat): Execution {
    Execution(ExecPending, Booting, false, seq(n, _ => Idle), seq(n, _ => StepRecord(Pending, "")), map[], [], map[])
  }

  datatype Action =
    | Boot | LoadFails | Loaded | SeeCancel | SkipOrder | EnterGroup
    | StepBegins(i: nat) | StepEnds(i: nat, ending: Ending)
    | GroupEnds | Finish | CancelContext

  predicate Sized(orders: Orders, e: Execution) {
    |e.workers| == |orders| && |e.steps| == |orders|
  }

  predicate HasOrder(orders: Orders, k: nat) {
    exists i :: 0 <= i < |orders| && orders[i] == k
  }

  predicate GroupDone(orders: Orders, e: Execution, k: nat)
    requires Sized(orders, e)
  {
    forall i :: 0 <= i < |orders| && orders[i] == k ==> e.workers[i].Done?
  }

  predicate GroupFailed(orders: Orders, e: Execution, k: nat)
    requires Sized(orders, e)
  {
    exists i :: 0 <= i < |orders| && orders[i] == k && !e.steps[i].status.Completed?
  }

  /** The cancellation test at the top of the loop and the work after it are separate moments. */
  predicate Enabled(orders: Orders, e: Execution, a: Action) {
    Sized(orders, e) &&
    match a
    case Boot => e.phase.Booting?
    case LoadFails => e.phase.Loading?
    case Loaded => e.phase.Loading?
    case SeeCancel => e.phase.AtOrder? && e.phase.k < TotalOrders(orders) && e.contextCancelled
    case SkipOrder => e.phase.AtOrder? && e.phase.k < TotalOrders(orders) && !HasOrder(orders, e.phase.k)
    case EnterGroup => e.phase.AtOrder? && e.phase.k < TotalOrders(orders) && HasOrder(orders, e.phase.k)
    case StepBegins(i) => i < |orders| && e.workers[i].Spawned?
    case StepEnds(i, g) => i < |orders| && e.workers[i].Working? && IsEnding(g)
    case GroupEnds => e.phase.InGroup? && GroupDone(orders, e, e.phase.k)
    case Finish => e.phase.AtOrder? && e.phase.k == TotalOrders(orders)
    case CancelContext => true
  }

  function Spawn(orders: Orders, workers: seq<Worker>, k: nat): (r: seq<Worker>)
    requires |workers| == |orders|
  {
    seq(|orders|, i requires 0 <= i < |orders| => if orders[i] == k then Spawned else workers[i])
  }

  function Apply(orders: Orders, e: Execution, a: Action): Execution
    requires Enabled(orders, e, a)
  {
    match a
    case Boot => e.(status := ExecRunning, phase := Loading)
    case LoadFails => e.(status := ExecFailed, phase := Returned)
    case Loaded => e.(phase := AtOrder(0))
    case SeeCancel => e.(status := ExecCancelled, phase := Returned)
    case SkipOrder => e.(phase := AtOrder(e.phase.k + 1))
    case EnterGroup => e.(phase := InGroup(e.phase.k), workers := Spawn(orders, e.workers, e.phase.k))
    case StepBegins(i) => e.(workers := e.workers[i := Working], steps := e.steps[i := StepRecord(Running, "")])
    case StepEnds(i, g) =>
      e.(workers := e.workers[i := Done], steps := e.steps[i := g.record],
         planning := e.planning + g.writes, log := e.log + [i], endings := e.endings[i := g])
    case GroupEnds =>
      if e.contextCancelled then e.(status := ExecCancelled, phase := Returned)
      else if GroupFailed(orders, e, e.phase.k) then e.(status := ExecFailed, phase := Returned)
      else e.(phase := AtOrder(e.phase.k + 1))
    case Finish => e.(status := ExecCompleted, phase := Returned)
    case CancelContext => e.(contextCancelled := true)
  }

  ghost predicate IsRun(orders: Orders, states: seq<Execution>, actions: seq<Action>) {
    && |states| == |actions| + 1
    && states[0] == Initial(|orders|)
    && forall t :: 0 <= t < |actions| ==> StepOfRun(orders, states, actions, t)
  }

  ghost predicate StepOfRun(orders: Orders, states: seq<Execution>, actions: seq<Action>, t: int)
    requires |states| == |actions| + 1 && 0 <= t < |actions|
  {
    Enabled(orders, states[t], actions[t]) && states[t + 1] == Apply(orders, states[t], actions[t])
  }

  // ----- the invariant

  /** A step's goroutine and its public record agree. */
  predicate WorkerMatches(w: Worker, s: StepStatus) {
    match w
    case Idle => s.Pending?
    case Spawned => s.Pending?
    case Working => s.Running?
    case Done => HasEnded(s)
  }

  ghost predicate StepsConsistent(orders: Orders, e: Execution) {
    && Sized(orders, e)
    && (forall i :: 0 <= i < |orders| ==> WorkerMatches(e.workers[i], e.steps[i].status))
    && (forall i: nat :: i in e.endings <==> i < |orders| && e.workers[i].Done?)
    && (forall i: nat :: i in e.endings ==> e.endings[i].record == e.steps[i])
  }

  /** Where a step of order `o` stands while the walk is at order `k`, inside the group or before it. */
  predicate StandsRight(o: nat, k: nat, inside: bool, w: Worker, s: StepStatus) {
    if o < k then w.Done? && s.Completed?
    else if o == k && inside then !w.Idle?
    else w.Idle?
  }

  ghost predicate PhaseConsistent(orders: Orders, e: Execution)
    requires Sized(orders, e)
  {
    match e.phase
    case Booting => e.status.ExecPending? && StandAt(orders, e, 0, false)
    case Loading => e.status.ExecRunning? && StandAt(orders, e, 0, false)
    case AtOrder(k) => e.status.ExecRunning? && k <= TotalOrders(orders) && StandAt(orders, e, k, false)
    case InGroup(k) => e.status.ExecRunning? && k < TotalOrders(orders) && StandAt(orders, e, k, true)
    case Returned =>
      && IsTerminal(e.status)
      && (forall i :: 0 <= i < |orders| ==> e.workers[i].Idle? || e.workers[i].Done?)
      && (e.status.ExecCompleted? ==> forall i :: 0 <= i < |orders| ==> e.steps[i].status.Completed?)
  }

  ghost predicate StandAt(orders: Orders, e: Execution, k: nat, inside: bool)
    requires Sized(orders, e)
  {
    forall i :: 0 <= i < |orders| ==> StandsRight(orders[i], k, inside, e.workers[i], e.steps[i].status)
  }

  function StepsOf(orders: Orders, endings: map<nat, Ending>): (r: seq<Schedule.Step>)
    ensures |r| == |orders|
  {
    seq(|orders|, i requires 0 <= i < |orders| =>
      Schedule.Step(orders[i], if i in endings then endings[i].writes else map[]))
  }

  /** The log is one of the schedules the order barrier allows, and `planning` is what it writes. */
  ghost predicate LogConsistent(orders: Orders, e: Execution) {
    && Schedule.InRange(StepsOf(orders, e.endings), e.endings.Keys)
    && Schedule.IsSchedule(StepsOf(orders, e.endings), e.endings.Keys, e.log)
    && e.planning == Schedule.Along(StepsOf(orders, e.endings), e.log)
  }

  ghost predicate Inv(orders: Orders, e: Execution) {
    StepsConsistent(orders, e) && PhaseConsistent(orders, e) && LogConsistent(orders, e)
  }

  lemma InitialInv(orders: Orders)
    ensures Inv(orders, Initial(|orders|))
  {
  }

  lemma StepsOfUpdate(orders: Orders, endings: map<nat, Ending>, i: nat, g: Ending)
    requires i < |orders|
    ensures StepsOf(orders, endings[i := g]) == StepsOf(orders, endings)[i := Schedule.Step(orders[i], g.writes)]
  {
  }

  lemma WorkingStepIsInGroup(orders: Orders, e: Execution, i: nat)
    requires StepsConsistent(orders, e) && PhaseConsistent(orders, e)
    requires i < |orders| && (e.workers[i].Working? || e.workers[i].Spawned?)
    ensures e.phase == InGroup(orders[i]) && i !in e.endings
    ensures forall j :: j in e.endings ==> orders[j] <= orders[i]
  {
    assert e.phase.InGroup? && StandsRight(orders[i], e.phase.k, true, e.workers[i], e.steps[i].status);
    forall j | j in e.endings ensures orders[j] <= orders[i] {
      assert StandsRight(orders[j], e.phase.k, true, e.workers[j], e.steps[j].status);
    }
  }

  lemma StepEndsKeepsLog(orders: Orders, e: Execution, i: nat, g: Ending)
    requires Inv(orders, e) && Enabled(orders, e, StepEnds(i, g))
    ensures LogConsistent(orders, Apply(orders, e, StepEnds(i, g)))
  {
    WorkingStepIsInGroup(orders, e, i);
    StepsOfUpdate(orders, e.endings, i, g);
    LogExtends(orders, e.endings, e.log, i, g);
  }

  lemma LogExtends(orders: Orders, endings: map<nat, Ending>, log: seq<nat>, i: nat, g: Ending)
    requires Schedule.InRange(StepsOf(orders, endings), endings.Keys)
    requires Schedule.IsSchedule(StepsOf(orders, endings), endings.Keys, log)
    requires i < |orders| && i !in endings
    requires forall j :: j in endings ==> j < |orders| && orders[j] <= orders[i]
    ensures Schedule.InRange(StepsOf(orders, endings[i := g]), endings[i := g].Keys)
    ensures Schedule.IsSchedule(StepsOf(orders, endings[i := g]), endings[i := g].Keys, log + [i])
    ensures Schedule.Along(StepsOf(orders, endings[i := g]), log + [i])
            == Schedule.Along(StepsOf(orders, endings), log) + g.writes
  {
    StepsOfUpdate(orders, endings, i, g);
    assert endings[i := g].Keys == endings.Keys + {i};
    Schedule.ScheduleExtends(StepsOf(orders, endings), endings.Keys, log, i, g.writes,
                             StepsOf(orders, endings[i := g]));
  }

  lemma StepEndsKeepsRest(orders: Orders, e: Execution, i: nat, g: Ending)
    requires StepsConsistent(orders, e) && PhaseConsistent(orders, e) && Enabled(orders, e, StepEnds(i, g))
    ensures StepsConsistent(orders, Apply(orders, e, StepEnds(i, g)))
    ensures PhaseConsistent(orders, Apply(orders, e, StepEnds(i, g)))
  {
    assert WorkerMatches(e.workers[i], e.steps[i].status);
  }

  lemma StepBeginsKeepsInv(orders: Orders, e: Execution, i: nat)
    requires Inv(orders, e) && Enabled(orders, e, StepBegins(i))
    ensures Inv(orders, Apply(orders, e, StepBegins(i)))
  {
    assert WorkerMatches(e.workers[i], e.steps[i].status);
  }

  lemma EnterGroupKeepsInv(orders: Orders, e: Execution)
    requires Inv(orders, e) && Enabled(orders, e, EnterGroup)
    ensures Inv(orders, Apply(orders, e, EnterGroup))
  {
    var e' := Apply(orders, e, EnterGroup);
    forall i | 0 <= i < |orders|
      ensures WorkerMatches(e'.workers[i], e'.steps[i].status)
      ensures e'.workers[i].Done? <==> e.workers[i].Done?
      ensures StandsRight(orders[i], e.phase.k, true, e'.workers[i], e'.steps[i].status)
    {
      assert StandsRight(orders[i], e.phase.k, false, e.workers[i], e.steps[i].status);
      assert WorkerMatches(e.workers[i], e.steps[i].status);
    }
    assert StepsConsistent(orders, e');
  }

  lemma GroupEndsKeepsInv(orders: Orders, e: Execution)
    requires Inv(orders, e) && Enabled(orders, e, GroupEnds)
    ensures Inv(orders, Apply(orders, e, GroupEnds))
  {
    var e' := Apply(orders, e, GroupEnds);
    assert StepsConsistent(orders, e');
    forall i | 0 <= i < |orders|
      ensures e.workers[i].Idle? || e.workers[i].Done?
      ensures !GroupFailed(orders, e, e.phase.k) ==>
                StandsRight(orders[i], e.phase.k + 1, false, e.workers[i], e.steps[i].status)
    {
      assert StandsRight(orders[i], e.phase.k, true, e.workers[i], e.steps[i].status);
    }
  }

  lemma SkipOrderKeepsInv(orders: Orders, e: Execution)
    requires Inv(orders, e) && Enabled(orders, e, SkipOrder)
    ensures Inv(orders, Apply(orders, e, SkipOrder))
  {
    forall i | 0 <= i < |orders|
      ensures StandsRight(orders[i], e.phase.k + 1, false, e.workers[i], e.steps[i].status)
    {
      assert StandsRight(orders[i], e.phase.k, false, e.workers[i], e.steps[i].status);
    }
  }

  lemma FinishKeepsInv(orders: Orders, e: Execution)
    requires Inv(orders, e) && Enabled(orders, e, Finish)
    ensures Inv(orders, Apply(orders, e, Finish))
  {
    forall i | 0 <= i < |orders| ensures e.workers[i].Done? && e.steps[i].status.Completed? {
      assert StandsRight(orders[i], e.phase.k, false, e.workers[i], e.steps[i].status);
    }
  }

  lemma EarlyReturnKeepsInv(orders: Orders, e: Execution, a: Action)
    requires Inv(orders, e) && Enabled(orders, e, a) && (a.SeeCancel? || a.LoadFails?)
    ensures Inv(orders, Apply(orders, e, a))
  {
    forall i | 0 <= i < |orders| ensures e.workers[i].Idle? || e.workers[i].Done? {
      assert StandsRight(orders[i], if a.SeeCancel? then e.phase.k else 0, false, e.workers[i], e.steps[i].status);
    }
  }

  lemma ApplyKeepsInv(orders: Orders, e: Execution, a: Action)
    requires Inv(orders, e) && Enabled(orders, e, a)
    ensures Inv(orders, Apply(orders, e, a))
  {
    match a
    case StepBegins(i) => StepBeginsKeepsInv(orders, e, i);
    case StepEnds(i, g) =>
      StepEndsKeepsLog(orders, e, i, g);
      StepEndsKeepsRest(orders, e, i, g);
    case EnterGroup => EnterGroupKeepsInv(orders, e);
    case GroupEnds => GroupEndsKeepsInv(orders, e);
    case SkipOrder => SkipOrderKeepsInv(orders, e);
    case Finish => FinishKeepsInv(orders, e);
    case SeeCancel => EarlyReturnKeepsInv(orders, e, a);
    case LoadFails => EarlyReturnKeepsInv(orders, e, a);
    case Boot =>
    case Loaded =>
    case CancelContext =>
  }

  lemma {:induction false} RunKeepsInv(orders: Orders, states: seq<Execution>, actions: seq<Action>, t: nat)
    requires IsRun(orders, states, actions) && t < |states|
    ensures Inv(orders, states[t])
  {
    if t == 0 {
      InitialInv(orders);
    } else {
      RunKeepsInv(orders, states, actions, t - 1);
      assert StepOfRun(orders, states, actions, t - 1);
      ApplyKeepsInv(orders, states[t - 1], actions[t - 1]);
    }
  }

  // ----- what every run guarantees

  /** The barrier: when a step starts, every step of a lower order has completed. */
  lemma StepsStartAfterLowerOrders(
    orders: Orders, states: seq<Execution>, actions: seq<Action>, t: nat, i: nat, j: nat)
    requires IsRun(orders, states, actions) && t < |actions|
    requires actions[t] == StepBegins(i)
    requires j < |orders| && i < |orders| && orders[j] < orders[i]
    ensures j < |states[t].steps| && states[t].steps[j].status.Completed?
  {
    RunKeepsInv(orders, states, actions, t);
    assert StepOfRun(orders, states, actions, t);
    var e := states[t];
    WorkingStepIsInGroup(orders, e, i);
    assert StandsRight(orders[j], e.phase.k, true, e.workers[j], e.steps[j].status);
  }

  /** Once the execution is terminal no step runs, and a completed execution has completed every step. */
  lemma TerminalExecutionIsQuiet(orders: Orders, states: seq<Execution>, actions: seq<Action>, t: nat)
    requires IsRun(orders, states, actions) && t < |states| && IsTerminal(states[t].status)
    ensures |states[t].steps| == |orders|
    ensures forall i :: 0 <= i < |orders| ==> !states[t].steps[i].status.Running?
    ensures states[t].status.ExecCompleted? ==> forall i :: 0 <= i < |orders| ==> states[t].steps[i].status.Completed?
  {
    RunKeepsInv(orders, states, actions, t);
    var e := states[t];
    forall i | 0 <= i < |orders| ensures !e.steps[i].status.Running? {
      assert WorkerMatches(e.workers[i], e.steps[i].status);
    }
  }

  lemma TerminalAllowsOnlyCancel(orders: Orders, e: Execution, a: Action)
    requires Inv(orders, e) && IsTerminal(e.status) && Enabled(orders, e, a)
    ensures a.CancelContext?
  {
  }

  /** A terminal execution changes no more: status, step records and written variables stay for ever. */
  lemma {:induction false} TerminalIsFinal(
    orders: Orders, states: seq<Execution>, actions: seq<Action>, t: nat, u: nat)
    requires IsRun(orders, states, actions) && t <= u < |states| && IsTerminal(states[t].status)
    ensures states[u] == states[t].(contextCancelled := states[u].contextCancelled)
  {
    if t < u {
      TerminalIsFinal(orders, states, actions, t, u - 1);
      RunKeepsInv(orders, states, actions, u - 1);
      assert StepOfRun(orders, states, actions, u - 1);
      TerminalAllowsOnlyCancel(orders, states[u - 1], actions[u - 1]);
    }
  }

  // ----- runs as sequences of actions

  /** The actions lead from `e` to `f`. */
  ghost predicate Leads(orders: Orders, e: Execution, actions: seq<Action>, f: Execution)
    decreases |actions|
  {
    if actions == [] then f == e
    else Enabled(orders, e, actions[0]) && Leads(orders, Apply(orders, e, actions[0]), actions[1..], f)
  }

  lemma {:induction false} LeadsOneMore(orders: Orders, e: Execution, actions: seq<Action>, f: Execution, a: Action)
    requires Leads(orders, e, actions, f) && Enabled(orders, f, a)
    ensures Leads(orders, e, actions + [a], Apply(orders, f, a))
    decreases |actions|
  {
    var all := actions + [a];
    if actions == [] {
      assert all[1..] == [];
    } else {
      LeadsOneMore(orders, Apply(orders, e, actions[0]), actions[1..], f, a);
      assert all[1..] == actions[1..] + [a];
    }
  }

  lemma {:induction false} LeadsKeepsInv(orders: Orders, e: Execution, actions: seq<Action>, f: Execution)
    requires Inv(orders, e) && Leads(orders, e, actions, f)
    ensures Inv(orders, f)
    decreases |actions|
  {
    if actions != [] {
      ApplyKeepsInv(orders, e, actions[0]);
      LeadsKeepsInv(orders, Apply(orders, e, actions[0]), actions[1..], f);
    }
  }

  /** The states along the way. */
  lemma {:induction false} StatesAlong(orders: Orders, e: Execution, actions: seq<Action>, f: Execution)
    returns (states: seq<Execution>)
    requires Leads(orders, e, actions, f)
    ensures |states| == |actions| + 1 && states[0] == e && states[|actions|] == f
    ensures forall t :: 0 <= t < |actions| ==> StepOfRun(orders, states, actions, t)
    decreases |actions|
  {
    if actions == [] {
      states := [e];
    } else {
      var rest := StatesAlong(orders, Apply(orders, e, actions[0]), actions[1..], f);
      states := [e] + rest;
      forall t | 0 <= t < |actions| ensures StepOfRun(orders, states, actions, t) {
        if t > 0 { assert StepOfRun(orders, rest, actions[1..], t - 1); }
      }
    }
  }

  /** A step that has started finds every step of a lower order completed, at the start and ever after. */
  ghost predicate Barrier(orders: Orders, e: Execution)
    requires Sized(orders, e)
  {
    forall i, j :: 0 <= i < |orders| && 0 <= j < |orders| && orders[j] < orders[i] && !e.steps[i].status.Pending? ==>
      e.steps[j].status.Completed?
  }

  lemma {:induction false} RunKeepsBarrier(orders: Orders, states: seq<Execution>, actions: seq<Action>, t: nat)
    requires IsRun(orders, states, actions) && t < |states|
    ensures Sized(orders, states[t]) && Barrier(orders, states[t])
  {
    if t > 0 {
      RunKeepsBarrier(orders, states, actions, t - 1);
      RunKeepsInv(orders, states, actions, t - 1);
      assert StepOfRun(orders, states, actions, t - 1);
      ApplyKeepsBarrier(orders, states[t - 1], actions[t - 1]);
    }
  }

  lemma LowerOrdersAreDone(orders: Orders, e: Execution, i: nat)
    requires Inv(orders, e) && Enabled(orders, e, StepBegins(i))
    ensures forall j :: 0 <= j < |orders| && orders[j] < orders[i] ==> e.steps[j].status.Completed?
  {
    WorkingStepIsInGroup(orders, e, i);
    forall j | 0 <= j < |orders| && orders[j] < orders[i] ensures e.steps[j].status.Completed? {
      assert StandsRight(orders[j], e.phase.k, true, e.workers[j], e.steps[j].status);
    }
  }

  /** A step that is not completed may change if it was started before or if all lower orders are completed. */
  lemma BarrierAllows(orders: Orders, e: Execution, e': Execution, i: nat)
    requires Sized(orders, e) && Sized(orders, e') && Barrier(orders, e) && i < |orders|
    requires e'.steps == e.steps[i := e'.steps[i]] && !e.steps[i].status.Completed?
    requires !e.steps[i].status.Pending?
             || forall j :: 0 <= j < |orders| && orders[j] < orders[i] ==> e.steps[j].status.Completed?
    ensures Barrier(orders, e')
  {
  }

  lemma ApplyKeepsBarrier(orders: Orders, e: Execution, a: Action)
    requires Inv(orders, e) && Barrier(orders, e) && Enabled(orders, e, a)
    ensures Sized(orders, Apply(orders, e, a)) && Barrier(orders, Apply(orders, e, a))
  {
    match a
    case StepBegins(i) =>
      LowerOrdersAreDone(orders, e, i);
      assert WorkerMatches(e.workers[i], e.steps[i].status);
      BarrierAllows(orders, e, Apply(orders, e, a), i);
    case StepEnds(i, g) =>
      assert WorkerMatches(e.workers[i], e.steps[i].status);
      BarrierAllows(orders, e, Apply(orders, e, a), i);
    case _ =>
  }
}
