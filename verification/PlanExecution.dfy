/** The execution object of the plan executor, its critical sections, and the session's replay of its runs. */
module PlanExecution {
  import opened Text
  import opened Planning
  import opened Effects
  import opened Outcomes
  import opened Executor
  import ParallelGroups
  import Schedule
  import Replay

  function OrdersOf(plan: Plan): (r: Orders)
    ensures |r| == |plan|
  {
    seq(|plan|, i requires 0 <= i < |plan| => plan[i].order)
  }

  // ----- grouping the assignments by order

  function OfOrder(plan: Plan, k: nat): Plan {
    if plan == [] then []
    else
      var last := plan[|plan| - 1];
      if last.order == k then OfOrder(plan[..|plan| - 1], k) + [last] else OfOrder(plan[..|plan| - 1], k)
  }

  /** The grouping loops of startPlanExecution. */
  method GroupByOrder(plan: Plan) returns (groups: seq<Plan>)
    ensures |groups| == TotalOrders(OrdersOf(plan))
    ensures forall k :: 0 <= k < |groups| ==> groups[k] == OfOrder(plan, k)
  {
    var byOrder: map<nat, Plan> := map[];
    var i := 0;
    while i < |plan|
      invariant 0 <= i <= |plan|
      invariant forall k :: k in byOrder ==> byOrder[k] == OfOrder(plan[..i], k)
      invariant forall k: nat :: k !in byOrder ==> OfOrder(plan[..i], k) == []
    {
      var a := plan[i];
      assert plan[..i + 1][..i] == plan[..i];
      byOrder := byOrder[a.order := (if a.order in byOrder then byOrder[a.order] else []) + [a]];
      i := i + 1;
    }
    assert plan[..i] == plan;
    var maxOrder := FindMaxOrder(plan);
    groups := [];
    while |groups| <= maxOrder
      invariant |groups| <= maxOrder + 1
      invariant forall k :: 0 <= k < |groups| ==> groups[k] == OfOrder(plan, k)
      decreases maxOrder + 1 - |groups|
    {
      groups := groups + [if |groups| in byOrder then byOrder[|groups|] else []];
    }
  }

  method FindMaxOrder(plan: Plan) returns (maxOrder: nat)
    ensures maxOrder == MaxOrder(OrdersOf(plan))
  {
    maxOrder := 0;
    var i := 0;
    while i < |plan|
      invariant 0 <= i <= |plan|
      invariant maxOrder == MaxOrder(OrdersOf(plan)[..i])
    {
      assert OrdersOf(plan)[..i + 1][..i] == OrdersOf(plan)[..i];
      if plan[i].order > maxOrder { maxOrder := plan[i].order; }
      i := i + 1;
    }
    assert OrdersOf(plan)[..i] == OrdersOf(plan);
  }

  /** The assignments of the orders below `n`, group after group. */
  function GroupedUpTo(plan: Plan, n: nat): Plan {
    if n == 0 then [] else GroupedUpTo(plan, n - 1) + OfOrder(plan, n - 1)
  }

  /** The groups partition the plan. */
  lemma {:induction false} GroupsPartition(plan: Plan, n: nat)
    requires forall i :: 0 <= i < |plan| ==> plan[i].order < n
    ensures multiset(GroupedUpTo(plan, n)) == multiset(plan)
  {
    if plan == [] {
      NoGroups(n);
    } else {
      var front, last := plan[..|plan| - 1], plan[|plan| - 1];
      GroupsPartition(front, n);
      OneMore(front, last, n);
      assert plan == front + [last];
    }
  }

  lemma {:induction false} NoGroups(n: nat)
    ensures GroupedUpTo([], n) == []
  {
    if n > 0 { NoGroups(n - 1); }
  }

  function If(b: bool, a: TaskAssignment): multiset<TaskAssignment> { if b then multiset{a} else multiset{} }

  lemma {:induction false} OneMore(front: Plan, last: TaskAssignment, n: nat)
    ensures multiset(GroupedUpTo(front + [last], n)) == multiset(GroupedUpTo(front, n)) + If(last.order < n, last)
  {
    if n > 0 {
      var k := n - 1;
      OneMore(front, last, k);
      OfOrderAppend(front, last, k);
      GroupedStep(front, k, n);
      GroupedStep(front + [last], k, n);
      Shuffle(multiset(GroupedUpTo(front, k)), If(last.order < k, last),
              multiset(OfOrder(front, k)), If(last.order == k, last));
    }
  }

  lemma Shuffle<T>(a: multiset<T>, x: multiset<T>, b: multiset<T>, y: multiset<T>)
    ensures (a + x) + (b + y) == (a + b) + (x + y)
  {
  }

  lemma GroupedStep(plan: Plan, k: nat, n: nat)
    requires n == k + 1
    ensures multiset(GroupedUpTo(plan, n)) == multiset(GroupedUpTo(plan, k)) + multiset(OfOrder(plan, k))
  {
  }

  lemma OfOrderAppend(front: Plan, last: TaskAssignment, k: nat)
    ensures multiset(OfOrder(front + [last], k)) == multiset(OfOrder(front, k)) + If(last.order == k, last)
  {
    assert (front + [last])[..|front|] == front;
  }

  // ----- the critical sections

  /** What a step's end means to the protocol. */
  function EndingOf(a: TaskAssignment, o: StepOutcome, contextCancelled: bool): (g: Ending)
    ensures IsEnding(g) && (g.record.status.Completed? <==> !IsError(o))
  {
    Ending(StepRecord(EndStatus(o, contextCancelled), EndError(o)), Writes(ExecutorEffects(a, o), false))
  }

  /** The order loop's text for a step that reported an error. */
  function Complaint(a: TaskAssignment, o: StepOutcome): (text: string)
    ensures text != ""
  {
    "task " + a.taskID + " failed: "
    + if o.StartFailed? || o.failed then o.errText else "task error: " + Classify(o.message).1
  }

  /** The text is about the task and the way it went wrong. */
  predicate Reports(text: string, a: TaskAssignment, o: StepOutcome) {
    match o
    case StartFailed(errText) => text == "task " + a.taskID + " failed: " + errText
    case Finished(failed, message, errText) =>
      var t := TrimSpace(message);
      if failed then text == "task " + a.taskID + " failed: " + errText
      else Tagged(t, 'e', 'E') && text == "task " + a.taskID + " failed: task error: " + TrimSpace(t[2..])
  }

  lemma ComplaintReports(a: TaskAssignment, o: StepOutcome)
    requires IsError(o)
    ensures Reports(Complaint(a, o), a, o)
  {
    if o.Finished? && !o.failed {
      ClassIsTag(o.message);
      var payload := TrimSpace(TrimSpace(o.message)[2..]);
      assert "task " + a.taskID + " failed: " + ("task error: " + payload)
          == "task " + a.taskID + " failed: task error: " + payload;
    }
  }

  class PlanExecution {
    const plan: Plan
    var status: ExecStatus
    var currentOrder: nat
    var steps: seq<StepRecord>
    var error: string
    var planning: State
    /** The execution's context has been cancelled. */
    var cancelled: bool
    /** How often the loop has reached a moment at which the context may have been cancelled. */
    var moment: nat
    /** Where the goroutines stand, and the run that led there. */
    ghost var view: Execution
    ghost var actions: seq<Action>

    ghost predicate Followed()
      reads this
    {
      Leads(OrdersOf(plan), Initial(|plan|), actions, view)
    }

    /** The fields are those of a protocol state that a run from the initial state leads to. */
    ghost predicate Valid()
      reads this
    {
      && Followed() && Sized(OrdersOf(plan), view)
      && status == view.status && steps == view.steps && planning == view.planning && cancelled == view.contextCancelled
    }

    ghost predicate May(a: Action)
      reads this
    {
      Valid() && Enabled(OrdersOf(plan), view, a)
    }

    twostate predicate Did(a: Action)
      reads this
    {
      && old(May(a)) && Valid() && view == Apply(OrdersOf(plan), old(view), a) && actions == old(actions) + [a]
      && moment == old(moment)
    }

    constructor (plan: Plan)
      ensures Valid() && this.plan == plan && view == Initial(|plan|) && moment == 0
    {
      this.plan := plan;
      moment := 0;
      status, currentOrder, error, planning, cancelled := ExecPending, 0, "", map[], false;
      steps := seq(|plan|, _ => StepRecord(Pending, ""));
      view, actions := Initial(|plan|), [];
    }

    ghost method Follow(a: Action)
      requires Followed() && Enabled(OrdersOf(plan), view, a)
      modifies this`view, this`actions
      ensures Followed() && view == Apply(OrdersOf(plan), old(view), a) && actions == old(actions) + [a]
    {
      LeadsOneMore(OrdersOf(plan), Initial(|plan|), actions, view, a);
      view, actions := Apply(OrdersOf(plan), view, a), actions + [a];
    }

    method MarkRunning()
      requires May(Boot)
      modifies this
      ensures Did(Boot)
    {
      status := ExecRunning;
      Follow(Boot);
    }

    /** The behaviour trees and the planning context are there: the order loop begins. */
    method FinishLoading()
      requires May(Loaded)
      modifies this
      ensures Did(Loaded)
    {
      Follow(Loaded);
    }

    /** failExecution before the order loop. */
    method FailLoading(message: string)
      requires May(LoadFails)
      modifies this
      ensures Did(LoadFails) && status.ExecFailed? && error == message
    {
      status, error := ExecFailed, message;
      Follow(LoadFails);
    }

    /** CancelExecution: the context is cancelled at any moment. */
    method CancelContext()
      requires Valid()
      modifies this
      ensures Did(Action.CancelContext)
    {
      cancelled := true;
      Follow(Action.CancelContext);
    }

    /** An order without assignments. */
    method SkipOrder()
      requires May(Action.SkipOrder)
      modifies this
      ensures Did(Action.SkipOrder)
    {
      Follow(Action.SkipOrder);
    }

    /** The parallel dispatch of an order's group; the step goroutines run from here on. */
    method EnterOrder(order: nat)
      requires May(EnterGroup) && view.phase == AtOrder(order)
      modifies this
      ensures Did(EnterGroup) && currentOrder == order
    {
      currentOrder := order;
      Follow(EnterGroup);
    }

    method BeginStep(i: nat)
      requires May(StepBegins(i))
      modifies this
      ensures Did(StepBegins(i)) && steps == old(steps)[i := StepRecord(Running, "")]
    {
      steps := steps[i := StepRecord(Running, "")];
      Follow(StepBegins(i));
    }

    /** The scheduler refused the start: no planning effects. */
    method FailStart(i: nat, errText: string)
      requires Valid() && i < |plan| && view.workers[i].Working?
      modifies this
      ensures Did(StepEnds(i, EndingOf(plan[i], StartFailed(errText), old(cancelled))))
      ensures steps == old(steps)[i := StepRecord(Failed, errText)] && planning == old(planning)
    {
      steps := steps[i := StepRecord(Failed, errText)];
      assert planning + map[] == planning;
      Follow(StepEnds(i, EndingOf(plan[i], StartFailed(errText), cancelled)));
    }

    /** The section of dispatchStep that records how a started task ended and applies its effects. */
    method EndStep(i: nat, failed: bool, message: string, errText: string) returns (isError: bool)
      requires Valid() && i < |plan| && view.workers[i].Working?
      modifies this
      ensures Did(StepEnds(i, EndingOf(plan[i], Finished(failed, message, errText), old(cancelled))))
      ensures isError <==> IsError(Finished(failed, message, errText))
      ensures |steps| == |old(steps)| && steps == old(steps)[i := steps[i]]
      ensures Leaves(plan[i], failed, message, errText, old(cancelled), old(planning), planning, steps[i].status,
                     steps[i].error)
    {
      ghost var action := StepEnds(i, EndingOf(plan[i], Finished(failed, message, errText), cancelled));
      var effects, record := SettleStep(plan[i], failed, message, errText, cancelled);
      planning := ApplyPlanningEffects(planning, effects);
      steps := steps[i := record];
      isError := !record.status.Completed?;
      Follow(action);
    }

    /** After a group in which every step completed. */
    method NextOrder()
      requires May(GroupEnds) && !cancelled && !GroupFailed(OrdersOf(plan), view, view.phase.k)
      modifies this
      ensures Did(GroupEnds)
    {
      Follow(GroupEnds);
    }

    method Complete()
      requires May(Finish)
      modifies this
      ensures Did(Finish)
    {
      status := ExecCompleted;
      Follow(Finish);
    }

    /** failExecution after a group that reported an error. */
    method Fail(message: string)
      requires May(GroupEnds) && !cancelled && GroupFailed(OrdersOf(plan), view, view.phase.k)
      modifies this
      ensures Did(GroupEnds) && status.ExecFailed? && error == message
    {
      status, error := ExecFailed, message;
      Follow(GroupEnds);
    }

    /** cancelExecution at the top of the loop or after a group. */
    method Cancel(ghost a: Action)
      requires (a.SeeCancel? || a.GroupEnds?) && May(a) && cancelled
      modifies this
      ensures Did(a) && status.ExecCancelled? && error == "cancelled by user"
    {
      status, error := ExecCancelled, "cancelled by user";
      Follow(a);
    }

    /** Snapshot: the step records in whatever order the status map yields them. */
    method Snapshot(order: seq<nat>) returns (snaps: seq<StepSnapshot>)
      requires Valid() && IsIteration(order, |plan|)
      ensures |snaps| == |order| && forall x :: 0 <= x < |order| ==> snaps[x] == SnapshotOf(plan, view, order[x])
      ensures WellNamed(plan) ==> IsSnapshot(plan, view, snaps)
    {
      snaps := ListSteps(plan, steps, order);
      if WellNamed(plan) { ListingIsSnapshot(plan, view, order, snaps); }
    }

    // ----- the order loop

    /** The context is cancelled exactly when the environment has cancelled it at a moment reached so far. */
    ghost predicate InTime(cancels: nat -> bool)
      reads this
    {
      cancelled <==> exists t: nat :: t < moment && cancels(t)
    }

    /** A moment at which the environment may cancel the context. */
    method MaybeCancel(cancels: nat -> bool)
      requires Valid() && InTime(cancels)
      modifies this
      ensures Valid() && InTime(cancels) && view == old(view).(contextCancelled := cancelled)
      ensures cancelled == (old(cancelled) || cancels(old(moment))) && moment == old(moment) + 1
    {
      if cancels(moment) { CancelContext(); }
      moment := moment + 1;
    }

    /** The goroutine of a step in the group that has not begun. */
    ghost predicate MayBegin(order: nat, i: nat)
      reads this
    {
      Valid() && view.phase == InGroup(order) && Unfinished(plan, steps, order, i) && steps[i].status.Pending?
    }

    /** The goroutine of a running step in the group. */
    ghost predicate MayEnd(order: nat, i: nat)
      reads this
    {
      Valid() && view.phase == InGroup(order) && Unfinished(plan, steps, order, i) && !steps[i].status.Pending?
    }

    /** Step `i` moved, the group goes on, and no other step changed. */
    twostate predicate Moved(order: nat, i: nat)
      requires i < |old(steps)|
      reads this
    {
      && Valid() && view.phase == InGroup(order) && |steps| == |old(steps)|
      && cancelled == old(cancelled) && moment == old(moment)
      && (forall j :: 0 <= j < |steps| && j != i ==> steps[j] == old(steps)[j])
      && Work(steps[i].status) < Work(old(steps)[i].status)
    }

    /** Whatever has ended, ended as the environment's outcomes say. */
    ghost predicate Told(outcomes: seq<StepOutcome>)
      reads this
    {
      |outcomes| == |plan| && AllTold(plan, view.endings, outcomes)
    }

    method Begin(i: nat, order: nat)
      requires MayBegin(order, i)
      modifies this
      ensures Moved(order, i) && !HasEnded(steps[i].status) && view.endings == old(view.endings)
    {
      MayBeginStep(i, order);
      BeginStep(i);
    }

    lemma MayBeginStep(i: nat, order: nat)
      requires MayBegin(order, i)
      ensures May(StepBegins(i))
    {
      Reached(plan, actions, view);
      GroupMember(OrdersOf(plan), view, i);
    }

    /** Recording the outcome of step `i`. */
    method Settle(i: nat, outcome: StepOutcome) returns (isError: bool)
      requires Valid() && i < |plan| && view.workers[i].Working?
      modifies this
      ensures Did(StepEnds(i, EndingOf(plan[i], outcome, old(cancelled)))) && (isError <==> IsError(outcome))
    {
      match outcome
      case StartFailed(errText) =>
        FailStart(i, errText);
        isError := true;
      case Finished(failed, message, errText) =>
        isError := EndStep(i, failed, message, errText);
    }

    method End(i: nat, order: nat, outcome: StepOutcome) returns (isError: bool)
      requires MayEnd(order, i)
      modifies this
      ensures Moved(order, i) && HasEnded(steps[i].status) && (isError <==> !steps[i].status.Completed?)
      ensures isError == IsError(outcome)
      ensures view.endings == old(view.endings)[i := EndingOf(plan[i], outcome, old(cancelled))]
    {
      Reached(plan, actions, view);
      GroupMember(OrdersOf(plan), view, i);
      ghost var ending := EndingOf(plan[i], outcome, cancelled);
      isError := Settle(i, outcome);
      assert steps[i] == ending.record;
    }

    /** One goroutine of the group makes its next move. */
    method Move(i: nat, order: nat, outcomes: seq<StepOutcome>) returns (isError: bool)
      requires Valid() && view.phase == InGroup(order) && Unfinished(plan, steps, order, i) && Told(outcomes)
      modifies this
      ensures Moved(order, i) && (isError <==> Erred(plan, steps, order, i)) && Told(outcomes)
      ensures isError ==> IsError(outcomes[i])
    {
      isError := false;
      if steps[i].status.Pending? {
        Begin(i, order);
      } else {
        ToldOneMore(plan, view.endings, outcomes, i, cancelled);
        isError := End(i, order, outcomes[i]);
      }
    }

    /** The same, after the environment had the chance to cancel. */
    method Turn(i: nat, order: nat, outcomes: seq<StepOutcome>, cancels: nat -> bool) returns (isError: bool)
      requires Valid() && view.phase == InGroup(order) && Unfinished(plan, steps, order, i) && Told(outcomes)
      requires InTime(cancels)
      modifies this
      ensures Told(outcomes) && InTime(cancels) && Valid() && view.phase == InGroup(order)
      ensures TotalWork(steps) < old(TotalWork(steps))
      ensures AnyErred(plan, steps, order) <==> old(AnyErred(plan, steps, order)) || isError
      ensures forall j :: old(Erred(plan, steps, order, j)) ==> Erred(plan, steps, order, j)
      ensures isError ==> Erred(plan, steps, order, i) && IsError(outcomes[i])
    {
      MaybeCancel(cancels);
      ghost var before := steps;
      isError := Move(i, order, outcomes);
      LessWork(before, steps, i);
      ErredSince(plan, before, steps, order, i);
    }

    /** The message is about a step of the order that ended with an error. */
    ghost predicate Blames(message: string, order: nat, outcomes: seq<StepOutcome>)
      requires |outcomes| == |plan|
      reads this
    {
      exists i :: 0 <= i < |plan| && Erred(plan, steps, order, i) && IsError(outcomes[i])
                  && Reports(message, plan[i], outcomes[i])
    }

    /** The goroutines of a group move in any order until all have ended; their errors arrive in any order too. */
    method RunGroup(order: nat, outcomes: seq<StepOutcome>, cancels: nat -> bool) returns (groupError: string)
      requires Valid() && view.phase == InGroup(order) && Told(outcomes) && !AnyErred(plan, steps, order)
      requires InTime(cancels)
      modifies this
      ensures Told(outcomes) && Valid() && view.phase == InGroup(order) && GroupDone(OrdersOf(plan), view, order)
      ensures InTime(cancels)
      ensures groupError != "" <==> GroupFailed(OrdersOf(plan), view, order)
      ensures groupError != "" ==> Blames(groupError, order, outcomes)
    {
      groupError := "";
      while AnyUnfinished(plan, steps, order)
        invariant Told(outcomes) && InTime(cancels) && Valid() && view.phase == InGroup(order)
        invariant groupError != "" <==> AnyErred(plan, steps, order)
        invariant groupError != "" ==> Blames(groupError, order, outcomes)
        decreases TotalWork(steps)
      {
        var i :| 0 <= i < |plan| && Unfinished(plan, steps, order, i);
        var isError := Turn(i, order, outcomes, cancels);
        var arrivesLast: bool := *;
        if isError && (groupError == "" || arrivesLast) {
          groupError := Complaint(plan[i], outcomes[i]);
          ComplaintReports(plan[i], outcomes[i]);
        }
      }
      Reached(plan, actions, view);
      GroupHasEnded(plan, view, order);
    }

    /** How a round of the order loop can end the execution. */
    ghost predicate EndedIn(order: nat, outcomes: seq<StepOutcome>)
      requires |outcomes| == |plan|
      reads this
    {
      || (status == ExecCancelled && cancelled && error == "cancelled by user")
      || (status == ExecFailed && Blames(error, order, outcomes))
    }

    /** One round of the order loop. */
    method Round(order: nat, group: Plan, outcomes: seq<StepOutcome>, cancels: nat -> bool) returns (done: bool)
      requires Valid() && view.phase == AtOrder(order) && order < TotalOrders(OrdersOf(plan))
      requires group == OfOrder(plan, order) && Told(outcomes) && InTime(cancels)
      modifies this
      ensures Told(outcomes) && InTime(cancels) && Valid()
      ensures if done then EndedIn(order, outcomes) else view.phase == AtOrder(order + 1)
      ensures old(cancelled) || cancels(old(moment)) ==>
                done && status == ExecCancelled && steps == old(steps) && planning == old(planning)
    {
      MaybeCancel(cancels);
      if cancelled {
        Cancel(SeeCancel);
        return true;
      }
      MaybeCancel(cancels);
      GroupIsEmptyIff(plan, order);
      if group == [] {
        SkipOrder();
        return false;
      }
      FreshGroup(order);
      EnterOrder(order);
      done := FinishGroup(order, outcomes, cancels);
    }

    /** No step of the order has started when the walk gets there. */
    lemma FreshGroup(order: nat)
      requires Valid() && view.phase == AtOrder(order)
      ensures !AnyErred(plan, steps, order)
    {
      Reached(plan, actions, view);
      forall i | 0 <= i < |plan| && plan[i].order == order ensures steps[i].status.Pending? {
        assert OrdersOf(plan)[i] == order;
        assert StandsRight(OrdersOf(plan)[i], order, false, view.workers[i], view.steps[i].status);
        assert WorkerMatches(view.workers[i], view.steps[i].status);
      }
    }

    method FinishGroup(order: nat, outcomes: seq<StepOutcome>, cancels: nat -> bool) returns (done: bool)
      requires Valid() && view.phase == InGroup(order) && Told(outcomes) && !AnyErred(plan, steps, order)
      requires InTime(cancels)
      modifies this
      ensures Told(outcomes) && InTime(cancels) && Valid()
      ensures if done then EndedIn(order, outcomes) else view.phase == AtOrder(order + 1)
    {
      var groupError := RunGroup(order, outcomes, cancels);
      MaybeCancel(cancels);
      if cancelled {
        Cancel(GroupEnds);
        done := true;
      } else if groupError != "" {
        Fail(groupError);
        done := true;
      } else {
        NextOrder();
        done := false;
      }
    }

    /**
     runPlanExecution: every interleaving of goroutines and cancellation ends in a terminal state. A load error fails
     the execution before any step; without one it is completed if nothing went wrong and nobody cancelled, and only if
     nothing went wrong; it is failed only on account of a step that ended with an error.
     */
    method Run(loadError: string, outcomes: seq<StepOutcome>, cancels: nat -> bool)
      requires Valid() && view == Initial(|plan|) && moment == 0 && |outcomes| == |plan|
      modifies this
      ensures Valid() && IsTerminal(status) && Told(outcomes)
      ensures cancelled <==> exists t: nat :: t < moment && cancels(t)
      ensures loadError != "" ==>
                status == ExecFailed && error == loadError && planning == map[]
                && forall i :: 0 <= i < |plan| ==> steps[i] == StepRecord(Pending, "")
      ensures loadError == "" && !cancelled && (forall i :: 0 <= i < |plan| ==> !IsError(outcomes[i])) ==>
                status == ExecCompleted
      ensures status == ExecCompleted ==>
                loadError == "" && forall i :: 0 <= i < |plan| ==> steps[i].status == Completed && !IsError(outcomes[i])
      ensures status == ExecFailed && loadError == "" ==>
                exists i :: 0 <= i < |plan| && steps[i].status in {StepStatus.Failed, StepStatus.Cancelled}
                            && IsError(outcomes[i]) && Reports(error, plan[i], outcomes[i])
      ensures loadError == "" && cancels(0) ==>
                status == ExecCancelled && planning == map[]
                && forall i :: 0 <= i < |plan| ==> steps[i] == StepRecord(Pending, "")
      ensures status == ExecCancelled ==> cancelled && loadError == "" && error == "cancelled by user"
    {
      MarkRunning();
      MaybeCancel(cancels);
      if loadError != "" {
        FailLoading(loadError);
        return;
      }
      FinishLoading();
      WalkOrders(outcomes, cancels);
      if status == ExecCompleted { AllWentWell(outcomes); }
    }

    /** Nothing has been started or written. */
    ghost predicate Untouched()
      reads this
    {
      planning == map[] && |steps| == |plan| && forall i :: 0 <= i < |plan| ==> steps[i] == StepRecord(Pending, "")
    }

    /** The order loop. */
    method WalkOrders(outcomes: seq<StepOutcome>, cancels: nat -> bool)
      requires Valid() && view.phase == AtOrder(0) && Told(outcomes) && InTime(cancels)
      requires Untouched() && moment == 1
      modifies this
      ensures Valid() && Told(outcomes) && InTime(cancels)
      ensures cancels(0) ==> status == ExecCancelled && Untouched()
      ensures status == ExecCompleted || EndedWell(outcomes)
    {
      var groups := GroupByOrder(plan);
      var order := 0;
      while order < |groups|
        invariant Told(outcomes) && InTime(cancels) && Valid() && 0 <= order <= |groups|
        invariant view.phase == AtOrder(order)
        invariant if order == 0 then Untouched() && moment == 1 else !cancels(0)
      {
        var done := Round(order, groups[order], outcomes, cancels);
        if done { return; }
        order := order + 1;
      }
      Complete();
    }

    /** The execution was cancelled, or it failed on account of a step that ended with an error. */
    ghost predicate EndedWell(outcomes: seq<StepOutcome>)
      requires |outcomes| == |plan|
      reads this
    {
      || (status == ExecCancelled && cancelled && error == "cancelled by user")
      || (status == ExecFailed && exists order :: Blames(error, order, outcomes))
    }

    /** A completed execution has completed every step, and no outcome was an error. */
    lemma AllWentWell(outcomes: seq<StepOutcome>)
      requires Valid() && status == ExecCompleted && Told(outcomes)
      ensures forall i :: 0 <= i < |plan| ==> steps[i].status == Completed && !IsError(outcomes[i])
    {
      Reached(plan, actions, view);
      forall i | 0 <= i < |plan| ensures steps[i].status == Completed && !IsError(outcomes[i]) {
        assert WorkerMatches(view.workers[i], view.steps[i].status);
        assert FromOutcome(plan[i], outcomes[i], view.endings[i]);
      }
    }
  }

  ghost predicate FromOutcome(a: TaskAssignment, o: StepOutcome, g: Ending) { exists c :: g == EndingOf(a, o, c) }

  ghost predicate AllTold(plan: Plan, endings: map<nat, Ending>, outcomes: seq<StepOutcome>)
    requires |outcomes| == |plan|
  {
    forall i :: i in endings ==> i < |plan| && FromOutcome(plan[i], outcomes[i], endings[i])
  }

  lemma ToldOneMore(plan: Plan, endings: map<nat, Ending>, outcomes: seq<StepOutcome>, i: nat, cancelled: bool)
    requires |outcomes| == |plan| && i < |plan| && AllTold(plan, endings, outcomes)
    ensures AllTold(plan, endings[i := EndingOf(plan[i], outcomes[i], cancelled)], outcomes)
  {
    assert FromOutcome(plan[i], outcomes[i], EndingOf(plan[i], outcomes[i], cancelled));
  }

  predicate Unfinished(plan: Plan, steps: seq<StepRecord>, order: nat, i: int) {
    0 <= i < |plan| && i < |steps| && plan[i].order == order && !HasEnded(steps[i].status)
  }

  predicate Erred(plan: Plan, steps: seq<StepRecord>, order: nat, i: int) {
    && 0 <= i < |plan| && i < |steps| && plan[i].order == order
    && HasEnded(steps[i].status) && !steps[i].status.Completed?
  }

  predicate AnyUnfinished(plan: Plan, steps: seq<StepRecord>, order: nat) {
    exists i :: 0 <= i < |plan| && Unfinished(plan, steps, order, i)
  }

  predicate AnyErred(plan: Plan, steps: seq<StepRecord>, order: nat) {
    exists i :: 0 <= i < |plan| && Erred(plan, steps, order, i)
  }

  lemma ErredSince(plan: Plan, before: seq<StepRecord>, after: seq<StepRecord>, order: nat, i: nat)
    requires |before| == |after| && Unfinished(plan, before, order, i)
    requires forall j :: 0 <= j < |before| && j != i ==> after[j] == before[j]
    ensures AnyErred(plan, after, order) <==> AnyErred(plan, before, order) || Erred(plan, after, order, i)
  {
    if AnyErred(plan, before, order) {
      var j :| 0 <= j < |plan| && Erred(plan, before, order, j);
      assert Erred(plan, after, order, j);
    }
    if j :| 0 <= j < |plan| && Erred(plan, after, order, j) {
      assert j == i || Erred(plan, before, order, j);
    }
  }

  lemma Reached(plan: Plan, actions: seq<Action>, e: Execution)
    requires Leads(OrdersOf(plan), Initial(|plan|), actions, e)
    ensures Inv(OrdersOf(plan), e)
  {
    InitialInv(OrdersOf(plan));
    LeadsKeepsInv(OrdersOf(plan), Initial(|plan|), actions, e);
  }

  function Work(s: StepStatus): nat { if s.Pending? then 2 else if s.Running? then 1 else 0 }

  function TotalWork(steps: seq<StepRecord>): nat {
    if steps == [] then 0 else TotalWork(steps[..|steps| - 1]) + Work(steps[|steps| - 1].status)
  }

  lemma {:induction false} LessWork(before: seq<StepRecord>, after: seq<StepRecord>, i: nat)
    requires |before| == |after| && i < |before| && Work(after[i].status) < Work(before[i].status)
    requires forall j :: 0 <= j < |before| && j != i ==> after[j] == before[j]
    ensures TotalWork(after) < TotalWork(before)
  {
    var n := |before| - 1;
    if i < n {
      LessWork(before[..n], after[..n], i);
    } else {
      assert before[..n] == after[..n];
    }
  }

  lemma GroupMember(orders: Orders, e: Execution, i: nat)
    requires Inv(orders, e) && i < |orders| && e.phase == InGroup(orders[i]) && !HasEnded(e.steps[i].status)
    ensures if e.steps[i].status.Pending? then e.workers[i].Spawned? else e.workers[i].Working?
  {
    assert StandsRight(orders[i], e.phase.k, true, e.workers[i], e.steps[i].status);
    assert WorkerMatches(e.workers[i], e.steps[i].status);
  }

  lemma GroupHasEnded(plan: Plan, e: Execution, k: nat)
    requires Inv(OrdersOf(plan), e) && !AnyUnfinished(plan, e.steps, k)
    ensures GroupDone(OrdersOf(plan), e, k) && (GroupFailed(OrdersOf(plan), e, k) <==> AnyErred(plan, e.steps, k))
  {
    var orders := OrdersOf(plan);
    forall i | 0 <= i < |orders| && orders[i] == k
      ensures e.workers[i].Done? && (Erred(plan, e.steps, k, i) <==> !e.steps[i].status.Completed?)
    {
      assert !Unfinished(plan, e.steps, k, i);
      assert WorkerMatches(e.workers[i], e.steps[i].status);
    }
    if AnyErred(plan, e.steps, k) {
      var i :| 0 <= i < |plan| && Erred(plan, e.steps, k, i);
      assert orders[i] == k;
    }
  }

  lemma {:induction false} GroupIsEmptyIff(plan: Plan, k: nat)
    ensures OfOrder(plan, k) == [] <==> !HasOrder(OrdersOf(plan), k)
  {
    if plan != [] {
      var front := plan[..|plan| - 1];
      GroupIsEmptyIff(front, k);
      assert OrdersOf(plan)[..|front|] == OrdersOf(front);
      if HasOrder(OrdersOf(front), k) {
        var i :| 0 <= i < |front| && OrdersOf(front)[i] == k;
        assert OrdersOf(plan)[i] == k;
      }
      if plan[|plan| - 1].order == k { assert OrdersOf(plan)[|plan| - 1] == k; }
      if HasOrder(OrdersOf(plan), k) && plan[|plan| - 1].order != k {
        var i :| 0 <= i < |plan| && OrdersOf(plan)[i] == k;
        assert OrdersOf(front)[i] == k;
      }
    }
  }

  // ----- what holds of every execution object

  /** The barrier: a step that has started has every step of a lower order completed. */
  lemma StartedAfterLowerOrders(x: PlanExecution, i: nat, j: nat)
    requires x.Valid() && i < |x.plan| && j < |x.plan| && x.plan[j].order < x.plan[i].order
    requires !x.steps[i].status.Pending?
    ensures x.steps[j].status.Completed?
  {
    var states := StatesAlong(OrdersOf(x.plan), Initial(|x.plan|), x.actions, x.view);
    RunKeepsBarrier(OrdersOf(x.plan), states, x.actions, |x.actions|);
    assert OrdersOf(x.plan)[j] < OrdersOf(x.plan)[i];
  }

  /** A terminal execution has no running step, and a completed one has completed every step. */
  lemma TerminalObjectIsQuiet(x: PlanExecution)
    requires x.Valid() && IsTerminal(x.status)
    ensures forall i :: 0 <= i < |x.steps| ==> !x.steps[i].status.Running?
    ensures x.status.ExecCompleted? ==> forall i :: 0 <= i < |x.steps| ==> x.steps[i].status.Completed?
  {
    var states := StatesAlong(OrdersOf(x.plan), Initial(|x.plan|), x.actions, x.view);
    TerminalExecutionIsQuiet(OrdersOf(x.plan), states, x.actions, |x.actions|);
  }

  /**
   An execution whose outcomes all replay alike: whatever the interleaving and the cancellations, every snapshot of it
   replays to what it has written, if its steps are listed by order and steps of one order write different variables.
   */
  lemma RunReplaysExactly(x: PlanExecution, outcomes: seq<StepOutcome>, snaps: seq<StepSnapshot>)
    requires x.Valid() && x.Told(outcomes) && WellNamed(x.plan) && IsSnapshot(x.plan, x.view, snaps)
    requires forall i :: 0 <= i < |x.plan| ==> WritesAlike(x.plan[i], outcomes[i])
    requires ListedByOrder(x.plan) && WritesApart(x.plan, outcomes)
    ensures Replay.ReplayWrites(x.plan, Replay.Recorded(snaps)) == x.planning
  {
    forall i | i in x.view.endings && i < |x.plan| ensures IsFaithful(x.plan[i], x.view.endings[i]) {
      var c :| x.view.endings[i] == EndingOf(x.plan[i], outcomes[i], c);
    }
    ToldApart(x.plan, x.view.endings, outcomes);
    Schedule.OrderedDisjointStepsAgree(StepsOf(OrdersOf(x.plan), x.view.endings), x.view.endings.Keys);
    SnapshotReplaysObject(x, snaps);
  }

  predicate ListedByOrder(plan: Plan) { forall i, j :: 0 <= i < j < |plan| ==> plan[i].order <= plan[j].order }

  predicate WritesApart(plan: Plan, outcomes: seq<StepOutcome>)
    requires |outcomes| == |plan|
  {
    forall i, j :: 0 <= i < j < |plan| && plan[i].order == plan[j].order ==>
      Writes(ExecutorEffects(plan[i], outcomes[i]), false).Keys
      !! Writes(ExecutorEffects(plan[j], outcomes[j]), false).Keys
  }

  lemma ToldApart(plan: Plan, endings: map<nat, Ending>, outcomes: seq<StepOutcome>)
    requires |outcomes| == |plan| && AllTold(plan, endings, outcomes) && WritesApart(plan, outcomes)
    ensures var steps := StepsOf(OrdersOf(plan), endings);
            forall i, j :: 0 <= i < j < |steps| && steps[i].order == steps[j].order ==>
              steps[i].writes.Keys !! steps[j].writes.Keys
  {
    var steps := StepsOf(OrdersOf(plan), endings);
    forall i | 0 <= i < |steps|
      ensures steps[i].writes == map[] || steps[i].writes == Writes(ExecutorEffects(plan[i], outcomes[i]), false)
    {
      if i in endings { assert FromOutcome(plan[i], outcomes[i], endings[i]); }
    }
  }

  /** Replaying any snapshot of the object writes exactly what the object has written. */
  lemma SnapshotReplaysObject(x: PlanExecution, snaps: seq<StepSnapshot>)
    requires x.Valid() && WellNamed(x.plan) && IsSnapshot(x.plan, x.view, snaps) && AllFaithful(x.plan, x.view)
    requires Schedule.LastWriteIsListedLast(StepsOf(OrdersOf(x.plan), x.view.endings), x.view.endings.Keys)
    ensures Replay.ReplayWrites(x.plan, Replay.Recorded(snaps)) == x.planning
  {
    var states := StatesAlong(OrdersOf(x.plan), Initial(|x.plan|), x.actions, x.view);
    ReplayRefinesExecution(x.plan, states, x.actions, |x.actions|, snaps);
  }

  /** An order in which a map with `n` entries may be iterated. */
  ghost predicate IsIteration(order: seq<nat>, n: nat) {
    && (forall x :: 0 <= x < |order| ==> order[x] < n)
    && (forall i: nat :: i < n ==> i in order)
    && (forall x, y :: 0 <= x < y < |order| ==> order[x] != order[y])
  }

  method ListSteps(plan: Plan, steps: seq<StepRecord>, order: seq<nat>) returns (snaps: seq<StepSnapshot>)
    requires |steps| == |plan| && forall x :: 0 <= x < |order| ==> order[x] < |plan|
    ensures |snaps| == |order|
    ensures forall x :: 0 <= x < |order| ==>
      snaps[x] == StepSnapshot(plan[order[x]].taskID, steps[order[x]].status, steps[order[x]].error)
  {
    snaps := [];
    for x := 0 to |order|
      invariant |snaps| == x
      invariant forall y :: 0 <= y < x ==>
        snaps[y] == StepSnapshot(plan[order[y]].taskID, steps[order[y]].status, steps[order[y]].error)
    {
      var i := order[x];
      snaps := snaps + [StepSnapshot(plan[i].taskID, steps[i].status, steps[i].error)];
    }
  }

  lemma ListingIsSnapshot(plan: Plan, e: Execution, order: seq<nat>, snaps: seq<StepSnapshot>)
    requires Sized(OrdersOf(plan), e) && WellNamed(plan) && IsIteration(order, |plan|)
    requires |snaps| == |order| && forall x :: 0 <= x < |order| ==> snaps[x] == SnapshotOf(plan, e, order[x])
    ensures IsSnapshot(plan, e, snaps)
  {
    forall x, y | 0 <= x < y < |snaps| ensures TrimSpace(snaps[x].taskID) != TrimSpace(snaps[y].taskID) {
      assert order[x] != order[y];
    }
    forall i | 0 <= i < |plan| ensures SnapshotOf(plan, e, i) in snaps {
      assert i in order;
      var x :| 0 <= x < |order| && order[x] == i;
      assert snaps[x] == SnapshotOf(plan, e, i);
    }
  }

  /** The effects and the final record of a started task. */
  method SettleStep(a: TaskAssignment, failed: bool, message: string, errText: string, contextCancelled: bool)
    returns (effects: seq<PlanningEffect>, record: StepRecord)
    ensures effects == ExecutorEffects(a, Finished(failed, message, errText))
    ensures record == StepRecord(EndStatus(Finished(failed, message, errText), contextCancelled),
                                 EndError(Finished(failed, message, errText)))
    ensures forall before :: Leaves(a, failed, message, errText, contextCancelled, before,
                                    before + Writes(effects, false), record.status, record.error)
  {
    forall before { ExecutionLeaves(a, failed, message, errText, contextCancelled, before); }
    var (kind, payload) := Classify(message);
    var raw := TrimSpace(message);
    if failed {
      var errorMessage := if IsBlank(payload) then raw else payload;
      effects := AppendMessageEffect(a.resultStates + a.errorResultStates, a.errorMessageVariable, errorMessage);
      var status := if contextCancelled || Contains(Lower(errText), "cancel") then Cancelled else Failed;
      record := StepRecord(status, if raw != "" then raw else if errorMessage != "" then errorMessage else errText);
    } else {
      match kind
      case Warning =>
        effects := AppendMessageEffect(a.resultStates + a.warningResultStates, a.warningMessageVariable, payload);
        record := StepRecord(Completed, if raw != "" then raw else payload);
      case Error =>
        effects := AppendMessageEffect(a.resultStates + a.errorResultStates, a.errorMessageVariable, payload);
        record := StepRecord(Failed, if raw != "" then raw else payload);
      case NoClass =>
        effects := a.resultStates;
        record := StepRecord(Completed, "");
    }
  }

  // ----- the session's replay refines every run

  predicate WellNamed(plan: Plan) {
    && (forall i :: 0 <= i < |plan| ==> !IsBlank(plan[i].taskID))
    && (forall i, j :: 0 <= i < j < |plan| ==> TrimSpace(plan[i].taskID) != TrimSpace(plan[j].taskID))
  }

  function SnapshotOf(plan: Plan, e: Execution, i: int): StepSnapshot
    requires Sized(OrdersOf(plan), e) && 0 <= i < |plan|
  {
    StepSnapshot(plan[i].taskID, e.steps[i].status, e.steps[i].error)
  }

  /** A snapshot lists every step once, in any order. */
  ghost predicate IsSnapshot(plan: Plan, e: Execution, snaps: seq<StepSnapshot>) {
    && Sized(OrdersOf(plan), e)
    && Replay.DistinctIds(snaps)
    && (forall s :: s in snaps ==> exists i :: 0 <= i < |plan| && s == SnapshotOf(plan, e, i))
    && (forall i :: 0 <= i < |plan| ==> SnapshotOf(plan, e, i) in snaps)
  }

  /** The step ended in a way whose effects the session recomputes exactly. */
  ghost predicate IsFaithful(a: TaskAssignment, g: Ending) {
    exists o, c :: g == EndingOf(a, o, c) && WritesAlike(a, o)
  }

  ghost predicate AllFaithful(plan: Plan, e: Execution) {
    forall i :: i in e.endings && i < |plan| ==> IsFaithful(plan[i], e.endings[i])
  }

  lemma EndedStepReplay(a: TaskAssignment, g: Ending)
    requires IsFaithful(a, g)
    ensures Writes(ReplayEffects(a, g.record.status, g.record.error), true) == g.writes
  {
    var o, c :| g == EndingOf(a, o, c) && WritesAlike(a, o);
    ReplayWritesMatchIff(a, o, c);
  }

  lemma RecordedStep(plan: Plan, e: Execution, snaps: seq<StepSnapshot>, i: nat)
    requires WellNamed(plan) && IsSnapshot(plan, e, snaps) && i < |plan|
    ensures var id := TrimSpace(plan[i].taskID);
            if HasEnded(e.steps[i].status)
            then id in Replay.Recorded(snaps) && Replay.Recorded(snaps)[id] == SnapshotOf(plan, e, i)
            else id !in Replay.Recorded(snaps)
  {
    var id, s := TrimSpace(plan[i].taskID), SnapshotOf(plan, e, i);
    assert s in snaps;
    var x :| 0 <= x < |snaps| && snaps[x] == s;
    if HasEnded(s.status) { Replay.RecordedAt(snaps, x); } else { NotRecorded(plan, e, snaps, i); }
  }

  lemma NotRecorded(plan: Plan, e: Execution, snaps: seq<StepSnapshot>, i: nat)
    requires WellNamed(plan) && IsSnapshot(plan, e, snaps) && i < |plan|
    requires !HasEnded(e.steps[i].status)
    ensures TrimSpace(plan[i].taskID) !in Replay.Recorded(snaps)
  {
    var id := TrimSpace(plan[i].taskID);
    forall x | 0 <= x < |snaps| ensures TrimSpace(snaps[x].taskID) != id || !HasEnded(snaps[x].status) {
      assert snaps[x] in snaps;
      var j :| 0 <= j < |plan| && snaps[x] == SnapshotOf(plan, e, j);
    }
    if id in Replay.Recorded(snaps) { var x := Replay.RecordedFrom(snaps, id); }
  }

  lemma StepReplay(plan: Plan, e: Execution, snaps: seq<StepSnapshot>, i: nat)
    requires StepsConsistent(OrdersOf(plan), e)
    requires WellNamed(plan) && IsSnapshot(plan, e, snaps) && AllFaithful(plan, e)
    requires i < |plan|
    ensures Replay.StepWrites(plan[i], Replay.Recorded(snaps)) == StepsOf(OrdersOf(plan), e.endings)[i].writes
  {
    RecordedStep(plan, e, snaps, i);
    assert WorkerMatches(e.workers[i], e.steps[i].status);
    var step := StepsOf(OrdersOf(plan), e.endings)[i];
    if i in e.endings {
      EndedStepReplay(plan[i], e.endings[i]);
      assert step.writes == e.endings[i].writes;
    } else {
      assert step.writes == map[];
    }
  }

  lemma ReplayIsListing(plan: Plan, e: Execution, snaps: seq<StepSnapshot>)
    requires StepsConsistent(OrdersOf(plan), e)
    requires WellNamed(plan) && IsSnapshot(plan, e, snaps) && AllFaithful(plan, e)
    ensures Replay.ReplayWrites(plan, Replay.Recorded(snaps))
            == Schedule.Listed(StepsOf(OrdersOf(plan), e.endings), e.endings.Keys, |plan|)
  {
    forall i: nat | i < |plan|
      ensures Replay.StepWrites(plan[i], Replay.Recorded(snaps)) == StepsOf(OrdersOf(plan), e.endings)[i].writes
    {
      StepReplay(plan, e, snaps, i);
    }
    var ws := Replay.WritesByStep(plan, Replay.Recorded(snaps));
    StepwiseListing(ws, StepsOf(OrdersOf(plan), e.endings), e.endings.Keys, |plan|);
    assert ws[..|plan|] == ws;
  }

  lemma {:induction false} StepwiseListing(ws: seq<State>, steps: seq<Schedule.Step>, ended: set<nat>, n: nat)
    requires |steps| == |ws| && n <= |ws|
    requires forall i: nat :: i < |ws| ==> ws[i] == steps[i].writes
    requires forall i: nat :: i < |ws| && i !in ended ==> steps[i].writes == map[]
    ensures Accumulate(ws[..n]) == Schedule.Listed(steps, ended, n)
  {
    if n > 0 {
      StepwiseListing(ws, steps, ended, n - 1);
      ListingStep(steps, ended, n);
      AccumulateStep(ws, n - 1);
    }
  }

  lemma ListingStep(steps: seq<Schedule.Step>, ended: set<nat>, n: nat)
    requires 0 < n <= |steps|
    requires n - 1 !in ended ==> steps[n - 1].writes == map[]
    ensures Schedule.Listed(steps, ended, n) == Schedule.Listed(steps, ended, n - 1) + steps[n - 1].writes
  {
  }

  /**
   In every reachable state of every run, replaying the snapshot writes exactly what the executor has written so
   far, whatever the interleaving and whatever the snapshot's order.
   */
  lemma ReplayRefinesExecution(
    plan: Plan, states: seq<Execution>, actions: seq<Action>, t: nat, snaps: seq<StepSnapshot>)
    requires IsRun(OrdersOf(plan), states, actions) && t < |states|
    requires WellNamed(plan) && IsSnapshot(plan, states[t], snaps) && AllFaithful(plan, states[t])
    requires Schedule.LastWriteIsListedLast(StepsOf(OrdersOf(plan), states[t].endings), states[t].endings.Keys)
    ensures Replay.ReplayWrites(plan, Replay.Recorded(snaps)) == states[t].planning
  {
    RunKeepsInv(OrdersOf(plan), states, actions, t);
    var e := states[t];
    ReplayIsListing(plan, e, snaps);
    Schedule.ScheduleMatchesListing(StepsOf(OrdersOf(plan), e.endings), e.endings.Keys, e.log);
  }

  /**
   The realtime session dispatches plans for a single agent. The planner puts task `i` of such a plan at order `i`, so
   the replay refines every run with no condition on which variables the tasks write.
   */
  lemma SingleAgentPlansReplayExactly(
    plan: Plan, tasks: seq<ParallelGroups.GroupTask>, types: ParallelGroups.Instances,
    boards: seq<ParallelGroups.Board>, agent: string,
    states: seq<Execution>, actions: seq<Action>, t: nat, snaps: seq<StepSnapshot>)
    requires ParallelGroups.IsRun(tasks, types, boards) && |plan| == |tasks|
    requires forall i :: 0 <= i < |tasks| ==> tasks[i].agent == agent
    requires forall i :: 0 <= i < |plan| ==> plan[i].order == ParallelGroups.Given(tasks, types, boards, i)
    requires IsRun(OrdersOf(plan), states, actions) && t < |states|
    requires WellNamed(plan) && IsSnapshot(plan, states[t], snaps) && AllFaithful(plan, states[t])
    ensures Replay.ReplayWrites(plan, Replay.Recorded(snaps)) == states[t].planning
  {
    forall i: nat | i < |plan| ensures plan[i].order == i {
      ParallelGroups.SingleAgentOrders(tasks, types, boards, agent, i);
    }
    Schedule.OrderedDisjointStepsAgree(StepsOf(OrdersOf(plan), states[t].endings), states[t].endings.Keys);
    ReplayRefinesExecution(plan, states, actions, t, snaps);
  }
}
