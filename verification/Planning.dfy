/** The planner's vocabulary shared by every component. */
module Planning {

  type State = map<string, string>

  lemma MergeAssociates(a: State, b: State, c: State)
    ensures (a + b) + c == a + (b + c)
  {
  }

  lemma MergeUpdate(a: State, b: State, k: string, v: string)
    ensures (a + b)[k := v] == a + b[k := v]
  {
  }

  /** A list of writes in sequence, later ones overriding. */
  function Accumulate(ws: seq<State>): State {
    if ws == [] then map[] else Accumulate(ws[..|ws| - 1]) + ws[|ws| - 1]
  }

  lemma AccumulateStep(ws: seq<State>, n: nat)
    requires n < |ws|
    ensures Accumulate(ws[..n + 1]) == Accumulate(ws[..n]) + ws[n]
  {
    assert ws[..n + 1][..n] == ws[..n];
  }

  lemma {:induction false} AccumulateCons(w: State, ws: seq<State>)
    ensures Accumulate([w] + ws) == w + Accumulate(ws)
  {
    if ws == [] {
      assert [w] + [] == [w] && [w][..0] == [];
      assert map[] + w == w && w + map[] == w;
    } else {
      AccumulateCons(w, ws[..|ws| - 1]);
      AccumulateLast([w] + ws, [w] + ws[..|ws| - 1], ws[|ws| - 1]);
      AccumulateLast(ws, ws[..|ws| - 1], ws[|ws| - 1]);
      MergeAssociates(w, Accumulate(ws[..|ws| - 1]), ws[|ws| - 1]);
    }
  }

  lemma AccumulateLast(ws: seq<State>, front: seq<State>, last: State)
    requires ws == front + [last]
    ensures Accumulate(ws) == Accumulate(front) + last
  {
    assert ws[..|ws| - 1] == front;
  }

  datatype PlanningEffect = PlanningEffect(variable: string, value: string)

  datatype AgentInfo = AgentInfo(id: string, name: string)

  datatype ResourceInfo = ResourceInfo(id: string, name: string, kind: string, parentID: string)

  /**
   One task of a plan, given to one agent. Tasks of equal `order` run in parallel. `fleetBindings` are the values of
   the JSON object among the runtime parameters that names the bound resources; empty when absent or malformed.
   */
  datatype TaskAssignment = TaskAssignment(
    taskID: string,
    agentID: string,
    order: nat,
    runtimeParams: State,
    fleetBindings: set<string>,
    resultStates: seq<PlanningEffect>,
    warningResultStates: seq<PlanningEffect>,
    errorResultStates: seq<PlanningEffect>,
    warningMessageVariable: string,
    errorMessageVariable: string)

  type Plan = seq<TaskAssignment>

  datatype StepStatus = Pending | Running | Completed | Failed | Cancelled

  predicate HasEnded(s: StepStatus) {
    s.Completed? || s.Failed? || s.Cancelled?
  }

  /** What a step's entry in an execution snapshot says. */
  datatype StepSnapshot = StepSnapshot(taskID: string, status: StepStatus, error: string)
}
