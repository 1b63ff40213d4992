/** Behaviour trees as stored steps and as a canonical graph of vertices and edges. */
module GraphConverter {
  import opened Text
  import opened Planning
  import opened Dispatch

  // ----- stored steps

  datatype OutcomeTransition = OutcomeTransition(outcome: string, next: string, state: string)

  /** A success transition as decoded JSON: absent, a step id, an object with or without a `next`, something else. */
  datatype OnSuccess = NoSuccess | SuccessTo(target: string) | SuccessObject(next: Option<string>) | SuccessOther

  /** A failure transition as decoded JSON; an object's fields are present only with the right JSON type. */
  datatype OnFailure =
    | NoFailure
    | FailureTo(target: string)
    | FailureObject(retry: Option<real>, backoffMs: Option<real>, fallback: Option<string>, next: Option<string>)
    | FailureOther

  datatype Transition = Transition(
    onSuccess: OnSuccess, onFailure: OnFailure, onTimeout: string, onConfirm: string, onCancel: string,
    onOutcomes: seq<OutcomeTransition>)

  const EMPTY := Transition(NoSuccess, NoFailure, "", "", "", [])

  datatype EndState = EndState(id: string, state: string, caption: string, color: string, outcome: string)

  datatype States = States(pre: seq<string>, during: seq<string>, success: seq<string>, failure: seq<string>)

  const NO_STATES := States([], [], [], [])

  /** The planning fields of a step, copied both ways. */
  datatype PlanningFields = PlanningFields(
    acquire: seq<string>, release: seq<string>, preconditions: seq<Condition>, effects: seq<PlanningEffect>,
    during: seq<PlanningEffect>)

  const NO_PLANNING := PlanningFields([], [], [], [], [])

  /** `params` stands for the parameter record, which is copied field by field. */
  datatype Action = Action(kind: string, server: string, timeoutSec: real, params: Option<string>)

  datatype Wait = Wait(kind: string, message: string, timeoutSec: real)

  datatype Step = Step(
    id: string, name: string, kind: string, jobName: string, terminalType: string, alert: bool, message: string,
    states: States, endStates: seq<EndState>, action: Option<Action>, waitFor: Option<Wait>,
    planning: PlanningFields, transition: Option<Transition>)

  datatype Tree = Tree(entryPoint: Option<string>, steps: seq<Step>)

  predicate IsTerminal(s: Step) { s.kind == "terminal" }

  // ----- the canonical graph

  datatype EdgeKind = OnSuccessEdge | OnFailureEdge | OnTimeoutEdge | OnConfirmEdge | OnCancelEdge | ConditionalEdge

  datatype EdgeConfig = EdgeConfig(retry: int, fallback: string, backoffMs: int, condition: string)

  datatype Edge = Edge(from: string, to: string, kind: EdgeKind, config: Option<EdgeConfig>)

  datatype StepType = ActionStep | WaitStep | NoStepType

  datatype StepData = StepData(
    stepType: StepType, jobName: string, states: Option<States>, endStates: seq<EndState>, action: Option<Action>,
    wait: Option<Wait>, planning: PlanningFields)

  datatype TerminalData = TerminalData(terminalType: string, alert: bool, message: string)

  datatype Vertex = Vertex(
    id: string, name: string, isTerminal: bool, terminal: Option<TerminalData>, step: Option<StepData>)

  datatype Graph = Graph(vertices: seq<Vertex>, edges: seq<Edge>, entryPoint: string)

  // ----- outcome conditions

  /** JSON text for a flat object of strings, and back. */
  datatype Codec = Codec(marshal: State -> string, unmarshal: string -> Option<State>)

  ghost predicate Lawful(c: Codec) {
    forall m :: c.unmarshal(c.marshal(m)) == Some(m) && "{" <= c.marshal(m) && IsTrimmed(c.marshal(m))
  }

  function Payload(outcome: string, state: string): State {
    (if IsBlank(outcome) then map[] else map["outcome" := TrimSpace(outcome)])
    + if IsBlank(state) then map[] else map["state" := TrimSpace(state)]
  }

  /** encodeOutcomeCondition */
  function EncodeOutcome(outcome: string, state: string, c: Codec): string {
    var payload := Payload(outcome, state);
    if payload == map[] then "" else c.marshal(payload)
  }

  function Field(m: State, k: string): string { if k in m then TrimSpace(m[k]) else "" }

  /** decodeOutcomeCondition */
  function DecodeOutcome(raw: string, c: Codec): (string, string) {
    var t := TrimSpace(raw);
    if t == "" || t[0] != '{' then ("", "")
    else match c.unmarshal(t)
      case None => ("", "")
      case Some(m) => (Field(m, "outcome"), Field(m, "state"))
  }

  lemma DecodeEncoded(outcome: string, state: string, c: Codec)
    requires Lawful(c)
    ensures DecodeOutcome(EncodeOutcome(outcome, state, c), c) == (TrimSpace(outcome), TrimSpace(state))
  {
    var payload := Payload(outcome, state);
    assert Field(payload, "outcome") == TrimSpace(outcome) && Field(payload, "state") == TrimSpace(state);
    if payload == map[] {
      assert "outcome" !in payload && "state" !in payload;
    } else {
      assert c.unmarshal(c.marshal(payload)) == Some(payload);
    }
  }

  lemma EncodeTrimmed(outcome: string, state: string, c: Codec)
    ensures EncodeOutcome(TrimSpace(outcome), TrimSpace(state), c) == EncodeOutcome(outcome, state, c)
  {
    assert Payload(TrimSpace(outcome), TrimSpace(state)) == Payload(outcome, state);
  }

  // ----- from a step to edges

  predicate IsSuccessWord(outcome: string) { Lower(TrimSpace(outcome)) in {"success", "succeeded", "done"} }

  /** Some outcome transition that leads anywhere stands for success, or for failure. */
  predicate Leads(outs: seq<OutcomeTransition>, success: bool) {
    exists i :: 0 <= i < |outs| && outs[i].next != "" && IsSuccessWord(outs[i].outcome) == success
  }

  function OutcomeEdge(id: string, o: OutcomeTransition, c: Codec): Edge {
    Edge(id, o.next, ConditionalEdge, Some(EdgeConfig(0, "", 0, EncodeOutcome(o.outcome, o.state, c))))
  }

  function OutcomeEdges(id: string, outs: seq<OutcomeTransition>, c: Codec): seq<Edge> {
    if outs == [] then []
    else
      var last := outs[|outs| - 1];
      OutcomeEdges(id, outs[..|outs| - 1], c) + if last.next == "" then [] else [OutcomeEdge(id, last, c)]
  }

  function SuccessTarget(s: OnSuccess): Option<string> {
    match s
    case SuccessTo(target) => Some(target)
    case SuccessObject(next) => next
    case _ => None
  }

  /** Go's conversion of a float to an int. */
  function Truncated(x: Option<real>): int {
    if x.None? then 0 else if x.value >= 0.0 then x.value.Floor else -((-x.value).Floor)
  }

  /** Target, retries and back-off of a failure transition. */
  datatype Failure = Failure(target: string, config: Option<EdgeConfig>)

  function FailureOf(f: OnFailure): Option<Failure> {
    match f
    case FailureTo(target) => Some(Failure(target, None))
    case FailureObject(retry, backoff, fallback, next) =>
      var config := EdgeConfig(Truncated(retry), if fallback.Some? then fallback.value else "", Truncated(backoff), "");
      if fallback.Some? then Some(Failure(fallback.value, Some(config)))
      else if next.Some? then Some(Failure(next.value, Some(config)))
      else None
    case _ => None
  }

  /** The success transition counts only when no outcome stands for success; likewise for failure. */
  function SuccessEdges(id: string, t: Transition): seq<Edge> {
    var target := SuccessTarget(t.onSuccess);
    if Leads(t.onOutcomes, true) || target.None? then [] else [Edge(id, target.value, OnSuccessEdge, None)]
  }

  function FailureEdges(id: string, t: Transition): seq<Edge> {
    var f := FailureOf(t.onFailure);
    if Leads(t.onOutcomes, false) || f.None? then [] else [Edge(id, f.value.target, OnFailureEdge, f.value.config)]
  }

  function NamedEdge(id: string, target: string, kind: EdgeKind): seq<Edge> {
    if target == "" then [] else [Edge(id, target, kind, None)]
  }

  function PlainEdges(id: string, t: Transition): seq<Edge> {
    NamedEdge(id, t.onTimeout, OnTimeoutEdge) + NamedEdge(id, t.onConfirm, OnConfirmEdge)
    + NamedEdge(id, t.onCancel, OnCancelEdge)
  }

  function TransitionEdges(id: string, t: Transition, c: Codec): seq<Edge> {
    OutcomeEdges(id, t.onOutcomes, c) + SuccessEdges(id, t) + FailureEdges(id, t) + PlainEdges(id, t)
  }

  function EdgesOf(s: Step, c: Codec): seq<Edge> {
    if s.transition.None? then [] else TransitionEdges(s.id, s.transition.value, c)
  }

  /** extractEdges */
  method ExtractEdges(s: Step, c: Codec) returns (edges: seq<Edge>)
    ensures edges == EdgesOf(s, c)
  {
    edges := [];
    if s.transition.None? { return; }
    var t := s.transition.value;
    var outcomes, hasSuccess, hasFailureLike := ExtractOutcomes(s.id, t.onOutcomes, c);
    var success := ExtractSuccess(s.id, t, hasSuccess);
    var failure := ExtractFailure(s.id, t, hasFailureLike);
    var plain := ExtractPlain(s.id, t);
    edges := outcomes + success + failure + plain;
  }

  method ExtractSuccess(id: string, t: Transition, hasSuccess: bool) returns (edges: seq<Edge>)
    requires hasSuccess == Leads(t.onOutcomes, true)
    ensures edges == SuccessEdges(id, t)
  {
    edges := [];
    if !hasSuccess {
      match t.onSuccess
      case SuccessTo(target) => edges := [Edge(id, target, OnSuccessEdge, None)];
      case SuccessObject(Some(next)) => edges := [Edge(id, next, OnSuccessEdge, None)];
      case _ =>
    }
  }

  method ExtractFailure(id: string, t: Transition, hasFailureLike: bool) returns (edges: seq<Edge>)
    requires hasFailureLike == Leads(t.onOutcomes, false)
    ensures edges == FailureEdges(id, t)
  {
    edges := [];
    if hasFailureLike { return; }
    match t.onFailure
    case FailureTo(target) => edges := [Edge(id, target, OnFailureEdge, None)];
    case FailureObject(retry, backoff, fallback, next) =>
      var config := EdgeConfig(Truncated(retry), "", Truncated(backoff), "");
      if fallback.Some? {
        config := config.(fallback := fallback.value);
        edges := [Edge(id, fallback.value, OnFailureEdge, Some(config))];
      } else if next.Some? {
        edges := [Edge(id, next.value, OnFailureEdge, Some(config))];
      }
    case _ =>
  }

  method ExtractPlain(id: string, t: Transition) returns (edges: seq<Edge>)
    ensures edges == PlainEdges(id, t)
  {
    edges := [];
    if t.onTimeout != "" { edges := edges + [Edge(id, t.onTimeout, OnTimeoutEdge, None)]; }
    if t.onConfirm != "" { edges := edges + [Edge(id, t.onConfirm, OnConfirmEdge, None)]; }
    if t.onCancel != "" { edges := edges + [Edge(id, t.onCancel, OnCancelEdge, None)]; }
  }

  method ExtractOutcomes(id: string, outs: seq<OutcomeTransition>, c: Codec)
    returns (edges: seq<Edge>, hasSuccess: bool, hasFailureLike: bool)
    ensures edges == OutcomeEdges(id, outs, c)
    ensures hasSuccess == Leads(outs, true) && hasFailureLike == Leads(outs, false)
  {
    edges, hasSuccess, hasFailureLike := [], false, false;
    var i := 0;
    while i < |outs|
      invariant 0 <= i <= |outs| && edges == OutcomeEdges(id, outs[..i], c)
      invariant hasSuccess == Leads(outs[..i], true) && hasFailureLike == Leads(outs[..i], false)
    {
      assert outs[..i] + [outs[i]] == outs[..i + 1];
      LeadsStep(outs[..i], outs[i]);
      OutcomeEdgesStep(id, outs[..i], outs[i], c);
      var o := outs[i];
      if o.next != "" {
        if IsSuccessWord(o.outcome) { hasSuccess := true; } else { hasFailureLike := true; }
        edges := edges + [OutcomeEdge(id, o, c)];
      }
      i := i + 1;
    }
    assert outs[..i] == outs;
  }

  lemma LeadsStep(outs: seq<OutcomeTransition>, o: OutcomeTransition)
    ensures forall b :: Leads(outs + [o], b) <==> Leads(outs, b) || (o.next != "" && IsSuccessWord(o.outcome) == b)
  {
    var all := outs + [o];
    forall b ensures Leads(all, b) <==> Leads(outs, b) || (o.next != "" && IsSuccessWord(o.outcome) == b) {
      if Leads(outs, b) {
        var i :| 0 <= i < |outs| && outs[i].next != "" && IsSuccessWord(outs[i].outcome) == b;
        assert all[i] == outs[i];
      }
      if o.next != "" && IsSuccessWord(o.outcome) == b { assert all[|outs|] == o; }
    }
  }

  // ----- from edges to a transition

  /** What an on_failure edge becomes: an object when it carries retries or a back-off, else the bare target. */
  function FailureBack(target: string, config: Option<EdgeConfig>): OnFailure {
    if config.Some? && (config.value.retry > 0 || config.value.backoffMs > 0) then
      FailureObject(
        Some(config.value.retry as real),
        if config.value.backoffMs > 0 then Some(config.value.backoffMs as real) else None, Some(target), None)
    else FailureTo(target)
  }

  function OutcomeBack(e: Edge, c: Codec): OutcomeTransition {
    var (outcome, state) := DecodeOutcome(if e.config.Some? then e.config.value.condition else "", c);
    OutcomeTransition(outcome, e.to, state)
  }

  function Absorb(t: Transition, e: Edge, c: Codec): Transition {
    match e.kind
    case OnSuccessEdge => t.(onSuccess := SuccessTo(e.to))
    case OnFailureEdge => t.(onFailure := FailureBack(e.to, e.config))
    case OnTimeoutEdge => t.(onTimeout := e.to)
    case OnConfirmEdge => t.(onConfirm := e.to)
    case OnCancelEdge => t.(onCancel := e.to)
    case ConditionalEdge => t.(onOutcomes := t.onOutcomes + [OutcomeBack(e, c)])
  }

  function AbsorbAll(edges: seq<Edge>, c: Codec): Transition {
    if edges == [] then EMPTY else Absorb(AbsorbAll(edges[..|edges| - 1], c), edges[|edges| - 1], c)
  }

  function TransitionOf(edges: seq<Edge>, c: Codec): Option<Transition> {
    if edges == [] then None else Some(AbsorbAll(edges, c))
  }

  /** CanonicalGraph.GetOutgoingEdges */
  function Outgoing(edges: seq<Edge>, id: string): seq<Edge> { Filter(edges, LeavesFrom(id)) }

  function LeavesFrom(id: string): Edge -> bool { (e: Edge) => e.from == id }

  /** buildTransitionFromEdges */
  method BuildTransition(id: string, all: seq<Edge>, c: Codec) returns (r: Option<Transition>)
    ensures r == TransitionOf(Outgoing(all, id), c)
  {
    var edges := Keep(all, LeavesFrom(id));
    if edges == [] { return None; }
    var t := EMPTY;
    var i := 0;
    while i < |edges|
      invariant 0 <= i <= |edges| && t == AbsorbAll(edges[..i], c)
    {
      assert edges[..i + 1][..i] == edges[..i];
      t := Absorb(t, edges[i], c);
      i := i + 1;
    }
    assert edges[..i] == edges;
    r := Some(t);
  }

  // ----- vertices

  /** stepToVertex */
  function VertexOf(s: Step): Vertex {
    if IsTerminal(s) then
      Vertex(s.id, s.name, true, Some(TerminalData(s.terminalType, s.alert, s.message)), None)
    else
      var kind := if s.waitFor.Some? then WaitStep else if s.action.Some? then ActionStep else NoStepType;
      Vertex(s.id, s.name, false, None,
             Some(StepData(kind, s.jobName, Some(s.states), s.endStates,
                           if kind == ActionStep then s.action else None, s.waitFor, s.planning)))
  }

  /** vertexToStep, given the transition rebuilt for a step vertex. */
  function StepOf(v: Vertex, transition: Option<Transition>): Step {
    if v.isTerminal && v.terminal.Some? then
      var t := v.terminal.value;
      Step(v.id, v.name, "terminal", "", t.terminalType, t.alert, t.message, NO_STATES, [], None, None, NO_PLANNING,
           None)
    else if v.step.Some? then
      var d := v.step.value;
      Step(v.id, v.name, "", d.jobName, "", false, "", if d.states.Some? then d.states.value else NO_STATES,
           d.endStates, d.action, d.wait, d.planning, transition)
    else Step(v.id, v.name, "", "", "", false, "", NO_STATES, [], None, None, NO_PLANNING, None)
  }

  lemma VertexSurvives(s: Step, transition: Option<Transition>)
    ensures VertexOf(StepOf(VertexOf(s), transition)) == VertexOf(s)
  {
  }

  // ----- whole trees

  function Vertices(steps: seq<Step>): (r: seq<Vertex>)
    ensures |r| == |steps|
    ensures forall i :: 0 <= i < |steps| ==> r[i] == VertexOf(steps[i])
  {
    seq(|steps|, i requires 0 <= i < |steps| => VertexOf(steps[i]))
  }

  function AllEdges(steps: seq<Step>, c: Codec): seq<Edge> {
    if steps == [] then [] else AllEdges(steps[..|steps| - 1], c) + EdgesOf(steps[|steps| - 1], c)
  }

  function Ids(steps: seq<Step>): (r: seq<string>)
    ensures |r| == |steps|
    ensures forall i :: 0 <= i < |steps| ==> r[i] == steps[i].id
  {
    seq(|steps|, i requires 0 <= i < |steps| => steps[i].id)
  }

  /** The wanted entry point where there is such a step, else the first step. */
  function EntryAmong(wanted: string, ids: seq<string>): string {
    if ids == [] then wanted else if wanted != "" && wanted in ids then wanted else ids[0]
  }

  function Entry(t: Tree): string {
    EntryAmong(if t.entryPoint.Some? then t.entryPoint.value else "", Ids(t.steps))
  }

  function GraphOf(t: Tree, c: Codec): Graph { Graph(Vertices(t.steps), AllEdges(t.steps, c), Entry(t)) }

  function StepBack(g: Graph, c: Codec, v: Vertex): Step { StepOf(v, TransitionOf(Outgoing(g.edges, v.id), c)) }

  function StepsBack(g: Graph, c: Codec): (r: seq<Step>)
    ensures |r| == |g.vertices|
    ensures forall i :: 0 <= i < |r| ==> r[i] == StepBack(g, c, g.vertices[i])
  {
    seq(|g.vertices|, i requires 0 <= i < |g.vertices| => StepBack(g, c, g.vertices[i]))
  }

  function TreeOf(g: Graph, c: Codec): Tree {
    Tree(if g.entryPoint == "" then None else Some(g.entryPoint), StepsBack(g, c))
  }

  /** FromDBModel, on the parsed steps. */
  method FromDBModel(t: Tree, c: Codec) returns (g: Graph)
    ensures g == GraphOf(t, c)
  {
    var vertices, edges := ReadSteps(t.steps, c);
    var entryPoint := ChooseEntry(t.entryPoint, Ids(t.steps));
    g := Graph(vertices, edges, entryPoint);
  }

  method ReadSteps(steps: seq<Step>, c: Codec) returns (vertices: seq<Vertex>, edges: seq<Edge>)
    ensures vertices == Vertices(steps) && edges == AllEdges(steps, c)
  {
    vertices, edges := [], [];
    var i := 0;
    while i < |steps|
      invariant 0 <= i <= |steps|
      invariant vertices == Vertices(steps[..i]) && edges == AllEdges(steps[..i], c)
    {
      ReadOneMore(steps, i, c);
      vertices := vertices + [VertexOf(steps[i])];
      var more := ExtractEdges(steps[i], c);
      edges := edges + more;
      i := i + 1;
    }
    assert steps[..i] == steps;
  }

  lemma ReadOneMore(steps: seq<Step>, i: nat, c: Codec)
    requires i < |steps|
    ensures Vertices(steps[..i + 1]) == Vertices(steps[..i]) + [VertexOf(steps[i])]
    ensures AllEdges(steps[..i + 1], c) == AllEdges(steps[..i], c) + EdgesOf(steps[i], c)
  {
    assert steps[..i + 1][..i] == steps[..i];
  }

  method ChooseEntry(wanted: Option<string>, ids: seq<string>) returns (entryPoint: string)
    ensures entryPoint == EntryAmong(if wanted.Some? then wanted.value else "", ids)
  {
    entryPoint := "";
    if wanted.Some? && wanted.value != "" { entryPoint := wanted.value; }
    else if |ids| > 0 { entryPoint := ids[0]; }
    if entryPoint != "" && entryPoint !in ids && |ids| > 0 { entryPoint := ids[0]; }
  }

  /** ToDBModel, up to the stored steps. */
  method ToDBModel(g: Graph, c: Codec) returns (t: Tree)
    ensures t == TreeOf(g, c)
  {
    var steps := [];
    var i := 0;
    while i < |g.vertices|
      invariant 0 <= i <= |g.vertices| && |steps| == i
      invariant forall k :: 0 <= k < i ==> steps[k] == StepBack(g, c, g.vertices[k])
    {
      var transition := BuildTransition(g.vertices[i].id, g.edges, c);
      steps := steps + [StepOf(g.vertices[i], transition)];
      i := i + 1;
    }
    t := Tree(if g.entryPoint == "" then None else Some(g.entryPoint), steps);
  }

  // ----- the round trip of one transition

  /** The outcome transitions that lead anywhere, trimmed. */
  function KeptOutcomes(outs: seq<OutcomeTransition>): seq<OutcomeTransition> {
    if outs == [] then []
    else
      var last := outs[|outs| - 1];
      KeptOutcomes(outs[..|outs| - 1])
      + if last.next == "" then []
        else [OutcomeTransition(TrimSpace(last.outcome), last.next, TrimSpace(last.state))]
  }

  /** What a transition looks like after one pass through the graph. */
  function Normal(t: Transition): Transition {
    var success, failure := SuccessTarget(t.onSuccess), FailureOf(t.onFailure);
    Transition(
      if Leads(t.onOutcomes, true) || success.None? then NoSuccess else SuccessTo(success.value),
      if Leads(t.onOutcomes, false) || failure.None? then NoFailure
      else FailureBack(failure.value.target, failure.value.config),
      t.onTimeout, t.onConfirm, t.onCancel, KeptOutcomes(t.onOutcomes))
  }

  lemma AbsorbLast(edges: seq<Edge>, e: Edge, c: Codec)
    ensures AbsorbAll(edges + [e], c) == Absorb(AbsorbAll(edges, c), e, c)
  {
    assert (edges + [e])[..|edges|] == edges;
  }

  lemma AbsorbFew(edges: seq<Edge>, few: seq<Edge>, c: Codec)
    requires |few| <= 1
    ensures AbsorbAll(edges + few, c)
            == if few == [] then AbsorbAll(edges, c) else Absorb(AbsorbAll(edges, c), few[0], c)
  {
    if few == [] {
      assert edges + few == edges;
    } else {
      assert few == [few[0]];
      AbsorbLast(edges, few[0], c);
    }
  }

  lemma {:induction false} OutcomesComeBack(id: string, outs: seq<OutcomeTransition>, c: Codec)
    requires Lawful(c)
    ensures AbsorbAll(OutcomeEdges(id, outs, c), c) == EMPTY.(onOutcomes := KeptOutcomes(outs))
  {
    if outs != [] {
      var front, last := outs[..|outs| - 1], outs[|outs| - 1];
      OutcomesComeBack(id, front, c);
      if last.next == "" {
        assert OutcomeEdges(id, outs, c) == OutcomeEdges(id, front, c);
        assert KeptOutcomes(outs) == KeptOutcomes(front);
      } else {
        AbsorbLast(OutcomeEdges(id, front, c), OutcomeEdge(id, last, c), c);
        DecodeEncoded(last.outcome, last.state, c);
      }
    }
  }

  /** The edges of a transition lead back to its normal form. */
  lemma TransitionComesBack(id: string, t: Transition, c: Codec)
    requires Lawful(c)
    ensures AbsorbAll(TransitionEdges(id, t, c), c) == Normal(t)
  {
    var a := OutcomeEdges(id, t.onOutcomes, c);
    var b := a + SuccessEdges(id, t);
    var d := b + FailureEdges(id, t);
    OutcomesComeBack(id, t.onOutcomes, c);
    AbsorbFew(a, SuccessEdges(id, t), c);
    AbsorbFew(b, FailureEdges(id, t), c);
    PlainComesBack(id, t, d, AbsorbAll(d, c), c);
    assert TransitionEdges(id, t, c) == d + PlainEdges(id, t);
  }

  /** A transition with one named target set, when there is one. */
  function WithNamed(t: Transition, target: string, kind: EdgeKind): Transition {
    if target == "" then t
    else match kind
      case OnTimeoutEdge => t.(onTimeout := target)
      case OnConfirmEdge => t.(onConfirm := target)
      case OnCancelEdge => t.(onCancel := target)
      case _ => t
  }

  predicate IsNamed(kind: EdgeKind) { kind.OnTimeoutEdge? || kind.OnConfirmEdge? || kind.OnCancelEdge? }

  lemma NamedComesBack(d: seq<Edge>, base: Transition, id: string, target: string, kind: EdgeKind, c: Codec)
    requires IsNamed(kind) && AbsorbAll(d, c) == base
    ensures AbsorbAll(d + NamedEdge(id, target, kind), c) == WithNamed(base, target, kind)
  {
    AbsorbFew(d, NamedEdge(id, target, kind), c);
  }

  lemma PlainComesBack(id: string, t: Transition, d: seq<Edge>, base: Transition, c: Codec)
    requires AbsorbAll(d, c) == base && base.onTimeout == base.onConfirm == base.onCancel == ""
    ensures AbsorbAll(d + PlainEdges(id, t), c)
            == base.(onTimeout := t.onTimeout, onConfirm := t.onConfirm, onCancel := t.onCancel)
  {
    var x, y, z := NamedEdge(id, t.onTimeout, OnTimeoutEdge), NamedEdge(id, t.onConfirm, OnConfirmEdge),
                   NamedEdge(id, t.onCancel, OnCancelEdge);
    var b := WithNamed(base, t.onTimeout, OnTimeoutEdge);
    ThreeMore(d, x, y, z);
    NamedComesBack(d, base, id, t.onTimeout, OnTimeoutEdge, c);
    NamedComesBack(d + x, b, id, t.onConfirm, OnConfirmEdge, c);
    NamedComesBack(d + x + y, WithNamed(b, t.onConfirm, OnConfirmEdge), id, t.onCancel, OnCancelEdge, c);
  }

  lemma ThreeMore(d: seq<Edge>, x: seq<Edge>, y: seq<Edge>, z: seq<Edge>)
    ensures d + (x + y + z) == d + x + y + z
  {
  }

  function Trimmed(o: OutcomeTransition): OutcomeTransition {
    OutcomeTransition(TrimSpace(o.outcome), o.next, TrimSpace(o.state))
  }

  lemma KeptStep(outs: seq<OutcomeTransition>, o: OutcomeTransition)
    ensures KeptOutcomes(outs + [o]) == KeptOutcomes(outs) + if o.next == "" then [] else [Trimmed(o)]
  {
    assert (outs + [o])[..|outs|] == outs;
  }

  lemma OutcomeEdgesStep(id: string, outs: seq<OutcomeTransition>, o: OutcomeTransition, c: Codec)
    ensures OutcomeEdges(id, outs + [o], c)
            == OutcomeEdges(id, outs, c) + if o.next == "" then [] else [OutcomeEdge(id, o, c)]
  {
    assert (outs + [o])[..|outs|] == outs;
  }

  lemma KeepNone(s: seq<OutcomeTransition>, e: seq<Edge>)
    ensures s + [] == s && e + [] == e
  {
  }

  /** Dropping and trimming outcome transitions changes neither their edges nor what they stand for. */
  ghost predicate SameWhenKept(id: string, outs: seq<OutcomeTransition>, kept: seq<OutcomeTransition>, c: Codec) {
    && kept == KeptOutcomes(outs) && KeptOutcomes(kept) == kept
    && OutcomeEdges(id, kept, c) == OutcomeEdges(id, outs, c)
    && forall b :: Leads(kept, b) <==> Leads(outs, b)
  }

  lemma {:induction false} KeptOutcomesSame(id: string, outs: seq<OutcomeTransition>, c: Codec)
    returns (kept: seq<OutcomeTransition>)
    ensures SameWhenKept(id, outs, kept, c)
  {
    if outs == [] {
      kept := [];
    } else {
      var front, last := outs[..|outs| - 1], outs[|outs| - 1];
      kept := KeptOutcomesSame(id, front, c);
      assert outs == front + [last];
      KeptLast(id, front, kept, last, c);
      kept := kept + if last.next == "" then [] else [Trimmed(last)];
    }
  }

  lemma KeptLast(
    id: string, front: seq<OutcomeTransition>, kept: seq<OutcomeTransition>, last: OutcomeTransition, c: Codec)
    requires SameWhenKept(id, front, kept, c)
    ensures SameWhenKept(id, front + [last], kept + if last.next == "" then [] else [Trimmed(last)], c)
  {
    KeptStep(front, last);
    LeadsStep(front, last);
    OutcomeEdgesStep(id, front, last, c);
    KeepNone(kept, OutcomeEdges(id, front, c));
    if last.next != "" {
      KeptStep(kept, Trimmed(last));
      LeadsStep(kept, Trimmed(last));
      OutcomeEdgesStep(id, kept, Trimmed(last), c);
      EncodeTrimmed(last.outcome, last.state, c);
    }
  }

  /** Retries and back-off of an edge without a config are zero, its condition empty. */
  function Effective(e: Edge): Edge {
    Edge(e.from, e.to, e.kind,
         Some(if e.config.None? then EdgeConfig(0, "", 0, "") else e.config.value.(fallback := "")))
  }

  ghost predicate Same(a: seq<Edge>, b: seq<Edge>) {
    |a| == |b| && forall i :: 0 <= i < |a| ==> Effective(a[i]) == Effective(b[i])
  }

  /** A failure transition whose retries and back-off survive. */
  predicate FailureSurvives(f: Failure) {
    f.config.None? || (f.config.value.backoffMs >= 0 && (f.config.value.retry >= 0 || f.config.value.backoffMs > 0))
  }

  predicate TransitionSurvives(t: Transition) {
    var f := FailureOf(t.onFailure);
    Leads(t.onOutcomes, false) || f.None? || FailureSurvives(f.value)
  }

  function FailureEdge(id: string, f: Failure): Edge { Edge(id, f.target, OnFailureEdge, f.config) }

  lemma FailureComesBack(id: string, f: OnFailure)
    requires FailureOf(f).Some?
    ensures var x := FailureOf(f).value;
            var y := FailureOf(FailureBack(x.target, x.config));
            && y.Some? && FailureBack(y.value.target, y.value.config) == FailureBack(x.target, x.config)
            && (Effective(FailureEdge(id, y.value)) == Effective(FailureEdge(id, x)) <==> FailureSurvives(x))
  {
    var x := FailureOf(f).value;
    if x.config.Some? { assert x.config.value.condition == ""; }
  }

  /** Normalising twice is normalising once. */
  lemma NormalIsNormal(t: Transition, c: Codec)
    ensures Normal(Normal(t)) == Normal(t)
  {
    var kept := KeptOutcomesSame("", t.onOutcomes, c);
    if FailureOf(t.onFailure).Some? { FailureComesBack("", t.onFailure); }
  }

  lemma NormalEdges(id: string, t: Transition, c: Codec)
    ensures |TransitionEdges(id, Normal(t), c)| == |TransitionEdges(id, t, c)|
    ensures Same(TransitionEdges(id, Normal(t), c), TransitionEdges(id, t, c)) <==> TransitionSurvives(t)
  {
    var n := Normal(t);
    var kept := KeptOutcomesSame(id, t.onOutcomes, c);
    var a, p := OutcomeEdges(id, t.onOutcomes, c) + SuccessEdges(id, t), PlainEdges(id, t);
    assert SuccessEdges(id, n) == SuccessEdges(id, t) && PlainEdges(id, n) == p;
    FailureEdgesBack(id, t, c);
    Middle(a, FailureEdges(id, n), FailureEdges(id, t), p);
    assert TransitionEdges(id, n, c) == a + FailureEdges(id, n) + p;
    assert TransitionEdges(id, t, c) == a + FailureEdges(id, t) + p;
  }

  lemma FailureEdgesBack(id: string, t: Transition, c: Codec)
    ensures |FailureEdges(id, Normal(t))| == |FailureEdges(id, t)|
    ensures Same(FailureEdges(id, Normal(t)), FailureEdges(id, t)) <==> TransitionSurvives(t)
  {
    var kept := KeptOutcomesSame(id, t.onOutcomes, c);
    if !Leads(t.onOutcomes, false) && FailureOf(t.onFailure).Some? {
      FailureComesBack(id, t.onFailure);
      var x := FailureOf(t.onFailure).value;
      assert FailureEdges(id, t) == [FailureEdge(id, x)];
      var y := FailureOf(FailureBack(x.target, x.config)).value;
      assert FailureEdges(id, Normal(t)) == [FailureEdge(id, y)];
      SameOne(FailureEdge(id, y), FailureEdge(id, x));
    }
  }

  lemma SameOne(a: Edge, b: Edge)
    ensures Same([a], [b]) <==> Effective(a) == Effective(b)
  {
    assert [a][0] == a && [b][0] == b;
  }

  lemma Middle(a: seq<Edge>, m: seq<Edge>, n: seq<Edge>, p: seq<Edge>)
    requires |m| == |n|
    ensures Same(a + m + p, a + n + p) <==> Same(m, n)
  {
    if Same(m, n) {
    } else {
      var i :| 0 <= i < |m| && Effective(m[i]) != Effective(n[i]);
      assert (a + m + p)[|a| + i] == m[i] && (a + n + p)[|a| + i] == n[i];
    }
  }

  // ----- the round trip of a tree

  ghost predicate UniqueIds(steps: seq<Step>) {
    forall i, j :: 0 <= i < j < |steps| ==> steps[i].id != steps[j].id
  }

  lemma {:induction false} FilterAppend(a: seq<Edge>, b: seq<Edge>, p: Edge -> bool)
    ensures Filter(a + b, p) == Filter(a, p) + Filter(b, p)
  {
    if b == [] {
      assert a + b == a;
    } else {
      assert (a + b)[..|a + b| - 1] == a + b[..|b| - 1];
      FilterAppend(a, b[..|b| - 1], p);
    }
  }

  lemma {:induction false} FilterAll(a: seq<Edge>, p: Edge -> bool, all: bool)
    requires forall i :: 0 <= i < |a| ==> p(a[i]) == all
    ensures Filter(a, p) == if all then a else []
  {
    if a != [] {
      FilterAll(a[..|a| - 1], p, all);
      assert a == a[..|a| - 1] + [a[|a| - 1]];
    }
  }

  lemma {:induction false} OutcomeEdgesStart(id: string, outs: seq<OutcomeTransition>, c: Codec)
    ensures AllFrom(OutcomeEdges(id, outs, c), id)
  {
    if outs != [] { OutcomeEdgesStart(id, outs[..|outs| - 1], c); }
  }

  ghost predicate AllFrom(edges: seq<Edge>, id: string) { forall i :: 0 <= i < |edges| ==> edges[i].from == id }

  lemma AllFromBoth(a: seq<Edge>, b: seq<Edge>, id: string)
    requires AllFrom(a, id) && AllFrom(b, id)
    ensures AllFrom(a + b, id)
  {
  }

  lemma EdgesStartHere(s: Step, c: Codec)
    ensures AllFrom(EdgesOf(s, c), s.id)
  {
    if s.transition.Some? {
      var t := s.transition.value;
      OutcomeEdgesStart(s.id, t.onOutcomes, c);
      AllFromBoth(OutcomeEdges(s.id, t.onOutcomes, c), SuccessEdges(s.id, t), s.id);
      var a := OutcomeEdges(s.id, t.onOutcomes, c) + SuccessEdges(s.id, t);
      AllFromBoth(a, FailureEdges(s.id, t), s.id);
      PlainStart(s.id, t);
      AllFromBoth(a + FailureEdges(s.id, t), PlainEdges(s.id, t), s.id);
    }
  }

  lemma PlainStart(id: string, t: Transition)
    ensures AllFrom(PlainEdges(id, t), id)
  {
  }

  lemma OutgoingAppend(edges: seq<Edge>, more: seq<Edge>, from: string, id: string)
    requires AllFrom(more, from)
    ensures Outgoing(edges + more, id) == Outgoing(edges, id) + if from == id then more else []
  {
    FilterAppend(edges, more, LeavesFrom(id));
    FilterAll(more, LeavesFrom(id), from == id);
  }

  lemma NothingMore(a: seq<Edge>)
    ensures a + [] == a && [] + a == a
  {
  }

  /** With unique ids the edges leaving a step are its own. */
  lemma {:induction false} OutgoingAreOwn(steps: seq<Step>, k: nat, c: Codec)
    requires UniqueIds(steps) && k < |steps|
    ensures Outgoing(AllEdges(steps, c), steps[k].id) == EdgesOf(steps[k], c)
  {
    var front, last := steps[..|steps| - 1], steps[|steps| - 1];
    EdgesStartHere(last, c);
    OutgoingAppend(AllEdges(front, c), EdgesOf(last, c), last.id, steps[k].id);
    NothingMore(EdgesOf(steps[k], c));
    if k < |steps| - 1 { OutgoingAreOwn(front, k, c); } else { NoneLeaves(front, last.id, c); }
  }

  lemma {:induction false} NoneLeaves(steps: seq<Step>, id: string, c: Codec)
    requires forall i :: 0 <= i < |steps| ==> steps[i].id != id
    ensures Outgoing(AllEdges(steps, c), id) == []
  {
    if steps != [] {
      var front, last := steps[..|steps| - 1], steps[|steps| - 1];
      NoneLeaves(front, id, c);
      EdgesStartHere(last, c);
      OutgoingAppend(AllEdges(front, c), EdgesOf(last, c), last.id, id);
    }
  }

  /** A step after one pass through the graph; it does not depend on the other steps. */
  function NormalStep(s: Step, c: Codec): Step { StepOf(VertexOf(s), TransitionOf(EdgesOf(s, c), c)) }

  lemma StepsComeBack(t: Tree, c: Codec)
    requires UniqueIds(t.steps)
    ensures forall k :: 0 <= k < |t.steps| ==> TreeOf(GraphOf(t, c), c).steps[k] == NormalStep(t.steps[k], c)
  {
    forall k | 0 <= k < |t.steps| ensures TreeOf(GraphOf(t, c), c).steps[k] == NormalStep(t.steps[k], c) {
      OutgoingAreOwn(t.steps, k, c);
    }
  }

  /** A step keeps its edges: a terminal has none to lose, any other keeps the retries and back-off it gives. */
  predicate KeepsEdges(s: Step, c: Codec) {
    if IsTerminal(s) then EdgesOf(s, c) == [] else s.transition.None? || TransitionSurvives(s.transition.value)
  }

  lemma StepEdgesComeBack(s: Step, c: Codec)
    requires Lawful(c)
    ensures var back := EdgesOf(NormalStep(s, c), c);
            && |back| <= |EdgesOf(s, c)|
            && (!IsTerminal(s) ==> |back| == |EdgesOf(s, c)|)
            && (IsTerminal(s) ==> back == [])
            && (Same(back, EdgesOf(s, c)) <==> KeepsEdges(s, c))
  {
    if !IsTerminal(s) && s.transition.Some? {
      var t := s.transition.value;
      TransitionComesBack(s.id, t, c);
      NormalEdges(s.id, t, c);
      if EdgesOf(s, c) == [] { assert Same([], EdgesOf(s, c)); }
    }
  }

  /** A terminal that leads on to another step loses that edge. */
  lemma TerminalLosesItsEdge(s: Step, c: Codec)
    requires Lawful(c) && IsTerminal(s) && s.transition == Some(EMPTY.(onTimeout := "next"))
    ensures EdgesOf(s, c) != [] && EdgesOf(NormalStep(s, c), c) == []
  {
    StepEdgesComeBack(s, c);
    TimeoutEdge(s.id, c);
  }

  lemma TimeoutEdge(id: string, c: Codec)
    ensures TransitionEdges(id, EMPTY.(onTimeout := "next"), c) != []
  {
  }

  lemma StepIsStable(s: Step, c: Codec)
    requires Lawful(c)
    ensures NormalStep(NormalStep(s, c), c) == NormalStep(s, c)
  {
    if !IsTerminal(s) && s.transition.Some? && EdgesOf(s, c) != [] {
      TransitionIsStable(s.id, s.transition.value, c);
      VertexSurvives(s, Some(Normal(s.transition.value)));
    }
  }

  lemma TransitionIsStable(id: string, t: Transition, c: Codec)
    requires Lawful(c) && TransitionEdges(id, t, c) != []
    ensures TransitionOf(TransitionEdges(id, t, c), c) == Some(Normal(t))
    ensures TransitionOf(TransitionEdges(id, Normal(t), c), c) == Some(Normal(t))
  {
    TransitionComesBack(id, t, c);
    TransitionComesBack(id, Normal(t), c);
    NormalIsNormal(t, c);
    NormalEdges(id, t, c);
  }

  ghost predicate AllKeep(steps: seq<Step>, keeps: Step -> bool) { forall k :: 0 <= k < |steps| ==> keeps(steps[k]) }

  lemma AllKeepLast(steps: seq<Step>, keeps: Step -> bool)
    requires steps != []
    ensures AllKeep(steps, keeps) <==> AllKeep(steps[..|steps| - 1], keeps) && keeps(steps[|steps| - 1])
  {
  }

  function Keeper(c: Codec): Step -> bool { (s: Step) => KeepsEdges(s, c) }

  lemma {:induction false} EdgesComeBack(a: seq<Step>, b: seq<Step>, c: Codec)
    requires Lawful(c) && |a| == |b| && forall k :: 0 <= k < |a| ==> b[k] == NormalStep(a[k], c)
    ensures |AllEdges(b, c)| <= |AllEdges(a, c)|
    ensures Same(AllEdges(b, c), AllEdges(a, c)) <==> AllKeep(a, Keeper(c))
  {
    if a != [] {
      var n := |a| - 1;
      EdgesComeBack(a[..n], b[..n], c);
      LastEdgesComeBack(a[n], b[n], c, AllEdges(b[..n], c), AllEdges(a[..n], c));
      AllKeepLast(a, Keeper(c));
    }
  }

  lemma LastEdgesComeBack(s: Step, back: Step, c: Codec, b: seq<Edge>, a: seq<Edge>)
    requires Lawful(c) && back == NormalStep(s, c) && |b| <= |a|
    ensures |b + EdgesOf(back, c)| <= |a + EdgesOf(s, c)|
    ensures Same(b + EdgesOf(back, c), a + EdgesOf(s, c)) <==> Same(b, a) && Keeper(c)(s)
  {
    StepEdgesComeBack(s, c);
    Concatenated(b, a, EdgesOf(back, c), EdgesOf(s, c));
  }

  lemma Concatenated(a': seq<Edge>, a: seq<Edge>, b': seq<Edge>, b: seq<Edge>)
    requires |a'| <= |a| && |b'| <= |b|
    ensures Same(a' + b', a + b) <==> Same(a', a) && Same(b', b)
  {
    if Same(a' + b', a + b) {
      forall i | 0 <= i < |a| ensures Effective(a'[i]) == Effective(a[i]) {
        assert (a' + b')[i] == a'[i] && (a + b)[i] == a[i];
      }
      forall i | 0 <= i < |b| ensures Effective(b'[i]) == Effective(b[i]) {
        assert (a' + b')[|a| + i] == b'[i] && (a + b)[|a| + i] == b[i];
      }
    }
  }

  /**
   Steps to graph to steps to graph: same vertices, same valid entry point, and the same edges if and only if every step
   keeps its own.
   */
  lemma GraphRoundTrip(t: Tree, c: Codec)
    requires Lawful(c) && UniqueIds(t.steps)
    ensures var g := GraphOf(t, c);
            var h := GraphOf(TreeOf(g, c), c);
            && h.vertices == g.vertices && h.entryPoint == g.entryPoint
            && (t.steps != [] ==> g.entryPoint in Ids(t.steps))
            && (Same(h.edges, g.edges) <==> AllKeep(t.steps, Keeper(c)))
  {
    var g := GraphOf(t, c);
    var back := TreeOf(g, c);
    StepsComeBack(t, c);
    forall k | 0 <= k < |t.steps| ensures VertexOf(back.steps[k]) == VertexOf(t.steps[k]) {
      VertexSurvives(t.steps[k], TransitionOf(EdgesOf(t.steps[k], c), c));
    }
    assert Vertices(back.steps) == Vertices(t.steps);
    EdgesComeBack(t.steps, back.steps, c);
    EntryIsKept(t, c);
  }

  lemma EntryIsKept(t: Tree, c: Codec)
    ensures Entry(TreeOf(GraphOf(t, c), c)) == Entry(t)
    ensures t.steps != [] ==> Entry(t) in Ids(t.steps)
  {
    SameIds(t, c);
    if t.steps != [] { assert Ids(t.steps)[0] in Ids(t.steps); }
  }

  lemma SameIds(t: Tree, c: Codec)
    ensures Ids(TreeOf(GraphOf(t, c), c).steps) == Ids(t.steps)
  {
  }

  lemma IdsComeBack(t: Tree, c: Codec)
    requires UniqueIds(t.steps)
    ensures UniqueIds(TreeOf(GraphOf(t, c), c).steps)
  {
    SameIds(t, c);
    var once := TreeOf(GraphOf(t, c), c).steps;
    assert forall k :: 0 <= k < |once| ==> Ids(once)[k] == Ids(t.steps)[k];
  }

  lemma StepsAreStable(a: seq<Step>, b: seq<Step>, d: seq<Step>, c: Codec)
    requires Lawful(c) && |a| == |b| == |d|
    requires forall k :: 0 <= k < |a| ==> b[k] == NormalStep(a[k], c)
    requires forall k :: 0 <= k < |a| ==> d[k] == NormalStep(b[k], c)
    ensures d == b
  {
    forall k | 0 <= k < |a| ensures d[k] == b[k] { StepIsStable(a[k], c); }
  }

  /** One pass through the graph is enough: from then on steps and graph reproduce each other exactly. */
  lemma SecondPassChangesNothing(t: Tree, c: Codec)
    requires Lawful(c) && UniqueIds(t.steps)
    ensures var once := TreeOf(GraphOf(t, c), c); TreeOf(GraphOf(once, c), c) == once
  {
    var once := TreeOf(GraphOf(t, c), c);
    IdsComeBack(t, c);
    StepsComeBack(t, c);
    StepsComeBack(once, c);
    StepsAreStable(t.steps, once.steps, TreeOf(GraphOf(once, c), c).steps, c);
    EntryIsKept(t, c);
    EntryIsKept(once, c);
  }
}
