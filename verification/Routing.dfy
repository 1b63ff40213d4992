/** What the graph of a tree says, and what a tree rebuilt from a graph says, in the words of steps and edges. */
module Routing {
  import opened Text
  import opened Planning
  import opened Dispatch
  import opened GraphConverter

  // ----- vertices

  /** The vertex carries the step: a terminal's three fields, or a step's data with a wait before an action. */
  predicate Depicts(v: Vertex, s: Step) {
    && v.id == s.id && v.name == s.name && (v.isTerminal <==> s.kind == "terminal")
    && match (v.terminal, v.step)
       case (Some(t), None) =>
         v.isTerminal && t.terminalType == s.terminalType && t.alert == s.alert && t.message == s.message
       case (None, Some(d)) =>
         && !v.isTerminal && d.jobName == s.jobName && d.states == Some(s.states) && d.endStates == s.endStates
         && d.planning == s.planning && d.wait == s.waitFor
         && (d.stepType == WaitStep <==> s.waitFor != None)
         && (d.stepType == ActionStep <==> s.waitFor == None && s.action != None)
         && (if d.stepType == ActionStep then d.action == s.action else d.action == None)
       case _ => false
  }

  lemma VertexDepicts(s: Step)
    ensures Depicts(VertexOf(s), s)
  {
  }

  /** The step carries the vertex back; a terminal has no transition. */
  predicate Restores(s: Step, v: Vertex, transition: Option<Transition>) {
    && s.id == v.id && s.name == v.name
    && (if v.isTerminal && v.terminal != None then
          var t := v.terminal.value;
          && s.kind == "terminal" && s.terminalType == t.terminalType && s.alert == t.alert && s.message == t.message
          && s.jobName == "" && s.action == None && s.waitFor == None && s.endStates == [] && s.transition == None
        else
          && s.kind == "" && s.terminalType == "" && !s.alert && s.message == ""
          && (v.step == None ==>
                s.jobName == "" && s.action == None && s.waitFor == None && s.endStates == [] && s.transition == None)
          && (v.step != None ==>
                var d := v.step.value;
                && s.jobName == d.jobName && s.action == d.action && s.waitFor == d.wait && s.endStates == d.endStates
                && s.planning == d.planning && s.transition == transition
                && s.states == (if d.states != None then d.states.value else States([], [], [], []))))
  }

  lemma StepRestores(v: Vertex, transition: Option<Transition>)
    ensures Restores(StepOf(v, transition), v, transition)
  {
  }

  // ----- where a step leads

  /** The edges of one kind that leave the step. */
  function Leaving(edges: seq<Edge>, id: string, kind: EdgeKind): seq<Edge> {
    Filter(edges, (e: Edge) => e.from == id && e.kind == kind)
  }

  function KindIs(kind: EdgeKind): Edge -> bool { (e: Edge) => e.kind == kind }

  /** The outcome's word, in any case and with any space around it, is one for success. */
  predicate MeansSuccess(outcome: string) {
    var w := Lower(TrimSpace(outcome));
    w == "success" || w == "succeeded" || w == "done"
  }

  /** Some outcome with a target stands for success, or for failure. */
  predicate SomeOutcome(t: Transition, success: bool) {
    exists i :: 0 <= i < |t.onOutcomes| && t.onOutcomes[i].next != ""
                && MeansSuccess(t.onOutcomes[i].outcome) == success
  }

  /** The object holds the outcome and the state that are not blank. */
  predicate Spells(m: State, o: OutcomeTransition) {
    && (forall k :: k in m ==> k == "outcome" || k == "state")
    && ("outcome" in m <==> TrimSpace(o.outcome) != "") && ("state" in m <==> TrimSpace(o.state) != "")
    && ("outcome" in m ==> m["outcome"] == TrimSpace(o.outcome)) && ("state" in m ==> m["state"] == TrimSpace(o.state))
  }

  /** The condition text is such an object in JSON, or nothing when there is nothing to hold. */
  ghost predicate IsCondition(text: string, o: OutcomeTransition, c: Codec) {
    exists m :: Spells(m, o) && text == if m == map[] then "" else c.marshal(m)
  }

  ghost predicate IsOutcomeEdge(e: Edge, id: string, o: OutcomeTransition, c: Codec) {
    && e.from == id && e.to == o.next && e.kind == ConditionalEdge && e.config != None
    && e.config.value.retry == 0 && e.config.value.backoffMs == 0 && e.config.value.fallback == ""
    && IsCondition(e.config.value.condition, o, c)
  }

  /** `n` is `x` cut to a whole number towards zero; an absent number is zero. */
  predicate IsCut(n: int, x: Option<real>) {
    match x
    case None => n == 0
    case Some(r) => if r >= 0.0 then n as real <= r < n as real + 1.0 else n as real - 1.0 < r <= n as real
  }

  /** The failure edge a failure transition asks for; the fallback goes before the next step. */
  ghost predicate IsFailureEdge(e: Edge, id: string, f: OnFailure) {
    && e.from == id && e.kind == OnFailureEdge
    && match f
       case FailureTo(target) => e.to == target && e.config == None
       case FailureObject(retry, backoff, fallback, next) =>
         && (if fallback != None then e.to == fallback.value else next != None && e.to == next.value)
         && e.config != None && IsCut(e.config.value.retry, retry) && IsCut(e.config.value.backoffMs, backoff)
         && e.config.value.condition == ""
         && e.config.value.fallback == (if fallback != None then fallback.value else "")
       case _ => false
  }

  predicate AsksForFailure(f: OnFailure) {
    f.FailureTo? || (f.FailureObject? && (f.fallback != None || f.next != None))
  }

  /** The success target a success transition asks for. */
  predicate AsksForSuccess(s: OnSuccess, target: string) {
    s == SuccessTo(target) || s == SuccessObject(Some(target))
  }

  /** The outcomes that have a target. */
  function Leading(outs: seq<OutcomeTransition>): seq<OutcomeTransition> {
    Filter(outs, (o: OutcomeTransition) => o.next != "")
  }

  /** The edges that leave a step say what its transition says. */
  ghost predicate Says(edges: seq<Edge>, id: string, t: Transition, c: Codec) {
    && (var es := Leaving(edges, id, OnSuccessEdge);
        if SomeOutcome(t, true) then es == []
        else |es| <= 1 && (forall target :: AsksForSuccess(t.onSuccess, target) <==>
                             es == [Edge(id, target, OnSuccessEdge, None)]))
    && (var es := Leaving(edges, id, OnFailureEdge);
        if SomeOutcome(t, false) || !AsksForFailure(t.onFailure) then es == []
        else |es| == 1 && IsFailureEdge(es[0], id, t.onFailure))
    && SaysPlain(edges, id, t.onTimeout, OnTimeoutEdge) && SaysPlain(edges, id, t.onConfirm, OnConfirmEdge)
    && SaysPlain(edges, id, t.onCancel, OnCancelEdge)
    && SaysOutcomes(Leaving(edges, id, ConditionalEdge), id, Leading(t.onOutcomes), c)
  }

  predicate SaysPlain(edges: seq<Edge>, id: string, target: string, kind: EdgeKind) {
    Leaving(edges, id, kind) == if target == "" then [] else [Edge(id, target, kind, None)]
  }

  ghost predicate SaysOutcomes(es: seq<Edge>, id: string, outs: seq<OutcomeTransition>, c: Codec) {
    |es| == |outs| && forall i :: 0 <= i < |es| ==> IsOutcomeEdge(es[i], id, outs[i], c)
  }

  lemma CutIsTruncated(x: Option<real>)
    ensures IsCut(Truncated(x), x)
  {
  }

  lemma ConditionIsEncoded(o: OutcomeTransition, c: Codec)
    ensures IsCondition(EncodeOutcome(o.outcome, o.state, c), o, c)
  {
    assert |"outcome"| != |"state"|;
    assert Spells(Payload(o.outcome, o.state), o);
  }

  // ----- the edges of one transition, kind by kind

  lemma {:induction false} FilterTwice(es: seq<Edge>, p: Edge -> bool, q: Edge -> bool, both: Edge -> bool)
    requires forall e :: both(e) <==> p(e) && q(e)
    ensures Filter(es, both) == Filter(Filter(es, p), q)
  {
    if es != [] {
      var front, last := es[..|es| - 1], es[|es| - 1];
      FilterTwice(front, p, q, both);
      if p(last) { assert (Filter(front, p) + [last])[..|Filter(front, p)|] == Filter(front, p); }
    }
  }

  lemma LeavingIsOutgoing(es: seq<Edge>, id: string, kind: EdgeKind)
    ensures Leaving(es, id, kind) == Filter(Outgoing(es, id), KindIs(kind))
  {
    FilterTwice(es, LeavesFrom(id), KindIs(kind), (e: Edge) => e.from == id && e.kind == kind);
  }

  ghost predicate AllOfKind(es: seq<Edge>, kind: EdgeKind) { forall i :: 0 <= i < |es| ==> es[i].kind == kind }

  lemma OfKind(es: seq<Edge>, of: EdgeKind, kind: EdgeKind)
    requires AllOfKind(es, of)
    ensures Filter(es, KindIs(kind)) == If(of == kind, es)
  {
    FilterAll(es, KindIs(kind), of == kind);
  }

  lemma {:induction false} OutcomesAreConditional(id: string, outs: seq<OutcomeTransition>, c: Codec)
    ensures AllOfKind(OutcomeEdges(id, outs, c), ConditionalEdge)
    ensures SaysOutcomes(OutcomeEdges(id, outs, c), id, Leading(outs), c)
  {
    if outs != [] {
      var front, last := outs[..|outs| - 1], outs[|outs| - 1];
      OutcomesAreConditional(id, front, c);
      ConditionIsEncoded(last, c);
    }
  }

  /** The group of a transition's edges that has the kind. */
  function Group(id: string, t: Transition, c: Codec, kind: EdgeKind): seq<Edge> {
    match kind
    case ConditionalEdge => OutcomeEdges(id, t.onOutcomes, c)
    case OnSuccessEdge => SuccessEdges(id, t)
    case OnFailureEdge => FailureEdges(id, t)
    case OnTimeoutEdge => NamedEdge(id, t.onTimeout, OnTimeoutEdge)
    case OnConfirmEdge => NamedEdge(id, t.onConfirm, OnConfirmEdge)
    case OnCancelEdge => NamedEdge(id, t.onCancel, OnCancelEdge)
  }

  lemma LeavingByKind(edges: seq<Edge>, id: string, t: Transition, c: Codec, kind: EdgeKind)
    requires Outgoing(edges, id) == TransitionEdges(id, t, c)
    ensures Leaving(edges, id, kind) == Group(id, t, c, kind)
  {
    LeavingIsOutgoing(edges, id, kind);
    EdgesByKind(id, t, c, kind);
  }

  lemma NamedIsOfKind(id: string, target: string, of: EdgeKind, kind: EdgeKind)
    ensures Filter(NamedEdge(id, target, of), KindIs(kind)) == If(of == kind, NamedEdge(id, target, of))
  {
    OfKind(NamedEdge(id, target, of), of, kind);
  }

  lemma SuccessIsOfKind(id: string, t: Transition, kind: EdgeKind)
    ensures Filter(SuccessEdges(id, t), KindIs(kind)) == If(OnSuccessEdge == kind, SuccessEdges(id, t))
  {
    OfKind(SuccessEdges(id, t), OnSuccessEdge, kind);
  }

  lemma FailureIsOfKind(id: string, t: Transition, kind: EdgeKind)
    ensures Filter(FailureEdges(id, t), KindIs(kind)) == If(OnFailureEdge == kind, FailureEdges(id, t))
  {
    OfKind(FailureEdges(id, t), OnFailureEdge, kind);
  }

  lemma OutcomesAreOfKind(id: string, outs: seq<OutcomeTransition>, c: Codec, kind: EdgeKind)
    ensures Filter(OutcomeEdges(id, outs, c), KindIs(kind)) == If(ConditionalEdge == kind, OutcomeEdges(id, outs, c))
  {
    OutcomesAreConditional(id, outs, c);
    OfKind(OutcomeEdges(id, outs, c), ConditionalEdge, kind);
  }

  lemma EdgesByKind(id: string, t: Transition, c: Codec, kind: EdgeKind)
    ensures Filter(TransitionEdges(id, t, c), KindIs(kind)) == Group(id, t, c, kind)
  {
    var o, s, f := OutcomeEdges(id, t.onOutcomes, c), SuccessEdges(id, t), FailureEdges(id, t);
    var x, y, z := NamedEdge(id, t.onTimeout, OnTimeoutEdge), NamedEdge(id, t.onConfirm, OnConfirmEdge),
                   NamedEdge(id, t.onCancel, OnCancelEdge);
    OutcomesAreOfKind(id, t.onOutcomes, c, kind);
    SuccessIsOfKind(id, t, kind);
    FailureIsOfKind(id, t, kind);
    NamedIsOfKind(id, t.onTimeout, OnTimeoutEdge, kind);
    NamedIsOfKind(id, t.onConfirm, OnConfirmEdge, kind);
    NamedIsOfKind(id, t.onCancel, OnCancelEdge, kind);
    FilterSix(o, s, f, x, y, z, KindIs(kind));
    OneOfSix(o, s, f, x, y, z, kind);
  }

  function If(b: bool, es: seq<Edge>): seq<Edge> { if b then es else [] }

  lemma OneOfSix(
    o: seq<Edge>, s: seq<Edge>, f: seq<Edge>, x: seq<Edge>, y: seq<Edge>, z: seq<Edge>, kind: EdgeKind)
    ensures If(ConditionalEdge == kind, o) + If(OnSuccessEdge == kind, s) + If(OnFailureEdge == kind, f)
            + (If(OnTimeoutEdge == kind, x) + If(OnConfirmEdge == kind, y) + If(OnCancelEdge == kind, z))
            == match kind
               case ConditionalEdge => o
               case OnSuccessEdge => s
               case OnFailureEdge => f
               case OnTimeoutEdge => x
               case OnConfirmEdge => y
               case OnCancelEdge => z
  {
  }

  lemma FilterSix(
    o: seq<Edge>, s: seq<Edge>, f: seq<Edge>, x: seq<Edge>, y: seq<Edge>, z: seq<Edge>, p: Edge -> bool)
    ensures Filter(o + s + f + (x + y + z), p)
            == Filter(o, p) + Filter(s, p) + Filter(f, p) + (Filter(x, p) + Filter(y, p) + Filter(z, p))
  {
    FilterAppend(o, s, p);
    FilterAppend(o + s, f, p);
    FilterAppend(o + s + f, x + y + z, p);
    FilterAppend(x + y, z, p);
    FilterAppend(x, y, p);
  }

  lemma OutcomesMean(t: Transition, success: bool)
    ensures Leads(t.onOutcomes, success) <==> SomeOutcome(t, success)
  {
    forall i | 0 <= i < |t.onOutcomes|
      ensures IsSuccessWord(t.onOutcomes[i].outcome) <==> MeansSuccess(t.onOutcomes[i].outcome)
    {
    }
  }

  lemma FailureIsAskedFor(id: string, t: Transition)
    ensures if SomeOutcome(t, false) || !AsksForFailure(t.onFailure) then FailureEdges(id, t) == []
            else |FailureEdges(id, t)| == 1 && IsFailureEdge(FailureEdges(id, t)[0], id, t.onFailure)
  {
    OutcomesMean(t, false);
    match t.onFailure
    case FailureObject(retry, backoff, fallback, next) =>
      CutIsTruncated(retry);
      CutIsTruncated(backoff);
    case _ =>
  }

  lemma SuccessIsAskedFor(id: string, t: Transition)
    ensures if SomeOutcome(t, true) then SuccessEdges(id, t) == []
            else |SuccessEdges(id, t)| <= 1
                 && forall target :: AsksForSuccess(t.onSuccess, target) <==>
                      SuccessEdges(id, t) == [Edge(id, target, OnSuccessEdge, None)]
  {
    OutcomesMean(t, true);
    forall target | SuccessEdges(id, t) == [Edge(id, target, OnSuccessEdge, None)]
      ensures !SomeOutcome(t, true) && AsksForSuccess(t.onSuccess, target)
    {
      assert SuccessEdges(id, t)[0].to == target;
    }
  }

  lemma TransitionSays(edges: seq<Edge>, id: string, t: Transition, c: Codec)
    requires Outgoing(edges, id) == TransitionEdges(id, t, c)
    ensures Says(edges, id, t, c)
  {
    LeavingByKind(edges, id, t, c, OnSuccessEdge);
    LeavingByKind(edges, id, t, c, OnFailureEdge);
    LeavingByKind(edges, id, t, c, OnTimeoutEdge);
    LeavingByKind(edges, id, t, c, OnConfirmEdge);
    LeavingByKind(edges, id, t, c, OnCancelEdge);
    LeavingByKind(edges, id, t, c, ConditionalEdge);
    SuccessIsAskedFor(id, t);
    FailureIsAskedFor(id, t);
    OutcomesAreConditional(id, t.onOutcomes, c);
  }

  /** The graph of a tree says what the tree says: every step's vertex depicts it, and its edges lead where it leads. */
  lemma GraphSaysTheTree(t: Tree, c: Codec, i: nat)
    requires i < |t.steps| && UniqueIds(t.steps)
    ensures var g, s := GraphOf(t, c), t.steps[i];
            && |g.vertices| == |t.steps| && Depicts(g.vertices[i], s)
            && match s.transition
               case None => forall e :: e in g.edges ==> e.from != s.id
               case Some(tr) => Says(g.edges, s.id, tr, c)
  {
    var g, s := GraphOf(t, c), t.steps[i];
    VertexDepicts(s);
    OutgoingAreOwn(t.steps, i, c);
    match s.transition
    case None =>
      forall e | e in g.edges ensures e.from != s.id {
        assert e.from == s.id ==> e in Outgoing(g.edges, s.id);
      }
    case Some(tr) => TransitionSays(g.edges, s.id, tr, c);
  }

  // ----- what a rebuilt transition says

  /** The target of the last edge, "" when there is none. */
  function LastTarget(es: seq<Edge>): string { if es == [] then "" else es[|es| - 1].to }

  /** A condition text gives back the outcome and the state of its object, trimmed, and nothing when it holds none. */
  ghost predicate IsReadAs(text: string, outcome: string, state: string, c: Codec) {
    var t := TrimSpace(text);
    if HasPrefix(t, "{") && c.unmarshal(t) != None then
      var m := c.unmarshal(t).value;
      && outcome == (if "outcome" in m then TrimSpace(m["outcome"]) else "")
      && state == (if "state" in m then TrimSpace(m["state"]) else "")
    else outcome == "" && state == ""
  }

  ghost predicate IsOutcomeBack(o: OutcomeTransition, e: Edge, c: Codec) {
    o.next == e.to && IsReadAs(if e.config != None then e.config.value.condition else "", o.outcome, o.state, c)
  }

  /** A failure edge with retries or a back-off becomes an object with a fallback, any other a bare target. */
  predicate IsFailureBack(f: OnFailure, e: Edge) {
    var (retry, backoff) := if e.config == None then (0, 0) else (e.config.value.retry, e.config.value.backoffMs);
    if retry > 0 || backoff > 0 then
      && f.FailureObject? && f.retry == Some(retry as real) && f.fallback == Some(e.to) && f.next == None
      && f.backoffMs == if backoff > 0 then Some(backoff as real) else None
    else f == FailureTo(e.to)
  }

  /** Of every kind the last edge counts, and of the outcomes all in turn. */
  ghost predicate Rebuilds(t: Transition, es: seq<Edge>, c: Codec) {
    && t.onTimeout == LastTarget(Filter(es, KindIs(OnTimeoutEdge)))
    && t.onConfirm == LastTarget(Filter(es, KindIs(OnConfirmEdge)))
    && t.onCancel == LastTarget(Filter(es, KindIs(OnCancelEdge)))
    && IsSuccessOf(t.onSuccess, Filter(es, KindIs(OnSuccessEdge)))
    && IsFailureOf(t.onFailure, Filter(es, KindIs(OnFailureEdge)))
    && AreOutcomesOf(t.onOutcomes, Filter(es, KindIs(ConditionalEdge)), c)
  }

  predicate IsSuccessOf(s: OnSuccess, es: seq<Edge>) {
    s == if es == [] then NoSuccess else SuccessTo(es[|es| - 1].to)
  }

  predicate IsFailureOf(f: OnFailure, es: seq<Edge>) {
    if es == [] then f == NoFailure else IsFailureBack(f, es[|es| - 1])
  }

  ghost predicate AreOutcomesOf(outs: seq<OutcomeTransition>, es: seq<Edge>, c: Codec) {
    |outs| == |es| && forall i :: 0 <= i < |es| ==> IsOutcomeBack(outs[i], es[i], c)
  }

  lemma OneMoreOutcome(outs: seq<OutcomeTransition>, es: seq<Edge>, e: Edge, c: Codec)
    requires AreOutcomesOf(outs, es, c)
    ensures AreOutcomesOf(outs + [OutcomeBack(e, c)], es + [e], c)
  {
    OutcomeIsReadBack(e, c);
  }

  lemma FilterLast(front: seq<Edge>, e: Edge, kind: EdgeKind)
    ensures Filter(front + [e], KindIs(kind))
            == if e.kind == kind then Filter(front, KindIs(kind)) + [e] else Filter(front, KindIs(kind))
  {
    assert (front + [e])[..|front|] == front;
  }

  lemma OutcomeIsReadBack(e: Edge, c: Codec)
    ensures IsOutcomeBack(OutcomeBack(e, c), e, c)
  {
    var t := TrimSpace(if e.config.Some? then e.config.value.condition else "");
    assert HasPrefix(t, "{") <==> t != "" && t[0] == '{';
  }

  lemma {:induction false} AbsorbedRebuilds(es: seq<Edge>, c: Codec)
    ensures Rebuilds(AbsorbAll(es, c), es, c)
  {
    if es != [] {
      var n := |es| - 1;
      var front, e := es[..n], es[n];
      assert es == front + [e];
      AbsorbedRebuilds(front, c);
      AbsorbLast(front, e, c);
      OneMoreRebuilds(AbsorbAll(front, c), front, e, c);
    }
  }

  lemma OneMoreRebuilds(t: Transition, front: seq<Edge>, e: Edge, c: Codec)
    requires Rebuilds(t, front, c)
    ensures Rebuilds(Absorb(t, e, c), front + [e], c)
  {
    FilterLast(front, e, OnTimeoutEdge);
    FilterLast(front, e, OnConfirmEdge);
    FilterLast(front, e, OnCancelEdge);
    FilterLast(front, e, OnSuccessEdge);
    FilterLast(front, e, OnFailureEdge);
    FilterLast(front, e, ConditionalEdge);
    match e.kind
    case ConditionalEdge => OneMoreOutcome(t.onOutcomes, Filter(front, KindIs(ConditionalEdge)), e, c);
    case OnFailureEdge => FailureIsReadBack(e);
    case _ =>
  }

  lemma FailureIsReadBack(e: Edge)
    ensures IsFailureBack(FailureBack(e.to, e.config), e)
  {
  }

  /** The tree of a graph says what the graph says. */
  lemma TreeSaysTheGraph(g: Graph, c: Codec, i: nat)
    requires i < |g.vertices|
    ensures var t, v := TreeOf(g, c), g.vertices[i];
            && |t.steps| == |g.vertices| && t.entryPoint == (if g.entryPoint == "" then None else Some(g.entryPoint))
            && exists tr :: Restores(t.steps[i], v, tr) && IsRebuilt(tr, g.edges, v.id, c)
  {
    var v := g.vertices[i];
    var tr := TransitionOf(Outgoing(g.edges, v.id), c);
    StepRestores(v, tr);
    AbsorbedRebuilds(Outgoing(g.edges, v.id), c);
    assert Restores(TreeOf(g, c).steps[i], v, tr);
  }

  /** A step gets a transition when an edge leaves it. */
  ghost predicate IsRebuilt(tr: Option<Transition>, edges: seq<Edge>, id: string, c: Codec) {
    var es := Filter(edges, (e: Edge) => e.from == id);
    if es == [] then tr == None else tr != None && Rebuilds(tr.value, es, c)
  }
}
