/**
 What becomes of a reset that meets a sync. The sync reads the planner state in one critical section and writes it back
 in another; this module says exactly which resets survive the write-back.
 */
module LostResets {
  import opened Planning
  import opened SessionProtocol

  predicate Has(st: State, k: string, v: string) { k in st && st[k] == v }

  /** The action writes the planner state back, or writes it with something other than `value` under `k`. */
  predicate Disturbs(a: Action, k: string, value: string) {
    match a
    case Overwrite(state) => !Has(state, k, value)
    case Merge(merged) => !Has(merged, k, value)
    case WriteBack => true
    case _ => false
  }

  /** A reset at `u` writes `value` under `k`, and until step `v` every other reset and merge leaves the key alone. */
  ghost predicate Holds(actions: seq<Action>, u: nat, v: nat, k: string, value: string) {
    && u < v <= |actions| && actions[u].Overwrite? && Has(actions[u].state, k, value)
    && forall w :: u < w < v ==> !Disturbs(actions[w], k, value)
  }

  lemma {:induction false} HeldSince(
    state: State, states: seq<Session>, actions: seq<Action>, u: nat, v: nat, k: string, value: string)
    requires IsRun(state, states, actions) && Holds(actions, u, v, k, value)
    ensures Has(states[v].current, k, value)
    ensures states[u].phase.Folding? ==> states[v].phase.Folding? && states[v].phase.read == states[u].phase.read
    ensures !states[u].phase.Folding? && states[v].phase.Folding? ==> Has(states[v].phase.read, k, value)
  {
    assert StepOfRun(states, actions, v - 1);
    if u < v - 1 { HeldSince(state, states, actions, u, v - 1, k, value); }
  }

  /** What the sync that is about to write back has folded. */
  ghost function FoldedEffects(s: Session): State
    requires s.phase.Folding?
  {
    Accumulate(EffectsOf(s.registry, s.phase.folded))
  }

  /**
   A reset wrote `value` under `k` at step `u`, and no later reset or merge changed it before the next write-back at
   step `t`. It is still there afterwards if and only if the folded effects write that very value, or do not write `k`
   and the reset came before the sync's read, or the sync had read that value already.
   */
  lemma ResetSurvivesIff(
    state: State, states: seq<Session>, actions: seq<Action>, u: nat, t: nat, k: string, value: string)
    requires IsRun(state, states, actions) && t < |actions| && actions[t].WriteBack?
    requires Holds(actions, u, t, k, value)
    ensures states[t].phase.Folding?
    ensures Has(states[t + 1].current, k, value) <==>
              if k in FoldedEffects(states[t]) then FoldedEffects(states[t])[k] == value
              else states[u].phase.Folding? ==> Has(states[u].phase.read, k, value)
  {
    SyncWritesFoldedEffects(state, states, actions, t);
    HeldSince(state, states, actions, u, t, k, value);
  }

  /**
   From every session between ticks that has executions: the sync with a reset to `x` in its window ends in the same
   session as the sync without, so the reset leaves no trace.
   */
  lemma ResetInWindowLeavesNoTrace(s: Session, order: seq<Job>, x: State)
    returns (actions: seq<Action>, plain: seq<Action>)
    requires s.phase.Resting? && s.active != {} && Lists(order, s.active)
    ensures |actions| > 2 && actions[0].ListActive? && actions[1].ReadState? && actions[2] == Overwrite(x)
    ensures actions[|actions| - 1].WriteBack?
    ensures Leads(s, actions, AfterSync(s, order)) && Leads(s, plain, AfterSync(s, order))
    ensures Overwrite(x) !in plain
  {
    var reading := s.(phase := Folding(order, {}, s.current, s.current, []));
    var toRead := [ListActive(order), ReadState];
    ToReading(s, order);
    SameEnd(s, order, reading, x);
    plain := FinishFrom(s, toRead, reading);
    var reset := reading.(current := x);
    LeadsByOne(reading, Overwrite(x));
    LeadsThrough(s, toRead, reading, [Overwrite(x)], reset);
    actions := FinishFrom(s, toRead + [Overwrite(x)], reset);
  }

  lemma ToReading(s: Session, order: seq<Job>)
    requires s.phase.Resting? && s.active != {} && Lists(order, s.active)
    ensures order != []
    ensures Leads(s, [ListActive(order), ReadState], s.(phase := Folding(order, {}, s.current, s.current, [])))
  {
    assert JobSet([]) == {};
    var listed := Apply(s, ListActive(order));
    LeadsByOne(s, ListActive(order));
    LeadsByOne(listed, ReadState);
    LeadsThrough(s, [ListActive(order)], listed, [ReadState], Apply(listed, ReadState));
    assert [ListActive(order)] + [ReadState] == [ListActive(order), ReadState];
  }

  lemma FinishFrom(s: Session, before: seq<Action>, m: Session) returns (actions: seq<Action>)
    requires m.phase.Folding? && Leads(s, before, m)
    ensures Leads(s, actions, AfterFold(m)) && before <= actions
    ensures |actions| > |before| && actions[|actions| - 1].WriteBack?
    ensures forall a :: a in actions ==> a in before || a == FoldOne || a == WriteBack
  {
    var rest := FinishSync(m);
    LeadsThrough(s, before, m, rest, AfterFold(m));
    actions := before + rest;
  }

  /** The session after the rest of a sync that nothing interrupts. */
  ghost function AfterFold(s: Session): Session
    requires s.phase.Folding?
  {
    Apply(s.(phase := FoldEnd(s.registry, s.phase)), WriteBack)
  }

  lemma FinishSync(s: Session) returns (actions: seq<Action>)
    requires s.phase.Folding?
    ensures Leads(s, actions, AfterFold(s)) && forall a :: a in actions ==> a == FoldOne || a == WriteBack
    ensures actions != [] && actions[|actions| - 1].WriteBack?
  {
    var folding := OnlyFolds(s);
    FoldAllTotal(s.registry, s.phase);
    var done := s.(phase := FoldEnd(s.registry, s.phase));
    LeadsByOne(done, WriteBack);
    LeadsThrough(s, folding, done, [WriteBack], Apply(done, WriteBack));
    actions := folding + [WriteBack];
  }

  lemma {:induction false} OnlyFolds(s: Session) returns (actions: seq<Action>)
    requires s.phase.Folding?
    ensures Leads(s, actions, s.(phase := FoldAll(s.registry, s.phase))) && forall a :: a in actions ==> a == FoldOne
    decreases |s.phase.todo|
  {
    actions := [];
    if s.phase.todo != [] {
      var rest := OnlyFolds(Apply(s, FoldOne));
      actions := [FoldOne] + rest;
      assert actions[1..] == rest;
    }
  }

  lemma SameEnd(s: Session, order: seq<Job>, reading: Session, x: State)
    requires s.phase.Resting? && order != [] && Lists(order, s.active)
    requires reading == s.(phase := Folding(order, {}, s.current, s.current, []))
    ensures AfterFold(reading) == AfterSync(s, order) && AfterFold(reading.(current := x)) == AfterSync(s, order)
  {
    assert {} + LiveJobs(s.registry, s.active) == LiveJobs(s.registry, s.active);
    assert [] + EndedJobs(s.registry, order) == EndedJobs(s.registry, order);
  }

  // ----- a reachable example

  const JOB := Job("e1", {"r1"}, {"dock"})
  const OFFER := Offer({"r1"}, {"dock"})

  /** A session that is about to start one execution. */
  lemma OneOffer(st: State) returns (actions: seq<Action>, s: Session)
    ensures Leads(Initial(st), actions, s)
    ensures s == Initial(st).(phase := Starting([OFFER]))
  {
    var s0 := Initial(st);
    NothingToSync(s0);
    var a0 := SyncIsARun(s0, []);
    var s1 := s0.(phase := Synced);
    var s2 := Apply(s1, Merge(st));
    LeadsByOne(s1, Merge(st));
    LeadsThrough(s0, a0, s1, [Merge(st)], s2);
    var a2 := SurveyIsARun(s2, []);
    var s3 := AfterSurvey(s2);
    LeadsThrough(s0, a0 + [Merge(st)], s2, a2, s3);
    s := Apply(s3, Choose([OFFER]));
    LeadsByOne(s3, Choose([OFFER]));
    actions := a0 + [Merge(st)] + a2 + [Choose([OFFER])];
    LeadsThrough(s0, a0 + [Merge(st)] + a2, s3, [Choose([OFFER])], s);
  }

  /** A session that has started one execution and is between ticks. */
  lemma OneExecution(st: State) returns (actions: seq<Action>, s: Session)
    ensures Leads(Initial(st), actions, s)
    ensures s.phase.Resting? && s.active == {JOB} && s.current == st && s.registry == map["e1" := Live]
  {
    var offered, s4 := OneOffer(st);
    var a4 := StartIsARun(s4, "e1");
    var s5 := AfterStart(s4, "e1");
    LeadsThrough(Initial(st), offered, s4, a4, s5);
    s := Apply(s5, EndTick);
    LeadsByOne(s5, EndTick);
    actions := offered + a4 + [EndTick];
    LeadsThrough(Initial(st), offered + a4, s5, [EndTick], s);
  }

  /** A reset that shuts the door is lost: after the sync the planner state has it open as before. */
  lemma ResetCanBeLost() returns (before: seq<Action>, during: seq<Action>, s: Session)
    ensures Leads(Initial(map["door" := "open"]), before + during, s)
    ensures Overwrite(map["door" := "shut"]) in during && during != [] && during[|during| - 1].WriteBack?
    ensures Has(s.current, "door", "open")
  {
    var open, shut := map["door" := "open"], map["door" := "shut"];
    var resting;
    before, resting := OneExecution(open);
    assert Lists([JOB], resting.active);
    var actions, plain := ResetInWindowLeavesNoTrace(resting, [JOB], shut);
    s := AfterSync(resting, [JOB]);
    during := actions;
    LeadsThrough(Initial(open), before, resting, actions, s);
    assert EffectsOf(resting.registry, [JOB]) == [map[]];
    AccumulateLast([map[]], [], map[]);
  }
}
