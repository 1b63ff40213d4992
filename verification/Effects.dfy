/**
 The planning effects of one finished task, computed twice by the server: by the plan executor when the
 task ends, and again by the realtime session when it replays the execution's snapshot.
 */
module Effects {
  import opened Text
  import opened Planning

  datatype MessageClass = NoClass | Warning | Error

  /** classifyTaskResultMessage and its twin classifyRealtimeTaskResultMessage. */
  function Classify(message: string): (MessageClass, string) {
    var t := TrimSpace(message);
    if |t| < 2 then (NoClass, t)
    else if Lower(t[..2]) == "w:" then (Warning, TrimSpace(t[2..]))
    else if Lower(t[..2]) == "e:" then (Error, TrimSpace(t[2..]))
    else (NoClass, t)
  }

  // ----- the message effect

  /** The first effect on `v`, or the length of the list. */
  function FirstOn(effects: seq<PlanningEffect>, v: string): (r: nat)
    ensures r <= |effects|
    ensures forall k :: 0 <= k < r ==> TrimSpace(effects[k].variable) != v
    ensures r < |effects| ==> TrimSpace(effects[r].variable) == v
  {
    if effects == [] || TrimSpace(effects[0].variable) == v then 0 else 1 + FirstOn(effects[1..], v)
  }

  /** Overwrites the first effect on `v`, or appends one. */
  function SetFirst(effects: seq<PlanningEffect>, v: string, m: string): (r: seq<PlanningEffect>)
    ensures r != []
  {
    var i := FirstOn(effects, v);
    if i < |effects| then effects[i := effects[i].(value := m)] else effects + [PlanningEffect(v, m)]
  }

  function WithMessage(effects: seq<PlanningEffect>, variable: string, message: string): seq<PlanningEffect> {
    if IsBlank(variable) then effects else SetFirst(effects, TrimSpace(variable), TrimSpace(message))
  }

  /** appendPlanningMessageEffect and its twin appendRealtimePlanningMessageEffect. */
  method AppendMessageEffect(input: seq<PlanningEffect>, variable: string, message: string)
    returns (effects: seq<PlanningEffect>)
    ensures effects == WithMessage(input, variable, message)
  {
    effects := input;
    var v := TrimSpace(variable);
    if v == "" { return; }
    var m := TrimSpace(message);
    var i := 0;
    while i < |effects|
      invariant 0 <= i <= FirstOn(input, v)
      invariant effects == input
    {
      if TrimSpace(effects[i].variable) == v {
        assert i == FirstOn(input, v);
        effects := effects[i := effects[i].(value := m)];
        return;
      }
      i := i + 1;
    }
    effects := effects + [PlanningEffect(v, m)];
  }

  lemma SetFirstInjective(effects: seq<PlanningEffect>, v: string, m1: string, m2: string)
    ensures SetFirst(effects, v, m1) == SetFirst(effects, v, m2) <==> m1 == m2
  {
    var i := FirstOn(effects, v);
    assert SetFirst(effects, v, m1)[i].value == m1 && SetFirst(effects, v, m2)[i].value == m2;
  }

  // ----- the executor's side

  /**
   How a dispatched step ends: the scheduler refuses to start it, or waitForTask returns, with an error
   (`failed`) or without, and the scheduler reports `message`. `errText` is the text of the Go error.
   */
  datatype StepOutcome =
    | StartFailed(errText: string)
    | Finished(failed: bool, message: string, errText: string)

  /** The effects dispatchStep applies to the planning state. */
  function ExecutorEffects(a: TaskAssignment, o: StepOutcome): seq<PlanningEffect> {
    match o
    case StartFailed(_) => []
    case Finished(failed, message, _) =>
      var (kind, payload) := Classify(message);
      if failed then
        WithMessage(a.resultStates + a.errorResultStates, a.errorMessageVariable,
                    if IsBlank(payload) then TrimSpace(message) else payload)
      else match kind
        case Warning => WithMessage(a.resultStates + a.warningResultStates, a.warningMessageVariable, payload)
        case Error => WithMessage(a.resultStates + a.errorResultStates, a.errorMessageVariable, payload)
        case NoClass => a.resultStates
  }

  /** Whether dispatchStep reports the step to the order loop as an error. */
  predicate IsError(o: StepOutcome) {
    o.StartFailed? || o.failed || Classify(o.message).0.Error?
  }

  function EndStatus(o: StepOutcome, contextCancelled: bool): (s: StepStatus)
    ensures HasEnded(s)
    ensures s.Completed? <==> !IsError(o)
  {
    if !IsError(o) then Completed
    else if o.Finished? && o.failed && (contextCancelled || Contains(Lower(o.errText), "cancel")) then Cancelled
    else Failed
  }

  function EndError(o: StepOutcome): string {
    match o
    case StartFailed(errText) => errText
    case Finished(failed, message, errText) =>
      var (kind, payload) := Classify(message);
      if failed then if IsBlank(message) then errText else TrimSpace(message)
      else if kind.NoClass? then ""
      else TrimSpace(message)
  }

  // ----- the session's side

  /** realtimePlanningEffectsForStep */
  function ReplayEffects(a: TaskAssignment, status: StepStatus, error: string): seq<PlanningEffect> {
    var (kind, payload) := Classify(error);
    if status.Failed? || status.Cancelled? then
      WithMessage(a.resultStates + a.errorResultStates, a.errorMessageVariable,
                  if IsBlank(payload) then TrimSpace(error) else payload)
    else match kind
      case Warning => WithMessage(a.resultStates + a.warningResultStates, a.warningMessageVariable, payload)
      case Error => WithMessage(a.resultStates + a.errorResultStates, a.errorMessageVariable, payload)
      case NoClass => a.resultStates
  }

  // ----- when the two sides agree

  /**
   The exact condition for a step's replayed effects to be the executed ones. It fails for a step that
   never started but has effects, for a failure without a message, and for a bare "e:" on a task that ended
   without a Go error.
   */
  predicate ReplaysFaithfully(a: TaskAssignment, o: StepOutcome) {
    match o
    case StartFailed(_) =>
      a.resultStates == [] && a.errorResultStates == [] && IsBlank(a.errorMessageVariable)
    case Finished(failed, message, errText) =>
      || IsBlank(a.errorMessageVariable)
      || (if failed then !IsBlank(message) || IsBlank(errText)
          else Classify(message).0.Error? ==> Classify(message).1 != "")
  }

  lemma ReplayMatchesExecution(a: TaskAssignment, o: StepOutcome, contextCancelled: bool)
    ensures ReplayEffects(a, EndStatus(o, contextCancelled), EndError(o)) == ExecutorEffects(a, o)
            <==> ReplaysFaithfully(a, o)
  {
    if o.Finished? {
      if o.failed { FailedStepReplay(a, o, contextCancelled); } else { EndedStepReplay(a, o, contextCancelled); }
    }
  }

  lemma FailedStepReplay(a: TaskAssignment, o: StepOutcome, contextCancelled: bool)
    requires o.Finished? && o.failed
    ensures ReplayEffects(a, EndStatus(o, contextCancelled), EndError(o)) == ExecutorEffects(a, o)
            <==> ReplaysFaithfully(a, o)
  {
    var base, v := a.resultStates + a.errorResultStates, TrimSpace(a.errorMessageVariable);
    FailureTextNonBlank(o.errText);
    assert Classify(TrimSpace(o.message)) == Classify(o.message);
    SetFirstInjective(base, v, TrimSpace(FailureText(o.message)), TrimSpace(FailureText(EndError(o))));
  }

  lemma EndedStepReplay(a: TaskAssignment, o: StepOutcome, contextCancelled: bool)
    requires o.Finished? && !o.failed
    ensures ReplayEffects(a, EndStatus(o, contextCancelled), EndError(o)) == ExecutorEffects(a, o)
            <==> ReplaysFaithfully(a, o)
  {
    var kind := Classify(o.message).0;
    assert Classify(TrimSpace(o.message)) == Classify(o.message);
    if kind.Error? { ReportedErrorReplay(a, o, contextCancelled); }
  }

  /** A task that ended without a Go error but reported one in its message. */
  lemma ReportedErrorReplay(a: TaskAssignment, o: StepOutcome, contextCancelled: bool)
    requires o.Finished? && !o.failed && Classify(o.message).0.Error?
    ensures ReplayEffects(a, EndStatus(o, contextCancelled), EndError(o)) == ExecutorEffects(a, o)
            <==> ReplaysFaithfully(a, o)
  {
    var base, v, payload := a.resultStates + a.errorResultStates, a.errorMessageVariable, Classify(o.message).1;
    assert Classify(TrimSpace(o.message)) == Classify(o.message);
    assert ReplayEffects(a, EndStatus(o, contextCancelled), EndError(o))
        == WithMessage(base, v, FailureText(o.message));
    assert ExecutorEffects(a, o) == WithMessage(base, v, payload);
    FailureTextNonBlank(o.message);
    SetFirstInjective(base, TrimSpace(v), TrimSpace(payload), TrimSpace(FailureText(o.message)));
  }

  /** The message recorded for a failure: the payload after its prefix, or the raw text. */
  function FailureText(error: string): string {
    if IsBlank(Classify(error).1) then TrimSpace(error) else Classify(error).1
  }

  lemma FailureTextNonBlank(error: string)
    ensures TrimSpace(FailureText(error)) == "" <==> IsBlank(error)
  {
  }

  // ----- writing effects into a state map

  /** What a list of effects writes; the executor keys by the raw variable, the session by the trimmed one. */
  function Writes(effects: seq<PlanningEffect>, trim: bool): (w: State) {
    if effects == [] then map[]
    else
      var e := effects[|effects| - 1];
      var w := Writes(effects[..|effects| - 1], trim);
      if IsBlank(e.variable) then w
      else w[(if trim then TrimSpace(e.variable) else e.variable) := e.value]
  }

  lemma WritesStep(effects: seq<PlanningEffect>, i: nat, trim: bool)
    requires i < |effects|
    ensures Writes(effects[..i + 1], trim) ==
            if IsBlank(effects[i].variable) then Writes(effects[..i], trim)
            else Writes(effects[..i], trim)[
                   (if trim then TrimSpace(effects[i].variable) else effects[i].variable) := effects[i].value]
  {
    assert effects[..i + 1][..i] == effects[..i];
  }

  predicate TidyVariables(effects: seq<PlanningEffect>) {
    forall e :: e in effects && !IsBlank(e.variable) ==> IsTrimmed(e.variable)
  }

  /** Executor and session write the same map exactly when no effect variable carries surrounding space. */
  lemma {:induction false} SameWritesIffTidy(effects: seq<PlanningEffect>)
    ensures Writes(effects, false) == Writes(effects, true) <==> TidyVariables(effects)
  {
    WritesKeys(effects, false);
    WritesKeys(effects, true);
    if TidyVariables(effects) {
      SameWrites(effects);
    } else {
      var e :| e in effects && !IsBlank(e.variable) && !IsTrimmed(e.variable);
      assert e.variable in Writes(effects, false);
      assert e.variable !in Writes(effects, true);
    }
  }

  lemma {:induction false} SameWrites(effects: seq<PlanningEffect>)
    requires TidyVariables(effects)
    ensures Writes(effects, false) == Writes(effects, true)
  {
    if effects != [] {
      assert effects[|effects| - 1] in effects;
      SameWrites(effects[..|effects| - 1]);
    }
  }

  lemma {:induction false} WritesKeys(effects: seq<PlanningEffect>, trim: bool)
    ensures forall k :: k in Writes(effects, trim) <==>
      exists i :: 0 <= i < |effects| && !IsBlank(effects[i].variable)
                  && k == if trim then TrimSpace(effects[i].variable) else effects[i].variable
  {
    if effects != [] {
      WritesKeys(effects[..|effects| - 1], trim);
    }
  }

  // ----- when the two sides write the same

  /** Two effects of the list are on `v`, so the one the message goes to is overwritten. */
  predicate Shadowed(effects: seq<PlanningEffect>, v: string) {
    exists i, j :: 0 <= i < j < |effects| && TrimSpace(effects[i].variable) == v && TrimSpace(effects[j].variable) == v
  }

  predicate AllBlank(effects: seq<PlanningEffect>) { forall e :: e in effects ==> IsBlank(e.variable) }

  /**
   The exact condition for the session to write what the executor wrote. A step that never started must have nothing to
   write; otherwise no effect variable may carry surrounding space, and the message must be replayed faithfully or not
   matter because another effect overwrites its variable.
   */
  predicate WritesAlike(a: TaskAssignment, o: StepOutcome) {
    match o
    case StartFailed(_) =>
      AllBlank(a.resultStates) && AllBlank(a.errorResultStates) && IsBlank(a.errorMessageVariable)
    case Finished(_, _, _) =>
      && TidyVariables(ExecutorEffects(a, o))
      && (ReplaysFaithfully(a, o)
          || Shadowed(a.resultStates + a.errorResultStates, TrimSpace(a.errorMessageVariable)))
  }

  /** What the session writes for a step that ended with the outcome. */
  function ReplayedWrites(a: TaskAssignment, o: StepOutcome, contextCancelled: bool): State {
    Writes(ReplayEffects(a, EndStatus(o, contextCancelled), EndError(o)), true)
  }

  lemma ReplayWritesMatchIff(a: TaskAssignment, o: StepOutcome, contextCancelled: bool)
    ensures ReplayedWrites(a, o, contextCancelled) == Writes(ExecutorEffects(a, o), false) <==> WritesAlike(a, o)
  {
    if o.StartFailed? {
      RefusedStartWrites(a, o, contextCancelled);
    } else if ReplaysFaithfully(a, o) {
      ReplayMatchesExecution(a, o, contextCancelled);
      SameWritesIffTidy(ExecutorEffects(a, o));
    } else {
      var base, v := a.resultStates + a.errorResultStates, TrimSpace(a.errorMessageVariable);
      var m1, m2 := UnfaithfulMessages(a, o, contextCancelled);
      MessagesWriteAlike(base, v, m1, m2);
    }
  }

  /** A bare `e:` and a message variable: the session records a message where the executor cleared it. */
  lemma BareErrorIsReplayedWrong(a: TaskAssignment, contextCancelled: bool)
    requires a.resultStates == [] && a.errorResultStates == [] && a.errorMessageVariable == "msg"
    ensures ReplayedWrites(a, Finished(false, "e:", ""), contextCancelled)
            != Writes(ExecutorEffects(a, Finished(false, "e:", "")), false)
  {
    assert IsTrimmed("e:") && IsTrimmed("msg") && "e:"[..2] == "e:" && "e:"[2..] == "";
    assert Lower("e:") == "e:";
    assert Classify("e:") == (Error, "");
    ReplayWritesMatchIff(a, Finished(false, "e:", ""), contextCancelled);
  }

  lemma RefusedStartWrites(a: TaskAssignment, o: StepOutcome, contextCancelled: bool)
    requires o.StartFailed?
    ensures ReplayedWrites(a, o, contextCancelled) == map[] <==> WritesAlike(a, o)
  {
    var base, v := a.resultStates + a.errorResultStates, a.errorMessageVariable;
    var effects := WithMessage(base, v, FailureText(o.errText));
    assert ReplayedWrites(a, o, contextCancelled) == Writes(effects, true);
    NothingWrittenIff(effects);
    BlankWithMessage(base, v, FailureText(o.errText));
    BlankParts(a.resultStates, a.errorResultStates);
  }

  lemma BlankParts(a: seq<PlanningEffect>, b: seq<PlanningEffect>)
    ensures AllBlank(a + b) <==> AllBlank(a) && AllBlank(b)
  {
    assert forall e :: e in a + b <==> e in a || e in b;
  }

  lemma BlankWithMessage(base: seq<PlanningEffect>, v: string, m: string)
    ensures AllBlank(WithMessage(base, v, m)) <==> AllBlank(base) && IsBlank(v)
  {
    if !IsBlank(v) {
      var effects, i := WithMessage(base, v, m), FirstOn(base, TrimSpace(v));
      assert effects[i] in effects && TrimSpace(effects[i].variable) == TrimSpace(v);
    }
  }

  lemma NothingWrittenIff(effects: seq<PlanningEffect>)
    ensures Writes(effects, true) == map[] <==> AllBlank(effects)
  {
    WritesKeys(effects, true);
    if AllBlank(effects) {
      assert forall i :: 0 <= i < |effects| ==> effects[i] in effects;
      assert Writes(effects, true).Keys == {};
    } else {
      var e :| e in effects && !IsBlank(e.variable);
      assert TrimSpace(e.variable) in Writes(effects, true);
    }
  }

  /** Where the replay is unfaithful, both sides record a message, and the messages differ. */
  lemma UnfaithfulMessages(a: TaskAssignment, o: StepOutcome, contextCancelled: bool) returns (m1: string, m2: string)
    requires o.Finished? && !ReplaysFaithfully(a, o)
    ensures m1 != m2 && !IsBlank(a.errorMessageVariable)
    ensures var base, v := a.resultStates + a.errorResultStates, TrimSpace(a.errorMessageVariable);
            ExecutorEffects(a, o) == SetFirst(base, v, m1)
            && ReplayEffects(a, EndStatus(o, contextCancelled), EndError(o)) == SetFirst(base, v, m2)
  {
    if o.failed { m1, m2 := UnfaithfulFailure(a, o, contextCancelled); }
    else { m1, m2 := UnfaithfulReport(a, o, contextCancelled); }
  }

  lemma UnfaithfulFailure(a: TaskAssignment, o: StepOutcome, contextCancelled: bool) returns (m1: string, m2: string)
    requires o.Finished? && o.failed && !ReplaysFaithfully(a, o)
    ensures m1 != m2
    ensures var base, v := a.resultStates + a.errorResultStates, TrimSpace(a.errorMessageVariable);
            ExecutorEffects(a, o) == SetFirst(base, v, m1)
            && ReplayEffects(a, EndStatus(o, contextCancelled), EndError(o)) == SetFirst(base, v, m2)
  {
    m1, m2 := TrimSpace(FailureText(o.message)), TrimSpace(FailureText(o.errText));
    FailureTextNonBlank(o.message);
    FailureTextNonBlank(o.errText);
    assert EndError(o) == o.errText;
  }

  lemma UnfaithfulReport(a: TaskAssignment, o: StepOutcome, contextCancelled: bool) returns (m1: string, m2: string)
    requires o.Finished? && !o.failed && !ReplaysFaithfully(a, o)
    ensures m1 != m2
    ensures var base, v := a.resultStates + a.errorResultStates, TrimSpace(a.errorMessageVariable);
            ExecutorEffects(a, o) == SetFirst(base, v, m1)
            && ReplayEffects(a, EndStatus(o, contextCancelled), EndError(o)) == SetFirst(base, v, m2)
  {
    var raw := TrimSpace(o.message);
    assert Classify(raw) == Classify(o.message) && EndError(o) == raw;
    m1, m2 := "", TrimSpace(FailureText(raw));
    FailureTextNonBlank(raw);
  }

  /** The last effect on a variable decides what is written. */
  lemma {:induction false} LastEffectWins(effects: seq<PlanningEffect>, trim: bool, k: string, i: nat)
    requires i < |effects| && !IsBlank(effects[i].variable)
    requires k == if trim then TrimSpace(effects[i].variable) else effects[i].variable
    requires forall j :: i < j < |effects| ==>
               IsBlank(effects[j].variable)
               || (if trim then TrimSpace(effects[j].variable) else effects[j].variable) != k
    ensures k in Writes(effects, trim) && Writes(effects, trim)[k] == effects[i].value
  {
    if i < |effects| - 1 { LastEffectWins(effects[..|effects| - 1], trim, k, i); }
  }

  /** Two messages for one variable make no difference if and only if another effect overwrites it. */
  lemma MessagesWriteAlike(base: seq<PlanningEffect>, v: string, m1: string, m2: string)
    requires m1 != m2 && v != "" && IsTrimmed(v)
    ensures Writes(SetFirst(base, v, m2), true) == Writes(SetFirst(base, v, m1), false)
            <==> TidyVariables(SetFirst(base, v, m1)) && Shadowed(base, v)
  {
    var x, y := SetFirst(base, v, m1), SetFirst(base, v, m2);
    SameTidyKeys(base, v, m1, m2);
    if !TidyVariables(x) {
      WritesKeys(x, false);
      WritesKeys(y, true);
      var e :| e in x && !IsBlank(e.variable) && !IsTrimmed(e.variable);
      assert e.variable in Writes(x, false) && e.variable !in Writes(y, true);
    } else {
      SameWritesIffTidy(x);
      MessagesAtVariable(base, v, m1, m2);
    }
  }

  lemma SameTidyKeys(base: seq<PlanningEffect>, v: string, m1: string, m2: string)
    ensures var x, y := SetFirst(base, v, m1), SetFirst(base, v, m2);
            |x| == |y| && (forall i :: 0 <= i < |x| ==> x[i].variable == y[i].variable)
            && (forall i :: 0 <= i < |x| && i != FirstOn(base, v) ==> x[i] == y[i])
  {
  }

  lemma MessagesAtVariable(base: seq<PlanningEffect>, v: string, m1: string, m2: string)
    requires m1 != m2 && v != "" && IsTrimmed(v)
    ensures Writes(SetFirst(base, v, m2), true) == Writes(SetFirst(base, v, m1), true) <==> Shadowed(base, v)
  {
    if Shadowed(base, v) {
      MessageIsOverwritten(base, v, m1, m2);
    } else {
      MessageIsLast(base, v, m1);
      MessageIsLast(base, v, m2);
    }
  }

  lemma MessageIsLast(base: seq<PlanningEffect>, v: string, m: string)
    requires v != "" && IsTrimmed(v) && !Shadowed(base, v)
    ensures v in Writes(SetFirst(base, v, m), true) && Writes(SetFirst(base, v, m), true)[v] == m
  {
    var x, i := SetFirst(base, v, m), FirstOn(base, v);
    assert TrimSpace(x[i].variable) == v && x[i].value == m;
    forall j | i < j < |x| ensures TrimSpace(x[j].variable) != v { assert x[j] == base[j]; }
    LastEffectWins(x, true, v, i);
  }

  lemma MessageIsOverwritten(base: seq<PlanningEffect>, v: string, m1: string, m2: string)
    requires v != "" && Shadowed(base, v)
    ensures Writes(SetFirst(base, v, m2), true) == Writes(SetFirst(base, v, m1), true)
  {
    var x, y, i := SetFirst(base, v, m1), SetFirst(base, v, m2), FirstOn(base, v);
    SameTidyKeys(base, v, m1, m2);
    var c, d :| 0 <= c < d < |base| && TrimSpace(base[c].variable) == v && TrimSpace(base[d].variable) == v;
    assert i <= c < d < |x| && x[d] == base[d] && TrimSpace(x[i].variable) == v;
    WritesRejoin(x, y, i, d, v);
  }

  /** Two states agree but for `v`. */
  ghost predicate SameExcept(a: State, b: State, v: string) {
    forall k :: k != v ==> (k in a <==> k in b) && (k in a ==> a[k] == b[k])
  }

  /** One effect written into a state. */
  function Put(w: State, e: PlanningEffect): State {
    if IsBlank(e.variable) then w else w[TrimSpace(e.variable) := e.value]
  }

  lemma PutKeepsSame(a: State, b: State, v: string, e: PlanningEffect)
    requires SameExcept(a, b, v)
    ensures SameExcept(Put(a, e), Put(b, e), v)
    ensures v != "" && TrimSpace(e.variable) == v ==> Put(a, e) == Put(b, e)
  {
  }

  lemma PutDiffers(a: State, b: State, v: string, e: PlanningEffect, f: PlanningEffect)
    requires SameExcept(a, b, v) && TrimSpace(e.variable) == v && f.variable == e.variable
    ensures SameExcept(Put(a, e), Put(b, f), v)
  {
  }

  lemma WritesPut(effects: seq<PlanningEffect>, n: nat)
    requires n < |effects|
    ensures Writes(effects[..n + 1], true) == Put(Writes(effects[..n], true), effects[n])
  {
    WritesStep(effects, n, true);
  }

  /** Two chains of states that may differ at `v` until `v` is written at step `d`. */
  ghost predicate Rejoin(p: seq<State>, q: seq<State>, v: string, d: nat) {
    && |p| == |q| && d + 1 < |p| && p[0] == q[0]
    && (forall n :: 0 <= n < d && SameExcept(p[n], q[n], v) ==> SameExcept(p[n + 1], q[n + 1], v))
    && (SameExcept(p[d], q[d], v) ==> p[d + 1] == q[d + 1])
    && (forall n :: d < n < |p| - 1 && p[n] == q[n] ==> p[n + 1] == q[n + 1])
  }

  lemma {:induction false} ChainsRejoin(p: seq<State>, q: seq<State>, v: string, d: nat, n: nat)
    requires Rejoin(p, q, v, d) && n < |p|
    ensures if n <= d then SameExcept(p[n], q[n], v) else p[n] == q[n]
  {
    if n > 0 {
      ChainsRejoin(p, q, v, d, n - 1);
      var m := n - 1;
      assert p[m + 1] == p[n] && q[m + 1] == q[n];
    }
  }

  /** `p` is what the effects make of the empty state, step by step. */
  ghost predicate Chain(p: seq<State>, effects: seq<PlanningEffect>) {
    |p| == |effects| + 1 && p[0] == map[] && forall n :: 0 <= n < |effects| ==> p[n + 1] == Put(p[n], effects[n])
  }

  lemma ChainOf(effects: seq<PlanningEffect>) returns (p: seq<State>)
    ensures Chain(p, effects) && p[|effects|] == Writes(effects, true)
  {
    p := seq(|effects| + 1, n requires 0 <= n <= |effects| => Writes(effects[..n], true));
    forall n | 0 <= n < |effects| ensures p[n + 1] == Put(p[n], effects[n]) { WritesPut(effects, n); }
    assert effects[..|effects|] == effects;
  }

  /** Lists that differ only in an effect on `v` write the same when a later effect writes `v` again. */
  lemma WritesRejoin(x: seq<PlanningEffect>, y: seq<PlanningEffect>, i: nat, d: nat, v: string)
    requires |x| == |y| && i < d < |x| && v != ""
    requires TrimSpace(x[i].variable) == v && TrimSpace(x[d].variable) == v
    requires x[i].variable == y[i].variable && forall j :: 0 <= j < |x| && j != i ==> x[j] == y[j]
    ensures Writes(x, true) == Writes(y, true)
  {
    var p := ChainOf(x);
    var q := ChainOf(y);
    ChainsMeet(x, y, p, q, i, d, v);
    ChainsRejoin(p, q, v, d, |x|);
  }

  lemma ChainsMeet(
    x: seq<PlanningEffect>, y: seq<PlanningEffect>, p: seq<State>, q: seq<State>, i: nat, d: nat, v: string)
    requires |x| == |y| && i < d < |x| && v != "" && Chain(p, x) && Chain(q, y)
    requires TrimSpace(x[i].variable) == v && TrimSpace(x[d].variable) == v
    requires x[i].variable == y[i].variable && forall j :: 0 <= j < |x| && j != i ==> x[j] == y[j]
    ensures Rejoin(p, q, v, d)
  {
    forall n | 0 <= n < d && SameExcept(p[n], q[n], v) ensures SameExcept(p[n + 1], q[n + 1], v) {
      OneWrite(p[n], q[n], v, x[n], y[n], n == i);
    }
    if SameExcept(p[d], q[d], v) { OneWrite(p[d], q[d], v, x[d], y[d], false); }
  }

  lemma OneWrite(a: State, b: State, v: string, e: PlanningEffect, f: PlanningEffect, differ: bool)
    requires SameExcept(a, b, v) && v != ""
    requires if differ then TrimSpace(e.variable) == v && f.variable == e.variable else e == f
    ensures SameExcept(Put(a, e), Put(b, f), v)
    ensures !differ && TrimSpace(e.variable) == v ==> Put(a, e) == Put(b, f)
  {
    if differ { PutDiffers(a, b, v, e, f); } else { PutKeepsSame(a, b, v, e); }
  }

  /** applyPlanningEffects followed by UpdatePlanningState. */
  method ApplyPlanningEffects(planning: State, input: seq<PlanningEffect>) returns (updated: State)
    ensures updated == planning + Writes(input, false)
  {
    var effects: State := map[];
    var i := 0;
    while i < |input|
      invariant 0 <= i <= |input|
      invariant effects == Writes(input[..i], false)
    {
      WritesStep(input, i, false);
      if !IsBlank(input[i].variable) {
        effects := effects[input[i].variable := input[i].value];
      }
      i := i + 1;
    }
    assert input[..i] == input;
    updated := planning + effects;
  }
}
