/** What a finished step leaves in the planner state, said in the words of its message. */
module Outcomes {
  import opened Text
  import opened Planning
  import opened Effects

  /** The text `t` starts with the letter, small or capital, and a colon. */
  predicate Tagged(t: string, small: char, capital: char) {
    |t| >= 2 && t[1] == ':' && (t[0] == small || t[0] == capital)
  }

  function KeyOf(e: PlanningEffect, trim: bool): string { if trim then TrimSpace(e.variable) else e.variable }

  /** Effect `i` is the last on the state key `k`. */
  ghost predicate LastOnKey(effects: seq<PlanningEffect>, trim: bool, k: string, i: int) {
    && 0 <= i < |effects| && !IsBlank(effects[i].variable) && KeyOf(effects[i], trim) == k
    && (forall j :: i < j < |effects| && !IsBlank(effects[j].variable) ==> KeyOf(effects[j], trim) != k)
  }

  /** No earlier effect is on the variable of effect `i`. */
  ghost predicate FirstOnVariable(effects: seq<PlanningEffect>, i: int)
    requires 0 <= i < |effects|
  {
    forall j :: 0 <= j < i ==> TrimSpace(effects[j].variable) != TrimSpace(effects[i].variable)
  }

  /**
   `after` is `before` with the effects taken up in turn and the message put where the first effect on the variable `v`
   stands, or at the end when there is none. Without a variable there is no message.
   */
  ghost predicate TakesUp(
    before: State, after: State, effects: seq<PlanningEffect>, v: string, message: string, trim: bool)
  {
    && (forall i, k :: LastOnKey(effects, trim, k, i) ==>
          && k in after
          && after[k] == if v != "" && TrimSpace(effects[i].variable) == v && FirstOnVariable(effects, i) then message
                         else effects[i].value)
    && (v != "" && (forall i :: 0 <= i < |effects| ==> TrimSpace(effects[i].variable) != v) ==>
          v in after && after[v] == message)
    && (forall k :: (forall i :: !LastOnKey(effects, trim, k, i))
                    && (k != v || k == "" || exists i :: 0 <= i < |effects| && TrimSpace(effects[i].variable) == v) ==>
          (k in after <==> k in before) && (k in before ==> after[k] == before[k]))
  }

  lemma {:induction false} WrittenHasLast(effects: seq<PlanningEffect>, trim: bool, k: string) returns (i: nat)
    requires k in Writes(effects, trim)
    ensures LastOnKey(effects, trim, k, i) && Writes(effects, trim)[k] == effects[i].value
  {
    i := |effects| - 1;
    if IsBlank(effects[i].variable) || KeyOf(effects[i], trim) != k {
      var front, last := effects[..i], effects[i];
      assert effects == front + [last];
      OtherKeyWrites(front, last, trim, k);
      i := WrittenHasLast(front, trim, k);
      OtherKeyLast(front, last, trim, k, i);
    }
  }

  lemma OtherKeyWrites(front: seq<PlanningEffect>, last: PlanningEffect, trim: bool, k: string)
    requires IsBlank(last.variable) || KeyOf(last, trim) != k
    ensures k in Writes(front + [last], trim) <==> k in Writes(front, trim)
    ensures k in Writes(front, trim) ==> Writes(front + [last], trim)[k] == Writes(front, trim)[k]
  {
    assert (front + [last])[..|front|] == front;
  }

  lemma OtherKeyLast(front: seq<PlanningEffect>, last: PlanningEffect, trim: bool, k: string, i: int)
    requires IsBlank(last.variable) || KeyOf(last, trim) != k
    requires LastOnKey(front, trim, k, i)
    ensures LastOnKey(front + [last], trim, k, i)
  {
  }

  lemma LastIsWritten(effects: seq<PlanningEffect>, trim: bool, k: string, i: int)
    requires LastOnKey(effects, trim, k, i)
    ensures k in Writes(effects, trim) && Writes(effects, trim)[k] == effects[i].value
  {
    LastEffectWins(effects, trim, k, i);
  }

  lemma NoMessageTaken(before: State, effects: seq<PlanningEffect>, message: string, trim: bool)
    ensures TakesUp(before, before + Writes(effects, trim), effects, "", message, trim)
  {
    forall i, k | LastOnKey(effects, trim, k, i)
      ensures k in Writes(effects, trim) && Writes(effects, trim)[k] == effects[i].value
    {
      LastIsWritten(effects, trim, k, i);
    }
    forall k | forall i :: !LastOnKey(effects, trim, k, i) ensures k !in Writes(effects, trim) {
      if k in Writes(effects, trim) { var i := WrittenHasLast(effects, trim, k); }
    }
  }

  lemma MessageReplaced(before: State, base: seq<PlanningEffect>, v: string, message: string, trim: bool)
    requires v != "" && FirstOn(base, v) < |base|
    ensures TakesUp(before, before + Writes(SetFirst(base, v, message), trim), base, v, message, trim)
  {
    var x, f := SetFirst(base, v, message), FirstOn(base, v);
    forall i, k ensures LastOnKey(base, trim, k, i) <==> LastOnKey(x, trim, k, i) {
      SameKeys(base, x, trim, k, i);
    }
    forall i, k | LastOnKey(base, trim, k, i)
      ensures k in Writes(x, trim) && Writes(x, trim)[k] == x[i].value
      ensures i == f <==> TrimSpace(base[i].variable) == v && FirstOnVariable(base, i)
    {
      LastIsWritten(x, trim, k, i);
    }
    forall k | forall i :: !LastOnKey(base, trim, k, i) ensures k !in Writes(x, trim) {
      if k in Writes(x, trim) { var i := WrittenHasLast(x, trim, k); }
    }
  }

  lemma SameKeys(a: seq<PlanningEffect>, b: seq<PlanningEffect>, trim: bool, k: string, i: int)
    requires |a| == |b| && forall j :: 0 <= j < |a| ==> a[j].variable == b[j].variable
    ensures LastOnKey(a, trim, k, i) <==> LastOnKey(b, trim, k, i)
  {
  }

  lemma WritesAppend(base: seq<PlanningEffect>, v: string, message: string, trim: bool)
    requires v != "" && IsTrimmed(v) && FirstOn(base, v) == |base|
    ensures Writes(SetFirst(base, v, message), trim) == Writes(base, trim)[v := message]
  {
    var x := base + [PlanningEffect(v, message)];
    assert x[..|base|] == base;
  }

  lemma MessageAppended(before: State, base: seq<PlanningEffect>, v: string, message: string, trim: bool)
    requires v != "" && IsTrimmed(v) && FirstOn(base, v) == |base|
    ensures TakesUp(before, before + Writes(SetFirst(base, v, message), trim), base, v, message, trim)
  {
    var w := Writes(base, trim);
    WritesAppend(base, v, message, trim);
    forall i, k | LastOnKey(base, trim, k, i) ensures k != v && k in w && w[k] == base[i].value {
      LastIsWritten(base, trim, k, i);
    }
    forall k | forall i :: !LastOnKey(base, trim, k, i) ensures k !in w {
      if k in w { var i := WrittenHasLast(base, trim, k); }
    }
  }

  /** What appending the message and writing the effects comes to. */
  lemma MessageTaken(before: State, base: seq<PlanningEffect>, variable: string, message: string, trim: bool)
    ensures TakesUp(before, before + Writes(WithMessage(base, variable, message), trim),
                    base, TrimSpace(variable), TrimSpace(message), trim)
  {
    var v, m := TrimSpace(variable), TrimSpace(message);
    if v == "" { NoMessageTaken(before, base, m, trim); }
    else if FirstOn(base, v) < |base| { MessageReplaced(before, base, v, m, trim); }
    else { MessageAppended(before, base, v, m, trim); }
  }

  // ----- the branches

  /** The class of a message is read off its first two characters. */
  lemma ClassIsTag(message: string)
    ensures var t := TrimSpace(message);
            Classify(message) == if Tagged(t, 'w', 'W') then (Warning, TrimSpace(t[2..]))
                                 else if Tagged(t, 'e', 'E') then (Error, TrimSpace(t[2..]))
                                 else (NoClass, t)
  {
    var t := TrimSpace(message);
    if |t| >= 2 {
      var p := Lower(t[..2]);
      assert p[0] == LowerChar(t[0]) && p[1] == LowerChar(t[1]);
      assert p == [p[0], p[1]];
    }
  }

  /** The message after its tag, unless nothing follows the tag. */
  function AfterTag(t: string): string {
    if (Tagged(t, 'w', 'W') || Tagged(t, 'e', 'E')) && !IsBlank(t[2..]) then TrimSpace(t[2..]) else t
  }

  /**
   What dispatchStep leaves when a started task has ended. A task that failed leaves its result and error effects and
   what was told; one that did not leaves its result effects, and on `w:` or `e:` also its warning or error effects and
   the rest of the message.
   */
  ghost predicate Leaves(
    a: TaskAssignment, failed: bool, message: string, errText: string, contextCancelled: bool, before: State,
    after: State, status: StepStatus, error: string)
  {
    var t := TrimSpace(message);
    if failed then
      && TakesUp(before, after, a.resultStates + a.errorResultStates, TrimSpace(a.errorMessageVariable),
                 AfterTag(t), false)
      && status == (if contextCancelled || Contains(Lower(errText), "cancel") then Cancelled else Failed)
      && error == if t != "" then t else errText
    else if Tagged(t, 'w', 'W') then
      && TakesUp(before, after, a.resultStates + a.warningResultStates, TrimSpace(a.warningMessageVariable),
                 TrimSpace(t[2..]), false)
      && status == Completed && error == t
    else if Tagged(t, 'e', 'E') then
      && TakesUp(before, after, a.resultStates + a.errorResultStates, TrimSpace(a.errorMessageVariable),
                 TrimSpace(t[2..]), false)
      && status == Failed && error == t
    else TakesUp(before, after, a.resultStates, "", "", false) && status == Completed && error == ""
  }

  /** What the session leaves when it replays a step recorded with the status and the text. */
  ghost predicate Replays(a: TaskAssignment, status: StepStatus, error: string, before: State, after: State) {
    var t := TrimSpace(error);
    if status == Failed || status == Cancelled then
      TakesUp(before, after, a.resultStates + a.errorResultStates, TrimSpace(a.errorMessageVariable), AfterTag(t), true)
    else if Tagged(t, 'w', 'W') then
      TakesUp(before, after, a.resultStates + a.warningResultStates, TrimSpace(a.warningMessageVariable),
              TrimSpace(t[2..]), true)
    else if Tagged(t, 'e', 'E') then
      TakesUp(before, after, a.resultStates + a.errorResultStates, TrimSpace(a.errorMessageVariable),
              TrimSpace(t[2..]), true)
    else TakesUp(before, after, a.resultStates, "", "", true)
  }

  lemma ExecutionLeaves(
    a: TaskAssignment, failed: bool, message: string, errText: string, contextCancelled: bool, before: State)
    ensures var o := Finished(failed, message, errText);
            Leaves(a, failed, message, errText, contextCancelled, before,
                   before + Writes(ExecutorEffects(a, o), false), EndStatus(o, contextCancelled), EndError(o))
  {
    var t := TrimSpace(message);
    ClassIsTag(message);
    if failed {
      MessageTaken(before, a.resultStates + a.errorResultStates, a.errorMessageVariable, AfterTag(t), false);
    } else if Tagged(t, 'w', 'W') {
      MessageTaken(before, a.resultStates + a.warningResultStates, a.warningMessageVariable, t[2..], false);
    } else if Tagged(t, 'e', 'E') {
      MessageTaken(before, a.resultStates + a.errorResultStates, a.errorMessageVariable, t[2..], false);
    } else {
      NoMessageTaken(before, a.resultStates, "", false);
    }
  }

  lemma ReplayLeaves(a: TaskAssignment, status: StepStatus, error: string, before: State)
    ensures Replays(a, status, error, before, before + Writes(ReplayEffects(a, status, error), true))
  {
    var t := TrimSpace(error);
    ClassIsTag(error);
    if status.Failed? || status.Cancelled? {
      MessageTaken(before, a.resultStates + a.errorResultStates, a.errorMessageVariable, AfterTag(t), true);
    } else if Tagged(t, 'w', 'W') {
      MessageTaken(before, a.resultStates + a.warningResultStates, a.warningMessageVariable, t[2..], true);
    } else if Tagged(t, 'e', 'E') {
      MessageTaken(before, a.resultStates + a.errorResultStates, a.errorMessageVariable, t[2..], true);
    } else {
      NoMessageTaken(before, a.resultStates, "", true);
    }
  }
}
