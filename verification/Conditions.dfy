/** Evaluating planning conditions, with the leniency towards stale status and mode telemetry. */
module Conditions {
  import opened Text
  import opened Planning
  import opened Dispatch

  const STATUS := "_status"
  const MODE := "_mode"

  predicate EndsWith(s: string, suffix: string) { |suffix| <= |s| && s[|s| - |suffix|..] == suffix }

  function ValueOf(current: State, key: string): string { if key in current then current[key] else "" }

  /** The condition waits for an agent to be free, so stale telemetry may be overlooked. */
  predicate WaitsForIdle(expected: string) { Lower(TrimSpace(expected)) in {"idle", "ready"} }

  predicate Tells(key: string) {
    EndsWith(Lower(TrimSpace(key)), STATUS) || EndsWith(Lower(TrimSpace(key)), MODE)
  }

  /** How many characters of a status or mode key do not name the agent. */
  function SuffixLength(key: string): nat {
    if EndsWith(Lower(TrimSpace(key)), MODE) then |MODE| else |STATUS|
  }

  /** What names the agent in a status or mode key. */
  function Prefix(key: string): string
    requires SuffixLength(key) <= |key|
  {
    TrimSpace(key[..|key| - SuffixLength(key)])
  }

  /** The agent is known not to execute, yet reports an error or a warning. */
  predicate Stale(current: State, key: string)
    requires SuffixLength(key) <= |key|
  {
    var exec := Prefix(key) + "_is_executing";
    && Prefix(key) != "" && exec in current
    && Lower(TrimSpace(current[exec])) !in {"true", "1", "yes", "running", "executing"}
    && Lower(TrimSpace(ValueOf(current, key))) in {"error", "warning"}
  }

  /**
   normalizePlanningConditionCurrentValue; None where it fails. It cuts seven bytes off the key before it looks whether
   the key ends in the shorter of the two suffixes.
   */
  function CurrentValue(current: State, key: string, expected: string): Option<string> {
    if !WaitsForIdle(expected) || !Tells(key) then Some(ValueOf(current, key))
    else if Bytes(key) < |STATUS| then None
    else
      SuffixFits(key);
      if Stale(current, key) then Some("idle") else Some(ValueOf(current, key))
  }

  lemma SuffixFits(key: string)
    requires Tells(key)
    ensures SuffixLength(key) <= |key|
  {
    TrimLeftShortens(key);
  }

  lemma {:induction false} TrimLeftShortens(s: string)
    ensures |TrimLeft(s)| <= |s|
  {
    if s != "" && IsSpace(s[0]) { TrimLeftShortens(s[1..]); }
  }

  /** It fails if and only if a condition waits for idle or ready on a mode key of fewer than seven bytes. */
  lemma FailsIff(current: State, key: string, expected: string)
    ensures CurrentValue(current, key, expected).None?
            <==> WaitsForIdle(expected) && EndsWith(Lower(TrimSpace(key)), MODE) && Bytes(key) < 7
  {
    TrimLeftShortens(key);
    assert |TrimSpace(key)| <= |key| <= Bytes(key);
  }

  datatype Evaluation = Met | Unmet | Fails

  /** One condition; a blank variable is no condition, and every operator but "!=" means equality. */
  function Evaluate(current: State, c: Condition): Evaluation {
    if IsBlank(c.variable) then Met
    else match CurrentValue(current, TrimSpace(c.variable), c.value)
      case None => Fails
      case Some(v) => if (TrimSpace(c.operator) == "!=") == (v == c.value) then Unmet else Met
  }

  function Evaluator(current: State): Condition -> Evaluation { (c: Condition) => Evaluate(current, c) }

  /** `r` is the answer of a loop that stops at the first condition that is not met. */
  ghost predicate Decides(conditions: seq<Condition>, evaluate: Condition -> Evaluation, r: Evaluation) {
    && (r.Met? <==> forall i :: 0 <= i < |conditions| ==> evaluate(conditions[i]).Met?)
    && (!r.Met? ==>
          exists i :: 0 <= i < |conditions| && evaluate(conditions[i]) == r && MetBefore(conditions, evaluate, i))
  }

  ghost predicate MetBefore(conditions: seq<Condition>, evaluate: Condition -> Evaluation, i: int)
    requires i <= |conditions|
  {
    forall j :: 0 <= j < i ==> evaluate(conditions[j]).Met?
  }

  /** planningConditionsMet: the first condition that is unmet or fails decides; without one all are met. */
  method ConditionsMet(current: State, conditions: seq<Condition>) returns (r: Evaluation)
    ensures Decides(conditions, Evaluator(current), r)
  {
    r := FirstNotMet(conditions, Evaluator(current));
  }

  method FirstNotMet(conditions: seq<Condition>, evaluate: Condition -> Evaluation) returns (r: Evaluation)
    ensures Decides(conditions, evaluate, r)
  {
    for k := 0 to |conditions|
      invariant MetBefore(conditions, evaluate, k)
    {
      r := evaluate(conditions[k]);
      if !r.Met? { return; }
    }
    r := Met;
  }

  /** The short key `a_mode` makes the evaluation fail although the state has a value for it. */
  lemma ShortModeKeyFails(current: State)
    ensures CurrentValue(current, "a_mode", "idle") == None
  {
    assert IsTrimmed("a_mode") && IsTrimmed("idle");
    assert Lower("idle") == "idle";
    assert Lower("a_mode") == "a_mode";
    assert "a_mode"[1..] == MODE;
    assert Bytes("a_mode") == 6 by { AsciiBytes("a_mode"); }
    FailsIff(current, "a_mode", "idle");
  }

  /** The leniency only ever turns a stale error or warning into idle. */
  lemma OnlyStaleValuesChange(current: State, key: string, expected: string)
    ensures var v := CurrentValue(current, key, expected);
            v.Some? && v.value != ValueOf(current, key) ==>
              v.value == "idle" && WaitsForIdle(expected) && SuffixLength(key) <= |key| && Stale(current, key)
  {
    if Tells(key) { SuffixFits(key); }
  }

  // ----- the leniency in the words of keys and values

  /** The key is the agent's prefix and a suffix, in any case, for its status or its mode. */
  predicate IsReportOf(key: string, p: string, s: string) {
    key == p + s && (Lower(s) == "_status" || Lower(s) == "_mode")
  }

  /** The agent `p` is on record as not executing, and the value is an error or a warning. */
  predicate IsStaleReport(current: State, p: string, value: string) {
    var exec := TrimSpace(p) + "_is_executing";
    && TrimSpace(p) != "" && exec in current
    && (var e := Lower(TrimSpace(current[exec]));
        e != "true" && e != "1" && e != "yes" && e != "running" && e != "executing")
    && (var v := Lower(TrimSpace(value)); v == "error" || v == "warning")
  }

  predicate AsksForIdle(expected: string) {
    var e := Lower(TrimSpace(expected));
    e == "idle" || e == "ready"
  }

  lemma SuffixSplits(key: string, suffix: string)
    ensures EndsWith(Lower(key), suffix) <==>
              |suffix| <= |key| && Lower(key[|key| - |suffix|..]) == suffix
  {
    if |suffix| <= |key| {
      var k := |key| - |suffix|;
      assert Lower(key)[k..] == Lower(key[k..]);
    }
  }

  /** A split of the key into prefix and suffix is the code's. */
  lemma ReportIsRead(key: string, p: string, s: string)
    requires IsTrimmed(key) && IsReportOf(key, p, s)
    ensures Tells(key) && SuffixLength(key) <= |key|
    ensures p == key[..|key| - SuffixLength(key)]
  {
    var n := |Lower(s)|;
    assert |s| == n && key[|key| - n..] == s && key[..|key| - n] == p;
    SuffixSplits(key, Lower(s));
    SuffixIsOne(Lower(key));
  }

  lemma SuffixIsOne(k: string)
    ensures EndsWith(k, "_status") ==> !EndsWith(k, "_mode")
  {
    LastCharacter(k, "_status");
    LastCharacter(k, "_mode");
  }

  lemma LastCharacter(k: string, suffix: string)
    requires suffix != ""
    ensures EndsWith(k, suffix) ==> k != "" && k[|k| - 1] == suffix[|suffix| - 1]
  {
    if EndsWith(k, suffix) { assert k[|k| - |suffix|..][|suffix| - 1] == k[|k| - 1]; }
  }

  /** A status or mode key has a split. */
  lemma ReportHasSplit(key: string) returns (p: string, s: string)
    requires IsTrimmed(key) && Tells(key)
    ensures IsReportOf(key, p, s)
  {
    SuffixFits(key);
    var n := |key| - SuffixLength(key);
    p, s := key[..n], key[n..];
    SuffixSplits(key, "_status");
    SuffixSplits(key, "_mode");
  }

  /**
   A condition reads the recorded value, except that it reads idle exactly when it asks for idle or ready and the key is
   a stale report.
   */
  lemma ReadAsIdleIff(current: State, key: string, expected: string)
    requires IsTrimmed(key) && CurrentValue(current, key, expected).Some?
    ensures CurrentValue(current, key, expected).value
            == if AsksForIdle(expected)
                  && exists p, s :: IsReportOf(key, p, s) && IsStaleReport(current, p, ValueOf(current, key))
               then "idle" else if key in current then current[key] else ""
  {
    if Tells(key) {
      var p, s := ReportHasSplit(key);
      ReportIsRead(key, p, s);
      StaleIsReport(current, key, p);
    }
    forall p, s | IsReportOf(key, p, s)
      ensures Tells(key) && SuffixLength(key) <= |key| && p == key[..|key| - SuffixLength(key)]
    {
      ReportIsRead(key, p, s);
    }
  }

  lemma StaleIsReport(current: State, key: string, p: string)
    requires SuffixLength(key) <= |key| && p == key[..|key| - SuffixLength(key)]
    ensures Stale(current, key) <==> IsStaleReport(current, p, ValueOf(current, key))
  {
  }

  /** A condition on a blank variable is met; any other compares what it reads, for being equal unless it says `!=`. */
  lemma MetIff(current: State, c: Condition)
    ensures Evaluate(current, c) == Met <==>
              || TrimSpace(c.variable) == ""
              || (var v := CurrentValue(current, TrimSpace(c.variable), c.value);
                  v != None && (if TrimSpace(c.operator) == "!=" then v.value != c.value else v.value == c.value))
  {
  }
}
