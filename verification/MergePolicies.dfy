/** The merge policies a session works with: the defaults, overridden and extended by those of its task distributor. */
module MergePolicies {
  import opened Text
  import opened MergeState

  /** A policy as stored. */
  datatype RawPolicy = RawPolicy(pattern: string, priority: string)

  const AGENT_NAME := "{{agent.name}}"
  const RESOURCE_NAME := "{{resource.name}}"

  const DEFAULTS := [
    Policy(AGENT_NAME + "_status", true), Policy(AGENT_NAME + "_mode", true), Policy(AGENT_NAME + "_location", true),
    Policy(AGENT_NAME + "_battery_*", true), Policy(AGENT_NAME + "_*msg*", false),
    Policy(RESOURCE_NAME + "_status", true), Policy(RESOURCE_NAME + "_location", true),
    Policy(RESOURCE_NAME + "_reserved_by", false), Policy(RESOURCE_NAME + "_*msg*", false)]

  predicate Usable(r: RawPolicy) { !IsBlank(r.pattern) && Lower(TrimSpace(r.priority)) in {"live", "planner"} }

  function Read(r: RawPolicy): Policy { Policy(TrimSpace(r.pattern), Lower(TrimSpace(r.priority)) == "live") }

  /** cloneStateMergePolicies: unusable policies are dropped. */
  function Cleaned(raws: seq<RawPolicy>): (r: seq<Policy>)
    ensures |r| <= |raws|
  {
    if raws == [] then []
    else Cleaned(raws[..|raws| - 1]) + if Usable(raws[|raws| - 1]) then [Read(raws[|raws| - 1])] else []
  }

  method Clean(raws: seq<RawPolicy>) returns (cleaned: seq<Policy>)
    ensures cleaned == Cleaned(raws)
  {
    cleaned := [];
    for i := 0 to |raws|
      invariant cleaned == Cleaned(raws[..i])
    {
      assert raws[..i + 1][..i] == raws[..i];
      if Usable(raws[i]) { cleaned := cleaned + [Read(raws[i])]; }
    }
    assert raws[..|raws|] == raws;
  }

  ghost predicate DistinctPatterns(ps: seq<Policy>) {
    forall i, j :: 0 <= i < j < |ps| ==> ps[i].pattern != ps[j].pattern
  }

  /** The position of the pattern, or the length of the list. */
  function IndexOf(ps: seq<Policy>, pattern: string): (i: nat)
    ensures i <= |ps| && (i < |ps| ==> ps[i].pattern == pattern)
    ensures forall k :: 0 <= k < i ==> ps[k].pattern != pattern
  {
    if ps == [] || ps[0].pattern == pattern then 0 else 1 + IndexOf(ps[1..], pattern)
  }

  /** A policy replaces the one with its pattern, or goes to the end. */
  function Added(base: seq<Policy>, p: Policy): seq<Policy> {
    var i := IndexOf(base, p.pattern);
    if i < |base| then base[i := p] else base + [p]
  }

  function AllAdded(base: seq<Policy>, ps: seq<Policy>): (r: seq<Policy>)
    ensures |base| <= |r| <= |base| + |ps|
  {
    if ps == [] then base else Added(AllAdded(base, ps[..|ps| - 1]), ps[|ps| - 1])
  }

  function Normalized(raws: seq<RawPolicy>): (r: seq<Policy>)
    ensures |DEFAULTS| <= |r| <= |DEFAULTS| + |raws|
  {
    AllAdded(DEFAULTS, Cleaned(raws))
  }

  /** `index` leads from every pattern of the list to its position. */
  ghost predicate Indexes(index: map<string, nat>, ps: seq<Policy>) {
    && (forall k :: k in index ==> index[k] < |ps| && ps[index[k]].pattern == k)
    && (forall i :: 0 <= i < |ps| ==> ps[i].pattern in index && index[ps[i].pattern] == i)
  }

  /** normalizeStateMergePolicies */
  method Normalize(raws: seq<RawPolicy>) returns (base: seq<Policy>)
    ensures base == Normalized(raws)
  {
    base := DEFAULTS;
    if raws == [] { return; }
    DefaultsAreDistinct();
    var index := IndexAll(base);
    var values := Clean(raws);
    base := AddAll(base, index, values);
  }

  method IndexAll(ps: seq<Policy>) returns (index: map<string, nat>)
    requires DistinctPatterns(ps)
    ensures Indexes(index, ps)
  {
    index := map[];
    for i := 0 to |ps|
      invariant Indexes(index, ps[..i])
    {
      assert ps[i].pattern !in index;
      index := index[ps[i].pattern := i];
    }
    assert ps[..|ps|] == ps;
  }

  method AddAll(before: seq<Policy>, known: map<string, nat>, values: seq<Policy>) returns (base: seq<Policy>)
    requires Indexes(known, before)
    ensures base == AllAdded(before, values)
  {
    base := before;
    var index: map<string, nat> := known;
    for i := 0 to |values|
      invariant base == AllAdded(before, values[..i]) && Indexes(index, base)
    {
      assert values[..i + 1][..i] == values[..i];
      var p := values[i];
      if p.pattern in index {
        base := base[index[p.pattern] := p];
      } else {
        index := index[p.pattern := |base|];
        base := base + [p];
      }
    }
    assert values[..|values|] == values;
  }

  lemma DefaultsAreDistinct()
    ensures DistinctPatterns(DEFAULTS)
  {
    var third := seq(9, i requires 0 <= i < 9 => DEFAULTS[i].pattern[2]);
    assert third == ['a', 'a', 'a', 'a', 'a', 'r', 'r', 'r', 'r'];
    var key := seq(9, i requires 0 <= i < 9 =>
      DEFAULTS[i].pattern[(if i < 5 then |AGENT_NAME| else |RESOURCE_NAME|) + 1]);
    assert key == ['s', 'm', 'l', 'b', '*', 's', 'l', 'r', '*'];
    forall i, j | 0 <= i < j < 9 ensures DEFAULTS[i].pattern != DEFAULTS[j].pattern {
      assert third[i] != third[j] || key[i] != key[j];
    }
  }

  /** The defaults stay in front with their patterns, every pattern occurs once, and the last word on it counts. */
  lemma {:induction false} AddedPolicies(base: seq<Policy>, ps: seq<Policy>)
    requires DistinctPatterns(base)
    ensures var r := AllAdded(base, ps);
            && DistinctPatterns(r)
            && (forall i :: 0 <= i < |base| ==> r[i].pattern == base[i].pattern)
            && (forall i :: 0 <= i < |ps| && (forall j :: i < j < |ps| ==> ps[j].pattern != ps[i].pattern) ==>
                  ps[i] in r)
  {
    if ps != [] {
      var front, p := ps[..|ps| - 1], ps[|ps| - 1];
      AddedPolicies(base, front);
      var m := AllAdded(base, front);
      AddedKeeps(m, p);
      forall i | 0 <= i < |ps| && forall j :: i < j < |ps| ==> ps[j].pattern != ps[i].pattern
        ensures ps[i] in Added(m, p)
      {
        if i < |front| {
          assert front[i] == ps[i] && ps[|ps| - 1].pattern != ps[i].pattern;
          assert forall j :: i < j < |front| ==> front[j] == ps[j];
          assert front[i] in m;
        }
      }
    }
  }

  lemma AddedKeeps(m: seq<Policy>, p: Policy)
    requires DistinctPatterns(m)
    ensures var r := Added(m, p);
            && DistinctPatterns(r) && p in r && (forall i :: 0 <= i < |m| ==> r[i].pattern == m[i].pattern)
            && forall q :: q in m && q.pattern != p.pattern ==> q in r
  {
    var r, i := Added(m, p), IndexOf(m, p.pattern);
    assert r[i] == p;
    forall q | q in m && q.pattern != p.pattern ensures q in r {
      var k :| 0 <= k < |m| && m[k] == q;
      assert r[k] == q;
    }
  }

  // ----- specificity

  lemma {:induction false} NothingToStrip(s: string, what: string)
    requires what != "" && what[0] !in s
    ensures Without(s, what) == s
  {
    if s != "" {
      NothingToStrip(s[1..], what);
      assert s == [s[0]] + s[1..];
    }
  }

  lemma {:induction false} PlainIsStripped(s: string, n: nat)
    requires n <= |PLACEHOLDERS| && '{' !in s && '*' !in s
    ensures Stripped(s, n) == s
  {
    if n > 0 {
      PlainIsStripped(s, n - 1);
      NothingToStrip(s, PLACEHOLDERS[n - 1]);
    }
  }

  /** The specificity of a pattern that starts with an agent's name, or with a star, is the length of the rest. */
  lemma {:induction false} AgentPattern(rest: string, n: nat)
    requires 0 < n <= |PLACEHOLDERS| && '{' !in rest && '*' !in rest
    ensures Stripped(AGENT_NAME + rest, n) == rest
  {
    if n == 1 {
      var s := AGENT_NAME + rest;
      assert Stripped(s, 0) == s && AGENT_NAME <= s && s[|AGENT_NAME|..] == rest;
      NothingToStrip(rest, AGENT_NAME);
    } else {
      AgentPattern(rest, n - 1);
      NothingToStrip(rest, PLACEHOLDERS[n - 1]);
    }
  }

  lemma {:induction false} StarPattern(rest: string, n: nat)
    requires n < |PLACEHOLDERS| && '{' !in rest && '*' !in rest
    ensures Stripped("*" + rest, n) == "*" + rest
  {
    if n > 0 {
      StarPattern(rest, n - 1);
      NothingToStrip("*" + rest, PLACEHOLDERS[n - 1]);
    }
  }

  lemma AgentSpecificity(rest: string)
    requires IsTrimmed(rest) && rest != "" && '{' !in rest && '*' !in rest
    ensures Specificity(AGENT_NAME + rest) == Bytes(rest)
  {
    AgentPattern(rest, |PLACEHOLDERS|);
    Untrimmed(AGENT_NAME, rest);
  }

  lemma StarSpecificity(rest: string)
    requires IsTrimmed(rest) && rest != "" && '{' !in rest && '*' !in rest
    ensures Specificity("*" + rest) == Bytes(rest)
  {
    StarPattern(rest, |PLACEHOLDERS| - 1);
    StripStar(rest);
    Untrimmed("*", rest);
  }

  lemma StripStar(rest: string)
    requires '*' !in rest
    ensures Without("*" + rest, "*") == rest
  {
    var s := "*" + rest;
    assert "*" <= s && s[1..] == rest;
    NothingToStrip(rest, "*");
  }

  lemma Untrimmed(a: string, b: string)
    requires a != "" && b != "" && IsTrimmed(b) && !IsSpace(a[0])
    ensures TrimSpace(a + b) == a + b
  {
    assert (a + b)[0] == a[0] && (a + b)[|a + b| - 1] == b[|b| - 1];
    assert IsTrimmed(a + b);
  }

  // ----- how many policies the score can bear

  const STATUS := AGENT_NAME + "_status"

  /** A planner policy for one agent's status key, one character more specific than the first default. */
  const LATE := Policy("*" + "1_status", false)

  function Zs(n: nat): (s: string)
    ensures |s| == n && forall k :: 0 <= k < n ==> s[k] == 'z'
  {
    seq(n, _ => 'z')
  }

  /** A distributor's policies that put LATE at position 100 of the session's list of n. */
  function Crowd(n: nat): (r: seq<RawPolicy>)
    requires n > 100
    ensures |r| == n - 9
  {
    seq(n - 9, i requires 0 <= i < n - 9 => CrowdPolicy(i))
  }

  function CrowdPolicy(i: nat): RawPolicy {
    if i == 91 then RawPolicy(LATE.pattern, "planner") else RawPolicy(Zs(i + 1), "live")
  }

  function CrowdReading(i: nat): Policy { if i == 91 then LATE else Policy(Zs(i + 1), true) }

  lemma CrowdPolicyIsRead(i: nat)
    ensures Usable(CrowdPolicy(i)) && Read(CrowdPolicy(i)) == CrowdReading(i)
  {
    if i == 91 { ReadsAs(CrowdPolicy(i), LATE.pattern, "planner", false); }
    else { ReadsAs(CrowdPolicy(i), Zs(i + 1), "live", true); }
  }

  function AllRead(raws: seq<RawPolicy>): (r: seq<Policy>)
    ensures |r| == |raws|
  {
    seq(|raws|, i requires 0 <= i < |raws| => Read(raws[i]))
  }

  lemma {:induction false} AllUsable(raws: seq<RawPolicy>)
    requires forall r :: r in raws ==> Usable(r)
    ensures Cleaned(raws) == AllRead(raws)
  {
    if raws != [] {
      var front, last := raws[..|raws| - 1], raws[|raws| - 1];
      assert raws == front + [last];
      AllUsable(front);
      ReadLast(raws, front, last);
      CleanLast(raws, front, last);
    }
  }

  lemma CleanLast(raws: seq<RawPolicy>, front: seq<RawPolicy>, last: RawPolicy)
    requires raws == front + [last] && Usable(last)
    ensures Cleaned(raws) == Cleaned(front) + [Read(last)]
  {
    assert raws[..|raws| - 1] == front;
  }

  lemma ReadLast(raws: seq<RawPolicy>, front: seq<RawPolicy>, last: RawPolicy)
    requires raws == front + [last]
    ensures AllRead(raws) == AllRead(front) + [Read(last)]
  {
  }

  lemma {:induction false} FreshAreAppended(base: seq<Policy>, ps: seq<Policy>)
    requires DistinctPatterns(base + ps)
    ensures AllAdded(base, ps) == base + ps
  {
    if ps != [] {
      var front, p := ps[..|ps| - 1], ps[|ps| - 1];
      assert base + ps == base + front + [p];
      assert DistinctPatterns(base + front) by {
        forall i, j | 0 <= i < j < |base + front| ensures (base + front)[i].pattern != (base + front)[j].pattern {
          assert (base + front)[i] == (base + ps)[i] && (base + front)[j] == (base + ps)[j];
        }
      }
      FreshAreAppended(base, front);
      forall k | 0 <= k < |base + front| ensures (base + front)[k].pattern != p.pattern {
        assert (base + ps)[k] == (base + front)[k] && (base + ps)[|base + front|] == p;
      }
    }
  }

  lemma PriorityWords()
    ensures Lower(TrimSpace("live")) == "live" && Lower(TrimSpace("planner")) == "planner"
  {
    assert IsTrimmed("live") && IsTrimmed("planner");
    assert Lower("live") == "live";
    assert Lower("planner") == "planner";
  }

  /** What the session reads of the crowd. */
  lemma CrowdIsRead(n: nat)
    requires n > 100
    ensures var ps := Cleaned(Crowd(n));
            |ps| == n - 9 && Fills(ps)
  {
    var raws := Crowd(n);
    forall i | 0 <= i < |raws| ensures Usable(raws[i]) && Read(raws[i]) == CrowdReading(i) { CrowdPolicyIsRead(i); }
    AllUsable(raws);
  }

  lemma ReadsAs(r: RawPolicy, pattern: string, priority: string, live: bool)
    requires r == RawPolicy(pattern, priority) && pattern != "" && IsTrimmed(pattern)
    requires priority == if live then "live" else "planner"
    ensures Usable(r) && Read(r) == Policy(pattern, live)
  {
    PriorityWords();
  }

  /** A list that starts with the defaults; LATE is at position 100 and the others are fillers. */
  ghost predicate IsCrowded(ps: seq<Policy>) {
    && |ps| > 100 && DEFAULTS <= ps && ps[100] == LATE
    && forall i :: 9 <= i < |ps| && i != 100 ==> IsFiller(ps[i].pattern)
  }

  predicate IsFiller(s: string) { s != "" && s[0] == 'z' }

  lemma CrowdIsNormalized(n: nat)
    requires n > 100
    ensures |Normalized(Crowd(n))| == n && IsCrowded(Normalized(Crowd(n)))
  {
    var ps := Cleaned(Crowd(n));
    CrowdIsRead(n);
    CrowdIsDistinct(DEFAULTS, ps);
    FreshAreAppended(DEFAULTS, ps);
    CrowdFollows(DEFAULTS, ps);
  }

  /** A list of fillers with LATE among them. */
  ghost predicate Fills(ps: seq<Policy>) {
    forall i :: 0 <= i < |ps| ==> ps[i] == CrowdReading(i)
  }

  lemma CrowdIsDistinct(base: seq<Policy>, ps: seq<Policy>)
    requires base == DEFAULTS && Fills(ps)
    ensures DistinctPatterns(base + ps)
  {
    DefaultsAreDistinct();
    assert forall i :: 0 <= i < |base| ==> base[i].pattern[0] == '{';
    FillersAreDistinct(base, ps);
  }

  lemma FillersAreDistinct(base: seq<Policy>, ps: seq<Policy>)
    requires DistinctPatterns(base) && Fills(ps)
    requires forall i :: 0 <= i < |base| ==> base[i].pattern != "" && base[i].pattern[0] == '{'
    ensures DistinctPatterns(base + ps)
  {
    assert forall i :: 0 <= i < |ps| ==> ps[i].pattern != "" && ps[i].pattern[0] == if i == 91 then '*' else 'z';
    forall i, j | 0 <= i < j < |ps| ensures ps[i].pattern != ps[j].pattern {
      assert i != 91 && j != 91 ==> |ps[i].pattern| == i + 1 && |ps[j].pattern| == j + 1;
    }
    forall i, j | 0 <= i < j < |base + ps| ensures (base + ps)[i].pattern != (base + ps)[j].pattern {
      assert j < |base| || (base + ps)[j] == ps[j - |base|];
      assert i < |base| || (base + ps)[i] == ps[i - |base|];
    }
  }

  lemma CrowdFollows(base: seq<Policy>, ps: seq<Policy>)
    requires base == DEFAULTS && Fills(ps) && |ps| > 91
    ensures IsCrowded(base + ps)
  {
    var all := base + ps;
    assert |base| == 9 && all[100] == ps[91];
    forall i | 9 <= i < |all| && i != 100 ensures IsFiller(all[i].pattern) { assert all[i] == ps[i - 9]; }
    assert all[100] == LATE && all[..9] == DEFAULTS && DEFAULTS <= all;
  }

  lemma StatusSpecificity()
    ensures Specificity(STATUS) == 7
  {
    var rest := "_status";
    AgentSpecificity(rest);
    AsciiBytes(rest);
  }

  lemma LateSpecificity()
    ensures Specificity(LATE.pattern) == 8
  {
    StarSpecificity(LATE_REST);
    LateBytes();
  }

  const LATE_REST := "1_status"

  lemma LateBytes()
    ensures Bytes(LATE_REST) == 8
  {
    AsciiBytes(LATE_REST);
  }

  /**
   For a key that of all these patterns only the first default and LATE match, as a glob match answers for the status
   key of an agent r1: the two scores tie, and the less specific first default wins.
   */
  lemma LatePolicyLoses(ps: seq<Policy>, key: string, matches: (string, string) -> bool)
    requires IsCrowded(ps) && matches(key, STATUS) && matches(key, LATE.pattern)
    requires forall i :: 0 < i < |ps| && i != 100 ==> !matches(key, ps[i].pattern)
    ensures !PicksMostSpecific(RulesFor(key, ps, matches))
  {
    var rules := RulesFor(key, ps, matches);
    StatusSpecificity();
    LateSpecificity();
    assert ps[0] == DEFAULTS[0];
    assert rules[0] == Rule(7, true, true) && rules[100] == Rule(8, false, true);
    assert Score(rules, 0) == 700 && Score(rules, 100) == 700;
    assert MostSpecific(rules, 100) by {
      assert forall i: nat :: i < |rules| && Counts(rules, i) ==> i == 0 || i == 100;
    }
    var w := Winner(rules, |rules|);
    assert rules[0].matches && rules[w].matches;
  }

  /** The score picks the most specific policy of the session's list for the key. */
  ghost predicate RightFor(raws: seq<RawPolicy>, key: string, matches: (string, string) -> bool) {
    PicksMostSpecific(RulesFor(key, Normalized(raws), matches))
  }

  /** The score is right for every key and every list of n policies a session can have. */
  ghost predicate ScoreIsRight(n: nat) {
    forall raws, key, matches: (string, string) -> bool :: |Normalized(raws)| == n ==> RightFor(raws, key, matches)
  }

  /** A session's list has the nine defaults; its score is right for all lists of n if and only if n is at most 100. */
  lemma HundredPoliciesIsTheLimit(n: nat)
    requires n >= |DEFAULTS|
    ensures ScoreIsRight(n) <==> n <= 100
  {
    if n <= 100 { UpToHundredIsRight(n); } else { TooManyIsWrong(n); }
  }

  lemma UpToHundredIsRight(n: nat)
    requires n <= 100
    ensures ScoreIsRight(n)
  {
    forall raws, key, matches: (string, string) -> bool | |Normalized(raws)| == n ensures RightFor(raws, key, matches) {
      FewRulesPickMostSpecific(RulesFor(key, Normalized(raws), matches));
    }
  }

  lemma TooManyIsWrong(n: nat)
    requires n > 100
    ensures !ScoreIsRight(n)
  {
    CrowdIsNormalized(n);
    var matches := TooMany(n);
    if ScoreIsRight(n) { RightForEach(n, Crowd(n), "r1_status", matches); }
  }

  lemma RightForEach(n: nat, raws: seq<RawPolicy>, key: string, matches: (string, string) -> bool)
    requires ScoreIsRight(n) && |Normalized(raws)| == n
    ensures RightFor(raws, key, matches)
  {
  }

  lemma TooMany(n: nat) returns (matches: (string, string) -> bool)
    requires n > 100
    ensures !RightFor(Crowd(n), "r1_status", matches)
  {
    CrowdIsNormalized(n);
    matches := (key: string, p: string) => p == STATUS || p == LATE.pattern;
    OnlyTwoMatch(Normalized(Crowd(n)));
    LatePolicyLoses(Normalized(Crowd(n)), "r1_status", matches);
  }

  lemma OnlyTwoMatch(ps: seq<Policy>)
    requires IsCrowded(ps)
    ensures forall i :: 0 < i < |ps| && i != 100 ==> ps[i].pattern != STATUS && ps[i].pattern != LATE.pattern
  {
    DefaultsAreDistinct();
    assert forall i :: 0 <= i < 9 ==> ps[i] == DEFAULTS[i] && DEFAULTS[i].pattern[0] == '{';
    assert DEFAULTS[0].pattern == STATUS;
  }

  /** A distributor with up to 91 policies of its own is always safe. */
  lemma NinetyOneOwnPoliciesAreSafe(raws: seq<RawPolicy>, key: string, matches: (string, string) -> bool)
    requires |raws| <= 91
    ensures RightFor(raws, key, matches)
  {
    FewRulesPickMostSpecific(RulesFor(key, Normalized(raws), matches));
  }

  // ----- what the lists hold, written out

  /** The stored policy has the pattern and names the side, in any case and with any space around either. */
  predicate Spells(r: RawPolicy, p: Policy) {
    && TrimSpace(r.pattern) == p.pattern != ""
    && Lower(TrimSpace(r.priority)) == if p.live then "live" else "planner"
  }

  lemma ReadIsSpelled(r: RawPolicy, p: Policy)
    ensures Spells(r, p) <==> Usable(r) && Read(r) == p
  {
    assert |"live"| != |"planner"|;
  }

  predicate SomeSpells(raws: seq<RawPolicy>, p: Policy) { exists i :: 0 <= i < |raws| && Spells(raws[i], p) }

  lemma OneMoreSpells(front: seq<RawPolicy>, last: RawPolicy, p: Policy)
    ensures SomeSpells(front + [last], p) <==> SomeSpells(front, p) || Spells(last, p)
  {
    var all := front + [last];
    assert all[|front|] == last;
    if i :| 0 <= i < |front| && Spells(front[i], p) { assert Spells(all[i], p); }
  }

  /** A stored policy is kept exactly when it has a pattern and names a side. */
  lemma {:induction false} CleanedHolds(raws: seq<RawPolicy>, p: Policy)
    ensures p in Cleaned(raws) <==> SomeSpells(raws, p)
  {
    if raws != [] {
      var front, last := raws[..|raws| - 1], raws[|raws| - 1];
      assert raws == front + [last];
      CleanedHolds(front, p);
      ReadIsSpelled(last, p);
      OneMoreSpells(front, last, p);
    }
  }

  const OWNED_BY_PLANNER := ["{{agent.name}}_*msg*", "{{resource.name}}_reserved_by", "{{resource.name}}_*msg*"]

  const OWNED_BY_TELEMETRY := [
    "{{agent.name}}_status", "{{agent.name}}_mode", "{{agent.name}}_location", "{{agent.name}}_battery_*",
    "{{resource.name}}_status", "{{resource.name}}_location"]

  /** By default messages and reservations belong to the planner, the other reports to telemetry. */
  lemma DefaultsAreOwned(p: Policy)
    ensures p in DEFAULTS <==> p.pattern in if p.live then OWNED_BY_TELEMETRY else OWNED_BY_PLANNER
  {
    DefaultTexts();
    if p in DEFAULTS { var i :| 0 <= i < 9 && DEFAULTS[i] == p; }
  }

  lemma DefaultTexts()
    ensures |DEFAULTS| == 9 && DEFAULTS[0] == Policy(OWNED_BY_TELEMETRY[0], true)
    ensures DEFAULTS[1] == Policy(OWNED_BY_TELEMETRY[1], true) && DEFAULTS[2] == Policy(OWNED_BY_TELEMETRY[2], true)
    ensures DEFAULTS[3] == Policy(OWNED_BY_TELEMETRY[3], true) && DEFAULTS[4] == Policy(OWNED_BY_PLANNER[0], false)
    ensures DEFAULTS[5] == Policy(OWNED_BY_TELEMETRY[4], true) && DEFAULTS[6] == Policy(OWNED_BY_TELEMETRY[5], true)
    ensures DEFAULTS[7] == Policy(OWNED_BY_PLANNER[1], false) && DEFAULTS[8] == Policy(OWNED_BY_PLANNER[2], false)
  {
  }
}
