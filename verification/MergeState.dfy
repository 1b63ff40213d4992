/** How telemetry overlays are merged into the planner state: policies, sources, clean-up and write-back. */
module MergeState {
  import opened Text
  import opened Planning
  import opened Dispatch
  import Reservation

  // ----- merge policies

  /** One policy seen from one key: how specific its pattern is, which side it favours, whether it matches. */
  datatype Rule = Rule(specificity: nat, live: bool, matches: bool)

  datatype Policy = Policy(pattern: string, live: bool)

  const PLACEHOLDERS := [
    "{{agent.name}}", "{{agent.id}}", "{{agent}}", "{{resource.name}}", "{{resource.id}}", "{{resource}}", "*"]

  function Without(s: string, what: string): (r: string)
    requires what != ""
    ensures |r| <= |s|
  {
    if s == "" then ""
    else if what <= s then Without(s[|what|..], what)
    else [s[0]] + Without(s[1..], what)
  }

  function Stripped(s: string, n: nat): string
    requires n <= |PLACEHOLDERS|
  {
    if n == 0 then s else Without(Stripped(s, n - 1), PLACEHOLDERS[n - 1])
  }

  /** stateMergePatternSpecificity counts bytes. */
  function Specificity(pattern: string): nat { Bytes(Stripped(TrimSpace(pattern), |PLACEHOLDERS|)) }

  /** Glob matching of an expanded pattern is supplied by the caller. */
  function RulesFor(key: string, policies: seq<Policy>, matches: (string, string) -> bool): (r: seq<Rule>)
    ensures |r| == |policies|
  {
    seq(|policies|, i requires 0 <= i < |policies| =>
      Rule(Specificity(policies[i].pattern), policies[i].live, matches(key, policies[i].pattern)))
  }

  function Score(rules: seq<Rule>, i: nat): int
    requires i < |rules|
  {
    rules[i].specificity * 100 - i
  }

  /** The policy the scan settles on among the first n: its index, or the number of rules when none scored. */
  function Winner(rules: seq<Rule>, n: nat): (w: nat)
    requires n <= |rules|
    ensures w < n || w == |rules|
    ensures w < n ==> rules[w].matches && Score(rules, w) > -1
    ensures forall i :: 0 <= i < n && rules[i].matches && Score(rules, i) > -1 ==>
              w < n && (Score(rules, i) < Score(rules, w) || (Score(rules, i) == Score(rules, w) && w <= i))
  {
    if n == 0 then |rules|
    else
      var w := Winner(rules, n - 1);
      var best := if w < |rules| then Score(rules, w) else -1;
      if rules[n - 1].matches && Score(rules, n - 1) > best then n - 1 else w
  }

  function LiveByRules(rules: seq<Rule>): bool {
    var w := Winner(rules, |rules|);
    w == |rules| || rules[w].live
  }

  /** stateMergePriorityForKey: whether the key's live value wins. */
  method PriorityIsLive(key: string, rules: seq<Rule>) returns (live: bool)
    ensures live == (IsBlank(key) || LiveByRules(rules))
  {
    live := true;
    if IsBlank(key) { return; }
    var bestScore := -1;
    var i := 0;
    while i < |rules|
      invariant 0 <= i <= |rules|
      invariant var w := Winner(rules, i);
                if w < |rules| then bestScore == Score(rules, w) && live == rules[w].live else bestScore == -1 && live
    {
      if rules[i].matches {
        var score := Score(rules, i);
        if score > bestScore { bestScore, live := score, rules[i].live; }
      }
      i := i + 1;
    }
  }

  /** A pattern without literal text counts only as the first policy. */
  predicate Counts(rules: seq<Rule>, i: nat)
    requires i < |rules|
  {
    rules[i].matches && (rules[i].specificity > 0 || i == 0)
  }

  /** The intended winner: the most specific matching policy, the earliest among equals. */
  ghost predicate MostSpecific(rules: seq<Rule>, b: nat) {
    && b < |rules| && Counts(rules, b)
    && forall i: nat :: i < |rules| && Counts(rules, i) ==>
         rules[i].specificity < rules[b].specificity || (rules[i].specificity == rules[b].specificity && b <= i)
  }

  ghost predicate PicksMostSpecific(rules: seq<Rule>) {
    && (forall b: nat :: MostSpecific(rules, b) ==> LiveByRules(rules) == rules[b].live)
    && ((forall i: nat :: i < |rules| ==> !Counts(rules, i)) ==> LiveByRules(rules))
  }

  lemma FewRulesPickMostSpecific(rules: seq<Rule>)
    requires |rules| <= 100
    ensures PicksMostSpecific(rules)
  {
    var w := Winner(rules, |rules|);
    forall b: nat | MostSpecific(rules, b) ensures w == b {
      assert Score(rules, b) > -1;
      assert Counts(rules, w);
    }
    assert w < |rules| ==> Counts(rules, w);
  }

  // ----- merging sources

  datatype Source = Source(values: State, expiresAt: Option<int>)

  predicate Expired(s: Source, now: int) { s.expiresAt.Some? && s.expiresAt.value < now }

  /** The part of a source that goes into the merge: new keys and live ones. */
  function Taken(merged: State, values: State, live: string -> bool): State {
    map k | k in values && (k !in merged || live(k)) :: values[k]
  }

  function MergeOne(merged: State, values: State, live: string -> bool): State { merged + Taken(merged, values, live) }

  /** The merge before clean-up, sources in iteration order. */
  function MergeAll(current: State, sources: seq<Source>, now: int, live: string -> bool): State {
    if sources == [] then current
    else
      var m := MergeAll(current, sources[..|sources| - 1], now, live);
      var s := sources[|sources| - 1];
      if Expired(s, now) then m else MergeOne(m, s.values, live)
  }

  method MergeSource(before: State, values: State, live: string -> bool) returns (merged: State)
    ensures merged == MergeOne(before, values, live)
  {
    merged := before;
    ghost var taken := Taken(before, values, live);
    var left := values.Keys;
    while left != {}
      invariant left <= values.Keys && merged == before + (taken - left)
      decreases left
    {
      var k :| k in left;
      TakeOne(before, taken, left, k);
      if k !in merged || live(k) { merged := merged[k := values[k]]; }
      left := left - {k};
    }
    assert taken - left == taken;
  }

  lemma TakeOne(before: State, taken: State, left: set<string>, k: string)
    requires k in left
    ensures var merged := before + (taken - left);
            before + (taken - (left - {k})) == if k in taken then merged[k := taken[k]] else merged
    ensures k in before + (taken - left) <==> k in before
  {
  }

  lemma MergeStep(current: State, sources: seq<Source>, now: int, live: string -> bool, i: nat)
    requires i < |sources|
    ensures MergeAll(current, sources[..i + 1], now, live)
            == var m := MergeAll(current, sources[..i], now, live);
               if Expired(sources[i], now) then m else MergeOne(m, sources[i].values, live)
  {
    assert sources[..i + 1][..i] == sources[..i];
  }

  method MergeSources(current: State, sources: seq<Source>, now: int, live: string -> bool) returns (merged: State)
    ensures merged == MergeAll(current, sources, now, live)
  {
    merged := current;
    var i := 0;
    while i < |sources|
      invariant 0 <= i <= |sources| && merged == MergeAll(current, sources[..i], now, live)
    {
      MergeStep(current, sources, now, live, i);
      if !Expired(sources[i], now) { merged := MergeSource(merged, sources[i].values, live); }
      i := i + 1;
    }
    assert sources[..i] == sources;
  }

  /** An unexpired source offers a value for k. */
  predicate Offers(s: Source, now: int, k: string) { !Expired(s, now) && k in s.values }

  /** An overlay counts until the moment it expires, that moment included. */
  lemma OffersIff(s: Source, now: int, k: string)
    ensures Offers(s, now, k) <==> k in s.values && (s.expiresAt == None || now <= s.expiresAt.value)
  {
  }

  /** No key comes from two unexpired sources. */
  ghost predicate SourcesDisjoint(sources: seq<Source>, now: int) {
    forall i, j, k :: 0 <= i < j < |sources| && Offers(sources[i], now, k) ==> !Offers(sources[j], now, k)
  }

  /** A key the planner owns keeps its planner value. */
  lemma {:induction false} PlannerKeyIsKept(
    current: State, sources: seq<Source>, now: int, live: string -> bool, k: string)
    requires k in current && !live(k)
    ensures k in MergeAll(current, sources, now, live) && MergeAll(current, sources, now, live)[k] == current[k]
  {
    if sources != [] { PlannerKeyIsKept(current, sources[..|sources| - 1], now, live, k); }
  }

  /** A live key takes the value of the last unexpired source that offers it. */
  lemma {:induction false} LiveKeyTakesLastOffer(
    current: State, sources: seq<Source>, now: int, live: string -> bool, k: string, i: nat)
    requires live(k) && i < |sources| && Offers(sources[i], now, k)
    requires forall j :: i < j < |sources| ==> !Offers(sources[j], now, k)
    ensures k in MergeAll(current, sources, now, live)
    ensures MergeAll(current, sources, now, live)[k] == sources[i].values[k]
  {
    if i < |sources| - 1 {
      assert !Offers(sources[|sources| - 1], now, k);
      LiveKeyTakesLastOffer(current, sources[..|sources| - 1], now, live, k, i);
    }
  }

  lemma {:induction false} UnofferedKeyIsCurrent(
    current: State, sources: seq<Source>, now: int, live: string -> bool, k: string)
    requires forall j :: 0 <= j < |sources| ==> !Offers(sources[j], now, k)
    ensures k in MergeAll(current, sources, now, live) <==> k in current
    ensures k in current ==> MergeAll(current, sources, now, live)[k] == current[k]
  {
    if sources != [] {
      assert !Offers(sources[|sources| - 1], now, k);
      UnofferedKeyIsCurrent(current, sources[..|sources| - 1], now, live, k);
    }
  }

  lemma {:induction false} SoleOfferWins(
    current: State, sources: seq<Source>, now: int, live: string -> bool, k: string, i: nat)
    requires SourcesDisjoint(sources, now) && i < |sources| && Offers(sources[i], now, k)
    ensures k in MergeAll(current, sources, now, live)
    ensures MergeAll(current, sources, now, live)[k]
            == if k in current && !live(k) then current[k] else sources[i].values[k]
  {
    var front, last := sources[..|sources| - 1], sources[|sources| - 1];
    if i < |sources| - 1 {
      assert !Offers(last, now, k);
      SoleOfferWins(current, front, now, live, k, i);
    } else {
      forall j | 0 <= j < |front| ensures !Offers(front[j], now, k) { assert front[j] == sources[j]; }
      UnofferedKeyIsCurrent(current, front, now, live, k);
    }
  }

  /** When no key has two sources, the merge does not depend on the order in which the source map is iterated. */
  lemma MergeIsOrderFree(current: State, a: seq<Source>, b: seq<Source>, now: int, live: string -> bool)
    requires SourcesDisjoint(a, now) && SourcesDisjoint(b, now)
    requires forall s :: s in a <==> s in b
    ensures MergeAll(current, a, now, live) == MergeAll(current, b, now, live)
  {
    forall k
      ensures k in MergeAll(current, a, now, live) <==> k in MergeAll(current, b, now, live)
      ensures k in MergeAll(current, a, now, live) ==>
                MergeAll(current, a, now, live)[k] == MergeAll(current, b, now, live)[k]
    {
      SameAt(current, a, b, now, live, k);
    }
  }

  lemma SameAt(current: State, a: seq<Source>, b: seq<Source>, now: int, live: string -> bool, k: string)
    requires SourcesDisjoint(a, now) && SourcesDisjoint(b, now)
    requires forall s :: s in a <==> s in b
    ensures k in MergeAll(current, a, now, live) <==> k in MergeAll(current, b, now, live)
    ensures k in MergeAll(current, a, now, live) ==>
              MergeAll(current, a, now, live)[k] == MergeAll(current, b, now, live)[k]
  {
    if i :| 0 <= i < |a| && Offers(a[i], now, k) {
      assert a[i] in b;
      var j :| 0 <= j < |b| && b[j] == a[i];
      SoleOfferWins(current, a, now, live, k, i);
      SoleOfferWins(current, b, now, live, k, j);
    } else {
      forall j | 0 <= j < |b| ensures !Offers(b[j], now, k) { assert b[j] in a; }
      UnofferedKeyIsCurrent(current, a, now, live, k);
      UnofferedKeyIsCurrent(current, b, now, live, k);
    }
  }

  /** Whether a key is live under a list of policies. */
  function LiveUnder(policies: seq<Policy>, matches: (string, string) -> bool): string -> bool {
    (key: string) => IsBlank(key) || LiveByRules(RulesFor(key, policies, matches))
  }

  /** Under up to 100 policies the most specific one decides whose value a key has in the merge. */
  lemma MostSpecificPolicyDecides(
    current: State, sources: seq<Source>, now: int, policies: seq<Policy>, matches: (string, string) -> bool,
    k: string, b: nat, i: nat)
    requires |policies| <= 100 && !IsBlank(k) && MostSpecific(RulesFor(k, policies, matches), b)
    requires i < |sources| && Offers(sources[i], now, k)
    requires forall j :: i < j < |sources| ==> !Offers(sources[j], now, k)
    ensures var m := MergeAll(current, sources, now, LiveUnder(policies, matches));
            && (policies[b].live ==> k in m && m[k] == sources[i].values[k])
            && (!policies[b].live && k in current ==> k in m && m[k] == current[k])
  {
    var live := LiveUnder(policies, matches);
    FewRulesPickMostSpecific(RulesFor(k, policies, matches));
    if live(k) {
      LiveKeyTakesLastOffer(current, sources, now, live, k, i);
    } else if k in current {
      PlannerKeyIsKept(current, sources, now, live, k);
    }
  }

  // ----- the whole merge

  /** The planner state after the merged values are written back. */
  function WrittenBack(current: State, merged: State): (r: State)
    ensures r.Keys == current.Keys
  {
    map k | k in current :: if k in merged then merged[k] else current[k]
  }

  method WriteBack(before: State, merged: State) returns (current: State)
    ensures current == WrittenBack(before, merged)
  {
    current := before;
    var left := merged.Keys;
    while left != {}
      invariant left <= merged.Keys
      invariant current == map k | k in before :: if k in merged && k !in left then merged[k] else before[k]
      decreases left
    {
      var k :| k in left;
      if k in current { current := current[k := merged[k]]; }
      left := left - {k};
    }
  }

  /** The state the tick plans with. */
  function Merged(
    before: State, sources: seq<Source>, now: int, live: string -> bool, agents: seq<AgentInfo>,
    resources: seq<ResourceInfo>): State
  {
    Reservation.Reconciled(MergeAll(before, sources, now, live), before, agents, resources).merged
  }

  /** The planner state the merge leaves behind. */
  function Refreshed(
    before: State, sources: seq<Source>, now: int, live: string -> bool, agents: seq<AgentInfo>,
    resources: seq<ResourceInfo>): (r: State)
    ensures r.Keys == before.Keys
  {
    var c := Reservation.Reconciled(MergeAll(before, sources, now, live), before, agents, resources);
    if c.changed then WrittenBack(before, c.merged) else before
  }

  /** sessionMergedState: merge, clean up, write back. */
  method SessionMergedState(
    before: State, sources: seq<Source>, now: int, live: string -> bool, agents: seq<AgentInfo>,
    resources: seq<ResourceInfo>)
    returns (merged: State, current: State)
    ensures merged == Merged(before, sources, now, live, agents, resources)
    ensures current == Refreshed(before, sources, now, live, agents, resources)
  {
    var changed;
    merged := MergeSources(before, sources, now, live);
    merged, changed := Reservation.Reconcile(merged, before, agents, resources);
    current := before;
    if changed { current := WriteBack(before, merged); }
  }

  /** A planner-owned key outside the clean-up's reach reads the planner's value, in the merge and after write-back. */
  lemma PlannerKeySurvivesTheMerge(
    before: State, sources: seq<Source>, now: int, live: string -> bool, agents: seq<AgentInfo>,
    resources: seq<ResourceInfo>, k: string)
    requires k in before && !live(k)
    requires !Reservation.IsLocationKey(agents, k) && !Reservation.IsReservationKey(resources, before, k)
    ensures k in Merged(before, sources, now, live, agents, resources)
    ensures Merged(before, sources, now, live, agents, resources)[k] == before[k]
    ensures Refreshed(before, sources, now, live, agents, resources)[k] == before[k]
  {
    PlannerKeyIsKept(before, sources, now, live, k);
    Reservation.PlainKeysAreLeftAlone(MergeAll(before, sources, now, live), before, agents, resources, k);
    assert k in [k];
  }
}
