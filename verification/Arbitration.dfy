/** Arbitration between dispatch candidates: rank them, then take greedily whatever is still free. */
module Arbitration {
  import opened Text
  import opened Planning
  import opened Dispatch
  import opened Candidates

  // ----- ranking

  /** Lower priority number first, then the agent's place in the rotation. */
  predicate Outranks(c: Candidate, d: Candidate) {
    c.goal.priority < d.goal.priority || (c.goal.priority == d.goal.priority && c.agentOrder < d.agentOrder)
  }

  function InsertRanked(sorted: seq<Candidate>, c: Candidate): seq<Candidate> {
    if sorted == [] || !Outranks(c, sorted[|sorted| - 1]) then sorted + [c]
    else InsertRanked(sorted[..|sorted| - 1], c) + [sorted[|sorted| - 1]]
  }

  /** sort.SliceStable by rank. */
  function Ranked(cs: seq<Candidate>): seq<Candidate> {
    if cs == [] then [] else InsertRanked(Ranked(cs[..|cs| - 1]), cs[|cs| - 1])
  }

  ghost predicate IsRanked(cs: seq<Candidate>) {
    forall x, y :: 0 <= x < y < |cs| ==> !Outranks(cs[y], cs[x])
  }

  lemma {:induction false} InsertRankedContents(sorted: seq<Candidate>, c: Candidate)
    ensures multiset(InsertRanked(sorted, c)) == multiset(sorted) + multiset{c}
  {
    if sorted != [] && Outranks(c, sorted[|sorted| - 1]) {
      var front := sorted[..|sorted| - 1];
      assert sorted == front + [sorted[|sorted| - 1]];
      InsertRankedContents(front, c);
    }
  }

  lemma InsertRankedMembers(sorted: seq<Candidate>, c: Candidate, d: Candidate)
    ensures d in InsertRanked(sorted, c) <==> d == c || d in sorted
  {
    InsertRankedContents(sorted, c);
    assert d in InsertRanked(sorted, c) <==> d in multiset(InsertRanked(sorted, c));
  }

  lemma {:induction false} InsertRankedSorts(sorted: seq<Candidate>, c: Candidate)
    requires IsRanked(sorted)
    ensures IsRanked(InsertRanked(sorted, c))
  {
    if sorted != [] && Outranks(c, sorted[|sorted| - 1]) {
      var front, last := sorted[..|sorted| - 1], sorted[|sorted| - 1];
      InsertRankedSorts(front, c);
      var r := InsertRanked(front, c);
      forall x | 0 <= x < |r| ensures !Outranks(last, r[x]) {
        InsertRankedMembers(front, c, r[x]);
        if r[x] != c { var y :| 0 <= y < |front| && front[y] == r[x]; assert sorted[y] == r[x]; }
      }
    }
  }

  lemma {:induction false} RankedIsSortedPermutation(cs: seq<Candidate>)
    ensures IsRanked(Ranked(cs)) && multiset(Ranked(cs)) == multiset(cs)
    ensures forall d :: d in Ranked(cs) <==> d in cs
  {
    if cs != [] {
      var front := cs[..|cs| - 1];
      assert cs == front + [cs[|cs| - 1]];
      RankedIsSortedPermutation(front);
      InsertRankedContents(Ranked(front), cs[|cs| - 1]);
      InsertRankedSorts(Ranked(front), cs[|cs| - 1]);
    }
    forall d ensures d in Ranked(cs) <==> d in cs {
      assert d in Ranked(cs) <==> d in multiset(Ranked(cs));
    }
  }

  predicate SameRank(c: Candidate, d: Candidate) {
    c.goal.priority == d.goal.priority && c.agentOrder == d.agentOrder
  }

  function Equals(c: Candidate): Candidate -> bool { (d: Candidate) => SameRank(c, d) }

  lemma FilterLast(s: seq<Candidate>, last: Candidate, p: Candidate -> bool)
    ensures Filter(s + [last], p) == Filter(s, p) + if p(last) then [last] else []
  {
    assert (s + [last])[..|s|] == s;
  }

  lemma {:induction false} InsertIsStable(sorted: seq<Candidate>, c: Candidate, rank: Candidate)
    ensures Filter(InsertRanked(sorted, c), Equals(rank))
            == Filter(sorted, Equals(rank)) + if SameRank(rank, c) then [c] else []
  {
    if sorted == [] || !Outranks(c, sorted[|sorted| - 1]) {
      FilterLast(sorted, c, Equals(rank));
    } else {
      var front, last := sorted[..|sorted| - 1], sorted[|sorted| - 1];
      assert sorted == front + [last];
      InsertIsStable(front, c, rank);
      FilterLast(front, last, Equals(rank));
      FilterLast(InsertRanked(front, c), last, Equals(rank));
    }
  }

  /** Candidates of equal rank keep their order. */
  lemma {:induction false} RankedIsStable(cs: seq<Candidate>, rank: Candidate)
    ensures Filter(Ranked(cs), Equals(rank)) == Filter(cs, Equals(rank))
  {
    if cs != [] {
      var front, last := cs[..|cs| - 1], cs[|cs| - 1];
      assert cs == front + [last];
      RankedIsStable(front, rank);
      InsertIsStable(Ranked(front), last, rank);
      FilterLast(front, last, Equals(rank));
    }
  }

  /** Sorting keeps a symmetric relation that holds between any two elements. */
  ghost predicate Pairwise(cs: seq<Candidate>, rel: (Candidate, Candidate) -> bool) {
    forall x, y :: 0 <= x < |cs| && 0 <= y < |cs| && x != y ==> rel(cs[x], cs[y])
  }

  lemma {:induction false} RankedKeepsPairwise(cs: seq<Candidate>, rel: (Candidate, Candidate) -> bool)
    requires Pairwise(cs, rel)
    ensures Pairwise(Ranked(cs), rel)
  {
    if cs != [] {
      var front, last := cs[..|cs| - 1], cs[|cs| - 1];
      RankedKeepsPairwise(front, rel);
      RankedIsSortedPermutation(front);
      forall x | 0 <= x < |Ranked(front)| ensures rel(Ranked(front)[x], last) && rel(last, Ranked(front)[x]) {
        assert Ranked(front)[x] in front;
        var y :| 0 <= y < |front| && front[y] == Ranked(front)[x];
        assert rel(cs[y], last) && rel(last, cs[y]);
      }
      InsertKeepsPairwise(Ranked(front), last, rel);
    }
  }

  lemma {:induction false} InsertKeepsPairwise(
    sorted: seq<Candidate>, c: Candidate, rel: (Candidate, Candidate) -> bool)
    requires Pairwise(sorted, rel) && forall x :: 0 <= x < |sorted| ==> rel(sorted[x], c) && rel(c, sorted[x])
    ensures Pairwise(InsertRanked(sorted, c), rel)
    ensures forall x :: 0 <= x < |InsertRanked(sorted, c)| ==>
              InsertRanked(sorted, c)[x] == c || InsertRanked(sorted, c)[x] in sorted
  {
    if sorted != [] && Outranks(c, sorted[|sorted| - 1]) {
      var front, last := sorted[..|sorted| - 1], sorted[|sorted| - 1];
      InsertKeepsPairwise(front, c, rel);
      var r := InsertRanked(front, c);
      forall x | 0 <= x < |r| ensures rel(r[x], last) && rel(last, r[x]) && (r[x] == c || r[x] in sorted) {
        if r[x] != c {
          var y :| 0 <= y < |front| && front[y] == r[x];
          assert sorted[y] == r[x];
        }
      }
    }
  }

  // ----- greedy selection

  /** What a candidate claims: its agent and its resource keys. */
  datatype Claim = Claim(agent: string, keys: set<string>)

  function ClaimOf(c: Candidate): Claim { Claim(TrimSpace(c.agentID), KeysOf(c)) }

  function Claims(cs: seq<Candidate>): (r: seq<Claim>)
    ensures |r| == |cs|
  {
    seq(|cs|, i requires 0 <= i < |cs| => ClaimOf(cs[i]))
  }

  predicate Takes(c: Claim, agents: set<string>, reserved: set<string>) {
    c.agent != "" && c.agent !in agents && c.keys * reserved == {}
  }

  /** The positions taken from k on. */
  function TakenFrom(claims: seq<Claim>, k: nat, agents: set<string>, reserved: set<string>): seq<nat>
    requires k <= |claims|
    decreases |claims| - k
  {
    if k == |claims| then []
    else if Takes(claims[k], agents, reserved) then
      [k] + TakenFrom(claims, k + 1, agents + {claims[k].agent}, reserved + claims[k].keys)
    else TakenFrom(claims, k + 1, agents, reserved)
  }

  /** The elements of `s` at the given positions. */
  ghost predicate Picks(selected: seq<Candidate>, s: seq<Candidate>, at: seq<nat>) {
    |selected| == |at| && forall x :: 0 <= x < |at| ==> at[x] < |s| && selected[x] == s[at[x]]
  }

  /**
   selectRealtimeDispatchCandidates: the greedy scan of the ranked list. Nobody selected needs a busy key or clashes
   with another, and a candidate left out needs one, is malformed, or clashes with a selected one that it does not
   outrank.
   */
  method SelectCandidates(candidates: seq<Candidate>, busy: set<string>) returns (selected: seq<Candidate>)
    ensures Picks(selected, Ranked(candidates), TakenFrom(Claims(Ranked(candidates)), 0, {}, busy))
    ensures forall c :: c in selected ==> c in candidates && Takes(ClaimOf(c), {}, busy)
    ensures forall x, y :: 0 <= x < y < |selected| ==> !Compete(ClaimOf(selected[x]), ClaimOf(selected[y]))
    ensures forall d :: d in candidates && d !in selected ==>
              !Takes(ClaimOf(d), {}, busy)
              || exists c :: c in selected && !Outranks(d, c) && Compete(ClaimOf(c), ClaimOf(d))
  {
    var ordered := Ranked(candidates);
    selected := TakeGreedily(ordered, Claims(ordered), busy);
    RankedIsSortedPermutation(candidates);
    TakenAreCompatible(Claims(ordered), 0, {}, busy);
    SelectedAreGood(ordered, selected, busy);
    forall d | d in candidates && d !in selected && Takes(ClaimOf(d), {}, busy)
      ensures exists c :: c in selected && !Outranks(d, c) && Compete(ClaimOf(c), ClaimOf(d))
    {
      assert d in ordered;
      LeftOutHasReason(ordered, selected, busy, d);
    }
  }

  lemma SelectedAreGood(ordered: seq<Candidate>, selected: seq<Candidate>, busy: set<string>)
    requires Picks(selected, ordered, TakenFrom(Claims(ordered), 0, {}, busy))
    requires Compatible(Claims(ordered), TakenFrom(Claims(ordered), 0, {}, busy), 0, {}, busy)
    ensures forall c :: c in selected ==> c in ordered && Takes(ClaimOf(c), {}, busy)
    ensures forall x, y :: 0 <= x < y < |selected| ==> !Compete(ClaimOf(selected[x]), ClaimOf(selected[y]))
  {
    var claims := Claims(ordered);
    var taken := TakenFrom(claims, 0, {}, busy);
    forall x | 0 <= x < |taken| ensures taken[x] < |claims| && ClaimOf(selected[x]) == claims[taken[x]] {
    }
  }

  lemma LeftOutHasReason(ordered: seq<Candidate>, selected: seq<Candidate>, busy: set<string>, d: Candidate)
    requires IsRanked(ordered) && Picks(selected, ordered, TakenFrom(Claims(ordered), 0, {}, busy))
    requires d in ordered && d !in selected && Takes(ClaimOf(d), {}, busy)
    ensures exists c :: c in selected && !Outranks(d, c) && Compete(ClaimOf(c), ClaimOf(d))
  {
    var claims := Claims(ordered);
    var taken := TakenFrom(claims, 0, {}, busy);
    var x: nat :| x < |ordered| && ordered[x] == d;
    RejectedHasReason(claims, 0, {}, busy, x);
    var y :| y in taken && y < x && Compete(claims[y], claims[x]);
    var z :| 0 <= z < |taken| && taken[z] == y;
    assert selected[z] == ordered[y] && selected[z] in selected;
  }

  /** The selection loop; `claims` says what each candidate needs. */
  method TakeGreedily(ordered: seq<Candidate>, claims: seq<Claim>, busy: set<string>) returns (selected: seq<Candidate>)
    requires |claims| == |ordered|
    ensures Picks(selected, ordered, TakenFrom(claims, 0, {}, busy))
  {
    var reserved, selectedAgents: set<string> := busy, {};
    ghost var taken: seq<nat> := [];
    selected := [];
    var k := 0;
    while k < |ordered|
      invariant 0 <= k <= |ordered|
      invariant TakenFrom(claims, 0, {}, busy) == taken + TakenFrom(claims, k, selectedAgents, reserved)
      invariant Picks(selected, ordered, taken)
    {
      if Takes(claims[k], selectedAgents, reserved) {
        selected, taken := selected + [ordered[k]], taken + [k];
        selectedAgents := selectedAgents + {claims[k].agent};
        reserved := reserved + claims[k].keys;
      }
      k := k + 1;
    }
  }

  /** Two claims cannot both be taken. */
  predicate Compete(c: Claim, d: Claim) {
    c.agent == d.agent || c.keys * d.keys != {}
  }

  lemma TakesAfter(d: Claim, c: Claim, agents: set<string>, reserved: set<string>)
    ensures Takes(d, agents + {c.agent}, reserved + c.keys) <==> Takes(d, agents, reserved) && !Compete(c, d)
  {
    assert d.keys * (reserved + c.keys) == d.keys * reserved + c.keys * d.keys;
    assert d.keys * reserved <= d.keys * (reserved + c.keys);
    assert c.keys * d.keys <= d.keys * (reserved + c.keys);
  }

  ghost predicate Compatible(
    claims: seq<Claim>, taken: seq<nat>, k: nat, agents: set<string>, reserved: set<string>)
  {
    && (forall x :: 0 <= x < |taken| ==> k <= taken[x] < |claims| && Takes(claims[taken[x]], agents, reserved))
    && (forall x, y :: 0 <= x < y < |taken| ==> taken[x] < taken[y] && !Compete(claims[taken[x]], claims[taken[y]]))
  }

  /** Everything taken is free of the busy keys and of everything taken before. */
  lemma {:induction false} TakenAreCompatible(claims: seq<Claim>, k: nat, agents: set<string>, reserved: set<string>)
    requires k <= |claims|
    ensures Compatible(claims, TakenFrom(claims, k, agents, reserved), k, agents, reserved)
    decreases |claims| - k
  {
    if k < |claims| {
      if Takes(claims[k], agents, reserved) {
        var c := claims[k];
        var agents', reserved' := agents + {c.agent}, reserved + c.keys;
        TakenAreCompatible(claims, k + 1, agents', reserved');
        var rest := TakenFrom(claims, k + 1, agents', reserved');
        forall y | 0 <= y < |rest| ensures !Compete(c, claims[rest[y]]) && Takes(claims[rest[y]], agents, reserved) {
          TakesAfter(claims[rest[y]], c, agents, reserved);
        }
      } else {
        TakenAreCompatible(claims, k + 1, agents, reserved);
      }
    }
  }

  /** Greedy is maximal and fair to rank: what is not taken loses to a busy key or to a better-ranked taken claim. */
  lemma {:induction false} RejectedHasReason(
    claims: seq<Claim>, k: nat, agents: set<string>, reserved: set<string>, x: nat)
    requires k <= x < |claims| && x !in TakenFrom(claims, k, agents, reserved)
    ensures !Takes(claims[x], agents, reserved)
            || exists y :: y in TakenFrom(claims, k, agents, reserved) && y < x && Compete(claims[y], claims[x])
    decreases |claims| - k
  {
    if Takes(claims[k], agents, reserved) {
      var c := claims[k];
      var agents', reserved' := agents + {c.agent}, reserved + c.keys;
      assert TakenFrom(claims, k, agents, reserved) == [k] + TakenFrom(claims, k + 1, agents', reserved');
      TakesAfter(claims[x], c, agents, reserved);
      RejectedHasReason(claims, k + 1, agents', reserved', x);
    } else if k < x {
      RejectedHasReason(claims, k + 1, agents, reserved, x);
    }
  }

  lemma {:induction false} AllCompatibleAreTaken(claims: seq<Claim>, busy: set<string>, x: nat)
    requires x < |claims| && Takes(claims[x], {}, busy)
    requires forall y, z :: 0 <= y < z < |claims| ==> !Compete(claims[y], claims[z])
    ensures x in TakenFrom(claims, 0, {}, busy)
  {
    if x !in TakenFrom(claims, 0, {}, busy) { RejectedHasReason(claims, 0, {}, busy, x); }
  }

  predicate NoCompetition(c: Candidate, d: Candidate) { !Compete(ClaimOf(c), ClaimOf(d)) }

  lemma ExclusiveDoNotCompete(c: Candidate, d: Candidate)
    requires Exclusive(c, d) && IsTrimmed(c.agentID) && IsTrimmed(d.agentID)
    ensures NoCompetition(c, d) && NoCompetition(d, c)
  {
    assert c.agentID in AgentsOf(c) && d.agentID in AgentsOf(d);
    assert KeysOf(c) * KeysOf(d) == {} && KeysOf(d) * KeysOf(c) == {};
  }

  /** On a tick's own candidates arbitration drops nothing. */
  lemma ArbitrationKeepsATicksCandidates(candidates: seq<Candidate>, busyAgents: set<string>, busy: set<string>, x: nat)
    requires AvoidsBusy(candidates, busyAgents, busy) && MutuallyExclusive(candidates)
    requires forall i :: 0 <= i < |candidates| ==> IsTrimmed(candidates[i].agentID) && candidates[i].agentID != ""
    requires x < |Ranked(candidates)|
    ensures x in TakenFrom(Claims(Ranked(candidates)), 0, {}, busy)
  {
    var ordered := Ranked(candidates);
    forall i, j | 0 <= i < |candidates| && 0 <= j < |candidates| && i != j
      ensures NoCompetition(candidates[i], candidates[j])
    {
      if i < j { ExclusiveDoNotCompete(candidates[i], candidates[j]); }
      else { ExclusiveDoNotCompete(candidates[j], candidates[i]); }
    }
    RankedKeepsPairwise(candidates, NoCompetition);
    RankedIsSortedPermutation(candidates);
    assert ordered[x] in candidates;
    var i :| 0 <= i < |candidates| && candidates[i] == ordered[x];
    assert KeysOf(candidates[i]) * busy == {};
    forall y, z | 0 <= y < z < |ordered| ensures !Compete(Claims(ordered)[y], Claims(ordered)[z]) {
      assert NoCompetition(ordered[y], ordered[z]);
    }
    AllCompatibleAreTaken(Claims(ordered), busy, x);
  }

  ghost predicate Increasing(taken: seq<nat>) { forall i, j :: 0 <= i < j < |taken| ==> taken[i] < taken[j] }

  lemma {:induction false} IncreasingGrows(taken: seq<nat>, i: nat)
    requires Increasing(taken) && i < |taken|
    ensures i <= taken[i]
  {
    if i > 0 { IncreasingGrows(taken, i - 1); }
  }

  /** A strictly increasing list that has all numbers up to x starts with them. */
  lemma {:induction false} IncreasingIsAll(taken: seq<nat>, x: nat)
    requires Increasing(taken) && forall k: nat :: k <= x ==> k in taken
    ensures x < |taken| && taken[x] == x
  {
    if x > 0 { IncreasingIsAll(taken, x - 1); }
    assert x in taken;
    var y :| 0 <= y < |taken| && taken[y] == x;
    assert x > 0 ==> forall i :: 0 <= i < x - 1 ==> taken[i] < taken[x - 1];
    assert x <= y;
    IncreasingGrows(taken, x);
  }

  lemma {:induction false} CollectedNameAgents(
    t: Tick, agents: seq<AgentInfo>, k: nat, busyAgents: set<string>, busy: set<string>, failed: Failures)
    requires Honest(t.sv) && k <= |agents|
    ensures var cs := CollectFrom(t, agents, k, busyAgents, busy, failed).candidates;
            forall i :: 0 <= i < |cs| ==> IsTrimmed(cs[i].agentID) && cs[i].agentID != ""
    decreases |agents| - k
  {
    if k < |agents| {
      var id := TrimSpace(agents[k].id);
      CollectStep(t, agents, k, busyAgents, busy, failed);
      if id == "" || id in busyAgents || !t.sv.idle(t.current, agents[k]) {
        CollectedNameAgents(t, agents, k + 1, busyAgents, busy, failed);
      } else {
        FoundIsGood(t, agents[k], k, busy, failed, 0);
        var f := FindFrom(t, agents[k], k, busy, failed, 0);
        match f.candidate
        case None => CollectedNameAgents(t, agents, k + 1, busyAgents, busy, f.failed);
        case Some(c) =>
          CollectedNameAgents(
            t, agents, k + 1, busyAgents + {id} + PlanAgents(c.plan), busy + KeysOf(c), f.failed);
      }
    }
  }

  /** Run on what a tick collects, arbitration selects all of it, in rank order. */
  lemma TickSelectionIsWhole(
    t: Tick, agents: seq<AgentInfo>, busyAgents: set<string>, busy: set<string>, failed: Failures,
    selected: seq<Candidate>)
    requires Honest(t.sv)
    requires var ranked := Ranked(CollectFrom(t, agents, 0, busyAgents, busy, failed).candidates);
             Picks(selected, ranked, TakenFrom(Claims(ranked), 0, {}, busy))
    ensures var collected := CollectFrom(t, agents, 0, busyAgents, busy, failed).candidates;
            selected == Ranked(collected) && multiset(selected) == multiset(collected)
  {
    var collected := CollectFrom(t, agents, 0, busyAgents, busy, failed).candidates;
    var ranked := Ranked(collected);
    var taken := TakenFrom(Claims(ranked), 0, {}, busy);
    CollectedAreExclusive(t, agents, 0, busyAgents, busy, failed);
    CollectedNameAgents(t, agents, 0, busyAgents, busy, failed);
    forall x: nat | x < |ranked| ensures x in taken {
      ArbitrationKeepsATicksCandidates(collected, busyAgents, busy, x);
    }
    WholeSelection(ranked, selected, taken, busy);
    RankedIsSortedPermutation(collected);
  }

  lemma WholeSelection(ranked: seq<Candidate>, selected: seq<Candidate>, taken: seq<nat>, busy: set<string>)
    requires taken == TakenFrom(Claims(ranked), 0, {}, busy) && Picks(selected, ranked, taken)
    requires forall x: nat :: x < |ranked| ==> x in taken
    ensures selected == ranked
  {
    TakenIncrease(Claims(ranked), 0, {}, busy);
    AllPicked(ranked, selected, taken);
  }

  lemma TakenIncrease(claims: seq<Claim>, k: nat, agents: set<string>, reserved: set<string>)
    requires k <= |claims|
    ensures Increasing(TakenFrom(claims, k, agents, reserved))
  {
    TakenAreCompatible(claims, k, agents, reserved);
  }

  lemma AllPicked(ranked: seq<Candidate>, selected: seq<Candidate>, taken: seq<nat>)
    requires Increasing(taken) && Picks(selected, ranked, taken) && forall x: nat :: x < |ranked| ==> x in taken
    ensures selected == ranked
  {
    var n := |ranked|;
    if n > 0 { IncreasingIsAll(taken, n - 1); }
    if taken != [] { IncreasingGrows(taken, |taken| - 1); }
    assert |taken| == n;
    forall x: nat | x < n ensures taken[x] == x { IncreasingIsAll(taken, x); }
  }
}
