/** What the reservation clean-up does, in the words of agents, resources and state keys. */
module Holders {
  import opened Text
  import opened Planning
  import opened Dispatch
  import opened Reservation

  // ----- agents

  /** The agent's display name, or its id when it has none. */
  predicate IsCalled(a: AgentInfo, n: string) { n == TrimSpace(if TrimSpace(a.name) != "" then a.name else a.id) }

  /** `t` is `s` with every hyphen turned into an underscore. */
  predicate IsUnderscored(s: string, t: string) {
    |t| == |s| && forall i :: 0 <= i < |s| ==> t[i] == if s[i] == '-' then '_' else s[i]
  }

  /** The agent answers to the holder text `h`: its id or name in lower case, with hyphens or with underscores. */
  ghost predicate AnswersTo(a: AgentInfo, h: string) {
    h != "" && exists n, t :: IsForm(a, n, t) && h == Lower(t)
  }

  predicate IsForm(a: AgentInfo, n: string, t: string) {
    (IsCalled(a, n) || n == TrimSpace(a.id)) && (t == n || IsUnderscored(n, t))
  }

  lemma OnlyUnderscored(s: string, t: string)
    ensures IsUnderscored(s, t) <==> t == Underscored(s)
  {
  }

  lemma TrimmedForms(n: string)
    requires IsTrimmed(n)
    ensures IsTrimmed(Lower(n)) && IsTrimmed(Lower(Underscored(n)))
  {
  }

  /** The four forms, written out. */
  lemma FormsAnswer(a: AgentInfo, h: string, id: string, name: string)
    requires id == TrimSpace(a.id) && IsCalled(a, name)
    ensures AnswersTo(a, h) <==>
              h != "" && h in {Lower(id), Lower(name), Lower(Underscored(id)), Lower(Underscored(name))}
  {
    OnlyUnderscored(id, Underscored(id));
    OnlyUnderscored(name, Underscored(name));
    if AnswersTo(a, h) {
      var n, t :| IsForm(a, n, t) && h == Lower(t);
      OnlyUnderscored(n, t);
    } else if h != "" {
      if h == Lower(id) { AnswersBy(a, h, id, id); }
      if h == Lower(name) { AnswersBy(a, h, name, name); }
      if h == Lower(Underscored(id)) { AnswersBy(a, h, id, Underscored(id)); }
      if h == Lower(Underscored(name)) { AnswersBy(a, h, name, Underscored(name)); }
    }
  }

  lemma AnswersBy(a: AgentInfo, h: string, n: string, t: string)
    requires h != "" && h == Lower(t) && IsForm(a, n, t)
    ensures AnswersTo(a, h)
  {
  }

  lemma TrimmedAreKept(values: set<string>, h: string)
    requires forall v :: v in values ==> IsTrimmed(v)
    ensures h in NonBlank(values) <==> h != "" && h in values
  {
    if h != "" && h in values { assert TrimSpace(h) == h; }
  }

  lemma TokensAnswer(a: AgentInfo, h: string)
    requires !IsBlank(a.id)
    ensures h in AliasOf(a).tokens <==> AnswersTo(a, h)
  {
    var id, name := TrimSpace(a.id), Named(a.name, a.id);
    FormsAnswer(a, h, id, name);
    TokensAre(a, h, id, name);
  }

  lemma TokensAre(a: AgentInfo, h: string, id: string, name: string)
    requires id == TrimSpace(a.id) && name == (if IsBlank(a.name) then id else TrimSpace(a.name))
    ensures h in HolderTokens(a) <==>
              h != "" && h in {Lower(id), Lower(name), Lower(Underscored(id)), Lower(Underscored(name))}
  {
    TrimmedForms(id);
    TrimmedForms(name);
    TrimmedAreKept({Lower(id), Lower(name), Lower(Underscored(id)), Lower(Underscored(name))}, h);
  }

  // ----- agents that are told apart

  /** The agent's location may be recorded under `k`: after its name, its id or its id with underscores. */
  ghost predicate IsPlaceKey(a: AgentInfo, k: string) {
    || k == TrimSpace(a.name) + "_location" || k == TrimSpace(a.id) + "_location"
    || exists t :: IsUnderscored(TrimSpace(a.id), t) && k == t + "_location"
  }

  /** No two agents with an id answer to one holder text or share a location key. */
  ghost predicate ToldApart(agents: seq<AgentInfo>) {
    forall i, j :: 0 <= i < j < |agents| && !IsBlank(agents[i].id) && !IsBlank(agents[j].id) ==>
      Distinguished(agents[i], agents[j])
  }

  ghost predicate Distinguished(a: AgentInfo, b: AgentInfo) {
    && (forall h :: !(AnswersTo(a, h) && AnswersTo(b, h)))
    && (forall k :: !(IsPlaceKey(a, k) && IsPlaceKey(b, k)))
  }

  lemma UnderscoredKey(id: string, k: string)
    ensures (exists t :: IsUnderscored(id, t) && k == t + "_location") <==> k == Underscored(id) + "_location"
  {
    OnlyUnderscored(id, Underscored(id));
    if t :| IsUnderscored(id, t) && k == t + "_location" { OnlyUnderscored(id, t); }
  }

  lemma PlacesAre(a: AgentInfo, k: string)
    requires !IsBlank(a.id)
    ensures k in AliasOf(a).places <==> IsPlaceKey(a, k)
  {
    UnderscoredKey(TrimSpace(a.id), k);
  }

  lemma DistinguishedAliases(a: AgentInfo, b: AgentInfo)
    requires !IsBlank(a.id) && !IsBlank(b.id) && Distinguished(a, b)
    ensures AliasOf(a).tokens !! AliasOf(b).tokens && SharesNone(AliasOf(a).places, AliasOf(b).places)
  {
    forall h | h in AliasOf(a).tokens ensures h !in AliasOf(b).tokens {
      TokensAnswer(a, h);
      TokensAnswer(b, h);
    }
    forall k | k in AliasOf(a).places ensures k !in AliasOf(b).places {
      PlacesAre(a, k);
      PlacesAre(b, k);
    }
  }

  /** Every alias belongs to an agent with an id. */
  lemma {:induction false} AliasIsAgents(agents: seq<AgentInfo>, i: nat) returns (x: nat)
    requires i < |AliasesOf(agents)|
    ensures x < |agents| && !IsBlank(agents[x].id) && AliasesOf(agents)[i] == AliasOf(agents[x])
  {
    var n := |agents| - 1;
    if !IsBlank(agents[n].id) && i == |AliasesOf(agents)| - 1 { x := n; }
    else { x := AliasIsAgents(agents[..n], i); }
  }

  /** And every agent with an id has an alias. */
  lemma {:induction false} AgentHasAlias(agents: seq<AgentInfo>, x: nat) returns (i: nat)
    requires x < |agents| && !IsBlank(agents[x].id)
    ensures i < |AliasesOf(agents)| && AliasesOf(agents)[i] == AliasOf(agents[x])
  {
    var n := |agents| - 1;
    var front := agents[..n];
    if x == n {
      i := |AliasesOf(agents)| - 1;
    } else {
      assert front[x] == agents[x];
      i := AgentHasAlias(front, x);
      assert AliasesOf(front) <= AliasesOf(agents);
    }
  }

  lemma {:induction false} ToldApartIsSeparate(agents: seq<AgentInfo>)
    requires ToldApart(agents)
    ensures Separate(AliasesOf(agents))
  {
    if agents != [] {
      var n := |agents| - 1;
      var front := AliasesOf(agents[..n]);
      ToldApartIsSeparate(agents[..n]);
      if !IsBlank(agents[n].id) {
        forall i | 0 <= i < |front| ensures AreApart(front[i], AliasOf(agents[n])) {
          var x := AliasIsAgents(agents[..n], i);
          assert agents[..n][x] == agents[x];
          DistinguishedAliases(agents[x], agents[n]);
        }
        OneMoreApart(front, AliasOf(agents[n]));
      }
    }
  }

  ghost predicate AreApart(a: Alias, b: Alias) { a.tokens !! b.tokens && SharesNone(a.places, b.places) }

  lemma OneMoreApart(front: seq<Alias>, last: Alias)
    requires Separate(front) && WellFormed(last) && forall i :: 0 <= i < |front| ==> AreApart(front[i], last)
    ensures Separate(front + [last])
  {
    var all := front + [last];
    assert forall i :: 0 <= i < |front| ==> all[i] == front[i];
  }

  // ----- where agents are

  predicate IsNowhere(place: string) { place == "" || Lower(place) == "none" }

  /** The agent's location is recorded under `k`: the first of its keys that the state has. */
  ghost predicate IsRecordedUnder(st: State, a: AgentInfo, k: string) {
    var byName, byID := TrimSpace(a.name) + "_location", TrimSpace(a.id) + "_location";
    k in st &&
    (k == byName || (byName !in st &&
                     (k == byID || (byID !in st &&
                                    exists t :: IsUnderscored(TrimSpace(a.id), t) && k == t + "_location"))))
  }

  /** The state has the agent at `place`, "" when it has no location for it. */
  ghost predicate IsAt(st: State, a: AgentInfo, place: string) {
    || (exists k :: IsRecordedUnder(st, a, k) && place == TrimSpace(st[k]))
    || (place == "" && forall k :: !IsRecordedUnder(st, a, k))
  }

  lemma FirstOfThree(st: State, a: string, b: string, c: string)
    ensures PlaceKey(st, [a, b, c]) == if a in st then a else if b in st then b else if c in st then c else ""
  {
    assert [a, b, c][1..] == [b, c] && [b, c][1..] == [c] && [c][1..] == [];
    assert PlaceKey(st, [c]) == if c in st then c else "";
    assert PlaceKey(st, [b, c]) == if b in st then b else PlaceKey(st, [c]);
  }

  lemma RecordedUnder(st: State, a: AgentInfo, k: string)
    requires !IsBlank(a.id)
    ensures IsRecordedUnder(st, a, k) <==> k != "" && k == PlaceKey(st, AliasOf(a).places)
  {
    var id := TrimSpace(a.id);
    var one, two, three := LocationKey(TrimSpace(a.name)), LocationKey(id), LocationKey(Underscored(id));
    UnderscoredKey(id, k);
    FirstOfThree(st, one, two, three);
    assert AliasOf(a).places == [one, two, three];
    assert one != "" && two != "" && three != "";
  }

  lemma IsAtPlace(st: State, a: AgentInfo, place: string)
    requires !IsBlank(a.id)
    ensures IsAt(st, a, place) <==> place == Place(st, AliasOf(a).places)
  {
    var k := PlaceKey(st, AliasOf(a).places);
    RecordedUnder(st, a, k);
    forall j { RecordedUnder(st, a, j); }
  }

  /** Where the clean-up has an agent: at its live location, or at the planner's when the live one is lost. */
  function FallBack(live: string, planned: string): string {
    if IsNowhere(live) && !IsNowhere(planned) then planned else live
  }

  lemma LocatedAt(before: State, current: State, a: AgentInfo, live: string, planned: string)
    requires !IsBlank(a.id) && IsAt(before, a, live) && IsAt(current, a, planned)
    ensures Locate(before, current, AliasOf(a)).place == FallBack(live, planned)
  {
    IsAtPlace(before, a, live);
    IsAtPlace(current, a, planned);
  }

  lemma LocatedKey(before: State, current: State, a: AgentInfo, k: string, planned: string)
    requires !IsBlank(a.id) && IsAt(current, a, planned)
    ensures var after := Locate(before, current, AliasOf(a)).merged;
            && (k in after <==> k in before)
            && (k in before ==>
                  after[k] == if IsRecordedUnder(before, a, k) then FallBackOf(before[k], planned) else before[k])
  {
    IsAtPlace(current, a, planned);
    RecordedUnder(before, a, k);
    AliasKey(before, current, AliasOf(a), k);
  }

  lemma AliasKey(before: State, current: State, a: Alias, k: string)
    requires WellFormed(a)
    ensures var after := Locate(before, current, a).merged;
            && (k in after <==> k in before)
            && (k in before ==>
                  after[k] == if k != "" && k == PlaceKey(before, a.places)
                              then FallBackOf(before[k], Place(current, a.places)) else before[k])
  {
  }

  /** What becomes of a recorded location. */
  function FallBackOf(recorded: string, planned: string): string {
    if IsNowhere(TrimSpace(recorded)) && !IsNowhere(planned) then planned else recorded
  }

  lemma OneLeavesPlaces(m: State, current: State, aliases: seq<Alias>, j: nat, i: nat)
    requires Separate(aliases) && i < |aliases| && j < |aliases| && i != j
    ensures Agree(m, Locate(m, current, aliases[j]).merged, aliases[i].places)
  {
    if i < j { assert SharesNone(aliases[i].places, aliases[j].places); }
    else { assert SharesNone(aliases[j].places, aliases[i].places); }
    LocateLeaves(m, current, aliases[j], aliases[i]);
  }

  /** Looking up one agent leaves the keys of every other. */
  ghost predicate LeavesOthers(locate: Locator, aliases: seq<Alias>) {
    forall m, i, j :: 0 <= i < |aliases| && 0 <= j < |aliases| && i != j ==>
      LeavesPlaces(locate, m, aliases[j], aliases[i])
  }

  ghost predicate LeavesPlaces(locate: Locator, m: State, a: Alias, other: Alias) {
    Agree(m, locate(m, a).merged, other.places)
  }

  lemma LocatorLeavesOthers(current: State, aliases: seq<Alias>)
    requires Separate(aliases)
    ensures LeavesOthers(LocatorFor(current), aliases)
  {
    forall m, i, j | 0 <= i < |aliases| && 0 <= j < |aliases| && i != j
      ensures LeavesPlaces(LocatorFor(current), m, aliases[j], aliases[i])
    {
      OneLeavesPlaces(m, current, aliases, j, i);
    }
  }

  lemma AgreeThrough(a: State, b: State, c: State, keys: seq<string>)
    requires Agree(a, b, keys) && Agree(b, c, keys)
    ensures Agree(a, c, keys)
  {
  }

  /** Looking up the first n agents leaves the keys of any other as they were. */
  lemma {:induction false} EarlierLeavePlaces(before: State, locate: Locator, aliases: seq<Alias>, n: nat, i: nat)
    requires LeavesOthers(locate, aliases) && n <= i < |aliases|
    ensures Agree(before, LocateAll(before, locate, aliases, n).merged, aliases[i].places)
  {
    if n > 0 {
      var k := n - 1;
      var m := LocateAll(before, locate, aliases, k).merged;
      EarlierLeavePlaces(before, locate, aliases, k, i);
      assert LeavesPlaces(locate, m, aliases[k], aliases[i]);
      AgreeThrough(before, m, locate(m, aliases[k]).merged, aliases[i].places);
    }
  }

  /** So do the agents after it. */
  lemma {:induction false} LaterLeavePlaces(before: State, locate: Locator, aliases: seq<Alias>, n: nat, i: nat)
    requires LeavesOthers(locate, aliases) && i < n <= |aliases|
    ensures Agree(locate(LocateAll(before, locate, aliases, i).merged, aliases[i]).merged,
                  LocateAll(before, locate, aliases, n).merged, aliases[i].places)
  {
    var k := n - 1;
    if i < k {
      var m := LocateAll(before, locate, aliases, k).merged;
      LaterLeavePlaces(before, locate, aliases, k, i);
      assert LeavesPlaces(locate, m, aliases[k], aliases[i]);
      AgreeThrough(locate(LocateAll(before, locate, aliases, i).merged, aliases[i]).merged, m,
                   locate(m, aliases[k]).merged, aliases[i].places);
    }
  }

  lemma SameLookUp(m: State, m': State, current: State, a: Alias)
    requires Agree(m, m', a.places)
    ensures Locate(m', current, a).place == Locate(m, current, a).place
    ensures Agree(Locate(m, current, a).merged, Locate(m', current, a).merged, a.places)
  {
    SamePlaceKey(m, m', a.places);
  }

  /** An agent is found, and its keys are left, as if it were the only one. */
  lemma LocatedAlone(before: State, current: State, aliases: seq<Alias>, i: nat)
    requires Separate(aliases) && i < |aliases|
    ensures FoundAt(before, LocatorFor(current), aliases, i) == Locate(before, current, aliases[i]).place
    ensures Agree(Locate(before, current, aliases[i]).merged,
                  LocateAll(before, LocatorFor(current), aliases, |aliases|).merged, aliases[i].places)
  {
    var locate := LocatorFor(current);
    var m := LocateAll(before, locate, aliases, i).merged;
    LocatorLeavesOthers(current, aliases);
    EarlierLeavePlaces(before, locate, aliases, i, i);
    LaterLeavePlaces(before, locate, aliases, |aliases|, i);
    SameLookUp(before, m, current, aliases[i]);
    AgreeThrough(Locate(before, current, aliases[i]).merged, locate(m, aliases[i]).merged,
                 LocateAll(before, locate, aliases, |aliases|).merged, aliases[i].places);
  }

  /** There is something to clean up: planner state, agents with ids, resources. */
  ghost predicate HasWork(before: State, current: State, agents: seq<AgentInfo>, resources: seq<ResourceInfo>) {
    && before != map[] && current != map[] && resources != []
    && exists x :: 0 <= x < |agents| && TrimSpace(agents[x].id) != ""
  }

  lemma WorkIsNotIdle(before: State, current: State, agents: seq<AgentInfo>, resources: seq<ResourceInfo>)
    ensures HasWork(before, current, agents, resources) <==> !Idle(before, current, agents, resources)
  {
    if x :| 0 <= x < |agents| && TrimSpace(agents[x].id) != "" { var i := AgentHasAlias(agents, x); }
    if AliasesOf(agents) != [] { var x := AliasIsAgents(agents, 0); }
  }

  /** With nothing to clean up nothing changes. */
  lemma NoWorkNoChange(before: State, current: State, agents: seq<AgentInfo>, resources: seq<ResourceInfo>)
    requires !HasWork(before, current, agents, resources)
    ensures Reconciled(before, current, agents, resources) == Released(before, false)
  {
    WorkIsNotIdle(before, current, agents, resources);
  }

  /** A location key gets the planner's location if it is where the live state records a lost one; or stays as it is. */
  lemma LostLocationsFallBack(
    before: State, current: State, agents: seq<AgentInfo>, resources: seq<ResourceInfo>, x: nat, k: string,
    planned: string)
    requires HasWork(before, current, agents, resources) && ToldApart(agents)
    requires x < |agents| && TrimSpace(agents[x].id) != "" && IsPlaceKey(agents[x], k)
    requires IsAt(current, agents[x], planned)
    ensures var after := Reconciled(before, current, agents, resources).merged;
            && (k in after <==> k in before)
            && (k in before ==>
                  after[k] == if IsRecordedUnder(before, agents[x], k) then FallBackOf(before[k], planned)
                              else before[k])
  {
    var i := AgentHasAlias(agents, x);
    PlacesAre(agents[x], k);
    WorkIsNotIdle(before, current, agents, resources);
    ToldApartIsSeparate(agents);
    PassLeavesLocated(before, current, AliasesOf(agents), SlotsOf(resources, current, |resources|), i);
    LocatedKey(before, current, agents[x], k, planned);
  }

  lemma PassLeavesLocated(before: State, current: State, aliases: seq<Alias>, slots: seq<Slot>, i: nat)
    requires Separate(aliases) && i < |aliases| && forall j :: 0 <= j < |slots| ==> IsSlotKey(slots[j].key)
    ensures Agree(Locate(before, current, aliases[i]).merged, Pass(before, current, aliases, slots).merged,
                  aliases[i].places)
  {
    var w := LocateAll(before, LocatorFor(current), aliases, |aliases|);
    LocatedAlone(before, current, aliases, i);
    ReleaseLeavesPlaces(w.merged, slots, SettlerFor(aliases, w.places), aliases[i]);
  }

  // ----- the resources the clean-up minds

  ghost predicate IsKind(r: ResourceInfo) { Lower(TrimSpace(r.kind)) == "type" }

  /** The resource at `x` is the last listed type with this id, among those that have a name. */
  ghost predicate IsTypeOf(resources: seq<ResourceInfo>, id: string, x: int) {
    && 0 <= x < |resources| && Types(resources[x], id)
    && (forall y :: x < y < |resources| ==> !Types(resources[y], id))
  }

  ghost predicate Types(r: ResourceInfo, id: string) {
    IsKind(r) && TrimSpace(r.id) == id != "" && TrimSpace(r.name) != ""
  }

  /** The clean-up minds named instances that are no worker slots, neither by name nor by type. */
  ghost predicate IsMinded(r: ResourceInfo, resources: seq<ResourceInfo>) {
    && !IsKind(r) && TrimSpace(r.name) != "" && !HasPrefix(Lower(TrimSpace(r.name)), "worker_slot")
    && (forall x :: IsTypeOf(resources, TrimSpace(r.parentID), x) ==>
          Lower(TrimSpace(resources[x].name)) != "worker_slot")
  }

  /** The resource's holder is recorded under `k`, by name before id. */
  ghost predicate IsHeldUnder(r: ResourceInfo, current: State, k: string) {
    var byName, byID := TrimSpace(r.name) + "_reserved_by", TrimSpace(r.id) + "_reserved_by";
    k in current && (k == byName || (k == byID && byName !in current))
  }

  lemma {:induction false} TypeIsLast(resources: seq<ResourceInfo>, id: string)
    requires id != ""
    ensures forall x :: IsTypeOf(resources, id, x) ==> TypeName(resources, id) == TrimSpace(resources[x].name)
    ensures (forall x :: !IsTypeOf(resources, id, x)) ==> TypeName(resources, id) == ""
  {
    if resources != [] {
      var n := |resources| - 1;
      var front := resources[..n];
      TypeIsLast(front, id);
      if Types(resources[n], id) {
        assert IsTypeOf(resources, id, n);
      } else {
        forall x ensures IsTypeOf(resources, id, x) <==> IsTypeOf(front, id, x) {
          TypeInFront(resources, front, id, x);
        }
      }
    }
  }

  lemma TypeInFront(resources: seq<ResourceInfo>, front: seq<ResourceInfo>, id: string, x: int)
    requires resources != [] && front == resources[..|resources| - 1] && !Types(resources[|resources| - 1], id)
    ensures IsTypeOf(resources, id, x) <==> IsTypeOf(front, id, x)
  {
    var n := |front|;
    assert resources == front + [resources[n]];
    if IsTypeOf(front, id, x) {
      forall y | x < y < |resources| ensures !Types(resources[y], id) { assert y < n ==> resources[y] == front[y]; }
    }
    if IsTypeOf(resources, id, x) {
      assert x != n;
      forall y | x < y < n ensures !Types(front[y], id) { assert front[y] == resources[y]; }
    }
  }

  lemma MindedIsNotSkipped(r: ResourceInfo, resources: seq<ResourceInfo>)
    ensures IsMinded(r, resources) <==> !Skips(r, resources)
  {
    var id := TrimSpace(r.parentID);
    PrefixIsStart("worker_slot", Lower(TrimSpace(r.name)));
    if id != "" {
      TypeIsLast(resources, id);
      if forall x :: !IsTypeOf(resources, id, x) { assert Lower(TypeName(resources, id)) == ""; }
    }
  }

  lemma HeldUnderIsKey(r: ResourceInfo, current: State, k: string)
    ensures IsHeldUnder(r, current, k) <==> k != "" && k == ReservationKey(r, current)
  {
  }

  lemma SlotIs(r: ResourceInfo, resources: seq<ResourceInfo>, current: State, k: string)
    ensures SlotOf(r, resources, current) == Some(Slot(TrimSpace(r.name), k))
            <==> IsMinded(r, resources) && IsHeldUnder(r, current, k)
  {
    MindedIsNotSkipped(r, resources);
    HeldUnderIsKey(r, current, k);
  }

  lemma {:induction false} SlotIsResources(resources: seq<ResourceInfo>, current: State, n: nat, i: nat)
    returns (y: nat)
    requires n <= |resources| && i < |SlotsOf(resources, current, n)|
    ensures y < n && SlotOf(resources[y], resources, current) == Some(SlotsOf(resources, current, n)[i])
  {
    var m := n - 1;
    if i < |SlotsOf(resources, current, m)| { y := SlotIsResources(resources, current, m, i); } else { y := m; }
  }

  lemma {:induction false} ResourceHasSlot(resources: seq<ResourceInfo>, current: State, n: nat, y: nat, s: Slot)
    requires y < n <= |resources| && SlotOf(resources[y], resources, current) == Some(s)
    ensures s in SlotsOf(resources, current, n)
    decreases n
  {
    var m := n - 1;
    if y < m {
      ResourceHasSlot(resources, current, m, y, s);
      SlotsGrow(resources, current, m, n, s);
    } else {
      SlotsGrow(resources, current, y, n, s);
    }
  }

  lemma SlotsGrow(resources: seq<ResourceInfo>, current: State, m: nat, n: nat, s: Slot)
    requires n == m + 1 <= |resources|
    ensures s in SlotsOf(resources, current, n) <==>
              s in SlotsOf(resources, current, m) || SlotOf(resources[m], resources, current) == Some(s)
  {
  }

  // ----- what becomes of a holder entry

  predicate IsSlotNamed(slots: seq<Slot>, k: string, name: string, n: nat)
    requires n <= |slots|
  {
    exists i :: 0 <= i < n && slots[i] == Slot(name, k)
  }

  /** A key whose slots all have one name ends as settling its value once. */
  lemma {:induction false} KeyIsSettled(
    merged: State, slots: seq<Slot>, settle: Settler, n: nat, k: string, name: string)
    requires Absorbing(settle) && n <= |slots|
    requires forall i :: 0 <= i < |slots| && slots[i].key == k ==> slots[i].name == name
    ensures var after := ReleaseAll(merged, slots, settle, n).merged;
            && ValueAt(after, k) == (if IsSlotNamed(slots, k, name, n) then settle(ValueAt(merged, k), name)
                                     else ValueAt(merged, k))
            && (k in after <==> k in merged || ValueAt(after, k) != ValueAt(merged, k))
  {
    if n > 0 {
      var m := n - 1;
      KeyIsSettled(merged, slots, settle, m, k, name);
      assert IsSlotNamed(slots, k, name, n) <==> IsSlotNamed(slots, k, name, m) || slots[m] == Slot(name, k);
    }
  }

  /** What a state records under a key, "" when it has nothing there. */
  function Entry(st: State, k: string): string { if k in st then st[k] else "" }

  /** Words for a resource nobody holds. */
  predicate MeansNobody(value: string) {
    Lower(TrimSpace(value)) in {"", "none", "null", "nil", "-", "na", "n/a", "false"}
  }

  /** The agent with an id that the entry names as holder. */
  ghost predicate IsHolder(agents: seq<AgentInfo>, x: int, value: string) {
    && 0 <= x < |agents| && TrimSpace(agents[x].id) != ""
    && !MeansNobody(value) && AnswersTo(agents[x], Lower(TrimSpace(value)))
  }

  /**
   What a holder entry becomes when its holder is called `name` and is taken to be at `place`: it is released when the
   holder is known to be elsewhere, and spelled with the holder's name otherwise.
   */
  function Amended(value: string, resource: string, name: string, place: string): string {
    if !IsNowhere(TrimSpace(place)) && Lower(TrimSpace(place)) != Lower(resource) then "none"
    else if Lower(TrimSpace(value)) != Lower(name) then name
    else value
  }

  lemma HolderIsAlias(agents: seq<AgentInfo>, x: nat, value: string) returns (i: nat)
    requires ToldApart(agents) && IsHolder(agents, x, value)
    ensures i < |AliasesOf(agents)| && AliasesOf(agents)[i] == AliasOf(agents[x])
    ensures AliasIndex(AliasesOf(agents), Holder(TrimSpace(value)), |AliasesOf(agents)|) == i
    ensures Holder(TrimSpace(value)) == Lower(TrimSpace(value)) != ""
  {
    i := AgentHasAlias(agents, x);
    ToldApartIsSeparate(agents);
    TokensAnswer(agents[x], Lower(TrimSpace(value)));
    TokenTellsAgent(AliasesOf(agents), Lower(TrimSpace(value)), i);
  }

  lemma NobodyIsAlias(agents: seq<AgentInfo>, value: string)
    requires forall x :: !IsHolder(agents, x, value)
    ensures var h := Holder(TrimSpace(value));
            h == "" || AliasIndex(AliasesOf(agents), h, |AliasesOf(agents)|) == |AliasesOf(agents)|
  {
    var aliases, h := AliasesOf(agents), Holder(TrimSpace(value));
    if h != "" {
      forall i | 0 <= i < |aliases| ensures h !in aliases[i].tokens {
        var x := AliasIsAgents(agents, i);
        TokensAnswer(agents[x], h);
        assert !IsHolder(agents, x, value);
      }
    }
  }

  /** The entry of a minded resource that shares its key with no resource of another name. */
  ghost predicate IsOwnKey(resources: seq<ResourceInfo>, current: State, y: nat, k: string) {
    && y < |resources| && IsMinded(resources[y], resources) && IsHeldUnder(resources[y], current, k)
    && (forall z :: 0 <= z < |resources| && IsMinded(resources[z], resources)
                    && IsHeldUnder(resources[z], current, k) ==>
          TrimSpace(resources[z].name) == TrimSpace(resources[y].name))
  }

  lemma OwnKeyHasOneName(resources: seq<ResourceInfo>, current: State, y: nat, k: string)
    requires IsOwnKey(resources, current, y, k)
    ensures var slots, name := SlotsOf(resources, current, |resources|), TrimSpace(resources[y].name);
            && IsSlotNamed(slots, k, name, |slots|)
            && (forall i :: 0 <= i < |slots| && slots[i].key == k ==> slots[i].name == name)
  {
    var slots, name := SlotsOf(resources, current, |resources|), TrimSpace(resources[y].name);
    SlotIs(resources[y], resources, current, k);
    ResourceHasSlot(resources, current, |resources|, y, Slot(name, k));
    var i :| 0 <= i < |slots| && slots[i] == Slot(name, k);
    forall j | 0 <= j < |slots| && slots[j].key == k ensures slots[j].name == name {
      var z := SlotIsResources(resources, current, |resources|, j);
      SlotIs(resources[z], resources, current, k);
    }
  }

  /** The clean-up of one entry, in terms of the settler of the pass. */
  lemma EntryIsSettled(
    before: State, current: State, agents: seq<AgentInfo>, resources: seq<ResourceInfo>, y: nat, k: string)
    requires HasWork(before, current, agents, resources) && ToldApart(agents) && IsOwnKey(resources, current, y, k)
    ensures var after := Reconciled(before, current, agents, resources).merged;
            var w := LocateAll(before, LocatorFor(current), AliasesOf(agents), |AliasesOf(agents)|);
            && ValueAt(after, k)
               == Settle(ValueAt(before, k), TrimSpace(resources[y].name), AliasesOf(agents), w.places)
            && (k in after <==> k in before || ValueAt(after, k) != ValueAt(before, k))
  {
    var aliases, slots := AliasesOf(agents), SlotsOf(resources, current, |resources|);
    var w := LocateAll(before, LocatorFor(current), aliases, |aliases|);
    WorkIsNotIdle(before, current, agents, resources);
    ToldApartIsSeparate(agents);
    SettlerIsAbsorbing(aliases, w.places);
    OwnKeyHasOneName(resources, current, y, k);
    KeyIsSettled(w.merged, slots, SettlerFor(aliases, w.places), |slots|, k, TrimSpace(resources[y].name));
    LocatingLeavesEntry(before, current, aliases, k);
  }

  lemma LocatingLeavesEntry(before: State, current: State, aliases: seq<Alias>, k: string)
    requires Separate(aliases) && |k| > 0 && k[|k| - 1] == 'y'
    ensures Agree(before, LocateAll(before, LocatorFor(current), aliases, |aliases|).merged, [k])
    ensures ValueAt(LocateAll(before, LocatorFor(current), aliases, |aliases|).merged, k) == ValueAt(before, k)
  {
    var locate := LocatorFor(current);
    forall m, i | 0 <= i < |aliases| ensures Agree(m, locate(m, aliases[i]).merged, [k]) {
      assert k !in aliases[i].places;
    }
    LocateFrame(before, locate, aliases, |aliases|, k);
    assert k in [k];
  }

  /** An entry whose holder is one of the agents is amended for where that agent is taken to be. */
  lemma HolderEntryIsAmended(
    before: State, current: State, agents: seq<AgentInfo>, resources: seq<ResourceInfo>, y: nat, k: string, x: nat,
    live: string, planned: string, name: string)
    requires HasWork(before, current, agents, resources) && ToldApart(agents) && IsOwnKey(resources, current, y, k)
    requires IsHolder(agents, x, Entry(before, k)) && IsCalled(agents[x], name)
    requires IsAt(before, agents[x], live) && IsAt(current, agents[x], planned)
    ensures Entry(Reconciled(before, current, agents, resources).merged, k)
            == Amended(Entry(before, k), TrimSpace(resources[y].name), name, FallBack(live, planned))
  {
    var aliases, locate := AliasesOf(agents), LocatorFor(current);
    EntryIsSettled(before, current, agents, resources, y, k);
    var i := HolderIsAlias(agents, x, ValueAt(before, k));
    PlaceIsRemembered(before, current, agents, x, i, live, planned);
    SettleIsAmended(aliases, LocateAll(before, locate, aliases, |aliases|).places, ValueAt(before, k),
                    TrimSpace(resources[y].name), i, FallBack(live, planned));
  }

  lemma PlaceIsRemembered(
    before: State, current: State, agents: seq<AgentInfo>, x: nat, i: nat, live: string, planned: string)
    requires ToldApart(agents) && x < |agents| && TrimSpace(agents[x].id) != ""
    requires i < |AliasesOf(agents)| && AliasesOf(agents)[i] == AliasOf(agents[x])
    requires IsAt(before, agents[x], live) && IsAt(current, agents[x], planned)
    ensures var aliases := AliasesOf(agents);
            var places := LocateAll(before, LocatorFor(current), aliases, |aliases|).places;
            aliases[i].canonical in places && places[aliases[i].canonical] == FallBack(live, planned)
  {
    var aliases := AliasesOf(agents);
    ToldApartIsSeparate(agents);
    FoundIsRemembered(before, LocatorFor(current), aliases, |aliases|, i);
    LocatedAlone(before, current, aliases, i);
    LocatedAt(before, current, agents[x], live, planned);
  }

  lemma SettleIsAmended(
    aliases: seq<Alias>, places: map<string, string>, value: string, resource: string, i: nat, place: string)
    requires i < |aliases| && aliases[i].canonical in places && places[aliases[i].canonical] == place
    requires Holder(TrimSpace(value)) != "" && AliasIndex(aliases, Holder(TrimSpace(value)), |aliases|) == i
    ensures Settle(value, resource, aliases, places) == Amended(value, resource, aliases[i].canonical, place)
  {
  }

  /** An entry whose holder is nobody, or nobody the session knows, stays as it is. */
  lemma OtherEntriesStay(
    before: State, current: State, agents: seq<AgentInfo>, resources: seq<ResourceInfo>, y: nat, k: string)
    requires HasWork(before, current, agents, resources) && ToldApart(agents) && IsOwnKey(resources, current, y, k)
    requires forall x :: !IsHolder(agents, x, Entry(before, k))
    ensures Entry(Reconciled(before, current, agents, resources).merged, k) == Entry(before, k)
    ensures k in Reconciled(before, current, agents, resources).merged <==> k in before
  {
    var value := Entry(before, k);
    assert ValueAt(before, k) == value;
    EntryIsSettled(before, current, agents, resources, y, k);
    NobodyIsAlias(agents, value);
    var aliases := AliasesOf(agents);
    NobodyIsKept(aliases, LocateAll(before, LocatorFor(current), aliases, |aliases|).places, value,
                 TrimSpace(resources[y].name));
  }

  lemma NobodyIsKept(aliases: seq<Alias>, places: map<string, string>, value: string, resource: string)
    requires var h := Holder(TrimSpace(value)); h == "" || AliasIndex(aliases, h, |aliases|) == |aliases|
    ensures Settle(value, resource, aliases, places) == value
  {
  }

  /** No other key is touched: worker slots, resource types and everything else keep what they have. */
  lemma OtherKeysStay(
    before: State, current: State, agents: seq<AgentInfo>, resources: seq<ResourceInfo>, k: string)
    requires forall x :: 0 <= x < |agents| && TrimSpace(agents[x].id) != "" ==> !IsPlaceKey(agents[x], k)
    requires forall y :: 0 <= y < |resources| && IsMinded(resources[y], resources) ==>
               !IsHeldUnder(resources[y], current, k)
    ensures var after := Reconciled(before, current, agents, resources).merged;
            (k in after <==> k in before) && (k in before ==> after[k] == before[k])
  {
    var aliases, slots := AliasesOf(agents), SlotsOf(resources, current, |resources|);
    forall i | 0 <= i < |aliases| ensures k !in aliases[i].places {
      var x := AliasIsAgents(agents, i);
      PlacesAre(agents[x], k);
    }
    forall i | 0 <= i < |slots| ensures slots[i].key != k {
      var y := SlotIsResources(resources, current, |resources|, i);
      SlotIs(resources[y], resources, current, slots[i].key);
      SlotNamed(resources[y], resources, current);
    }
    PlainKeysAreLeftAlone(before, current, agents, resources, k);
    assert k in [k];
  }

  lemma SlotNamed(r: ResourceInfo, resources: seq<ResourceInfo>, current: State)
    ensures SlotOf(r, resources, current).Some? ==> SlotOf(r, resources, current).value.name == TrimSpace(r.name)
  {
  }

  // ----- whether anything changed

  /** Looking an agent up reports a change exactly when it makes one. */
  ghost predicate Reports(locate: Locator) { forall m, a :: locate(m, a).changed <==> locate(m, a).merged != m }

  lemma LocatorReports(current: State)
    ensures Reports(LocatorFor(current))
  {
    forall m, a ensures Locate(m, current, a).changed <==> Locate(m, current, a).merged != m {
      LocateReports(m, current, a);
    }
  }

  lemma LocateReports(m: State, current: State, a: Alias)
    ensures Locate(m, current, a).changed <==> Locate(m, current, a).merged != m
  {
    var k, planned := PlaceKey(m, a.places), Place(current, a.places);
    if Locate(m, current, a).changed {
      assert Locate(m, current, a).merged[k] == planned && Unknown(TrimSpace(m[k])) && !Unknown(planned);
      assert TrimSpace(planned) == planned;
    }
  }

  lemma {:induction false} FirstMoved(before: State, locate: Locator, aliases: seq<Alias>, n: nat) returns (i: nat)
    requires Reports(locate) && n <= |aliases|
    ensures if LocateAll(before, locate, aliases, n).changed
            then i < n && locate(LocateAll(before, locate, aliases, i).merged, aliases[i]).changed
            else LocateAll(before, locate, aliases, n).merged == before
  {
    i := 0;
    if n > 0 {
      var m := n - 1;
      i := FirstMoved(before, locate, aliases, m);
      if !LocateAll(before, locate, aliases, m).changed { i := m; }
    }
  }

  lemma {:induction false} FirstReleased(merged: State, slots: seq<Slot>, settle: Settler, n: nat) returns (j: nat)
    requires n <= |slots|
    ensures if ReleaseAll(merged, slots, settle, n).changed then j < n && !IsSettled(merged, slots[j], settle)
            else ReleaseAll(merged, slots, settle, n).merged == merged
  {
    j := 0;
    if n > 0 {
      var m := n - 1;
      j := FirstReleased(merged, slots, settle, m);
      if !ReleaseAll(merged, slots, settle, m).changed { j := m; }
    }
  }

  /** A moved agent's location key ends up different. */
  lemma MovedIsDifferent(before: State, current: State, aliases: seq<Alias>, slots: seq<Slot>, i: nat)
    requires Separate(aliases) && i < |aliases| && forall j :: 0 <= j < |slots| ==> IsSlotKey(slots[j].key)
    requires Locate(LocateAll(before, LocatorFor(current), aliases, i).merged, current, aliases[i]).changed
    ensures Pass(before, current, aliases, slots).merged != before
  {
    var m := LocateAll(before, LocatorFor(current), aliases, i).merged;
    var a := aliases[i];
    LocatorLeavesOthers(current, aliases);
    EarlierLeavePlaces(before, LocatorFor(current), aliases, i, i);
    SamePlaceKey(before, m, a.places);
    var k := PlaceKey(before, a.places);
    LocateReports(before, current, a);
    assert Locate(before, current, a).changed;
    PassLeavesLocated(before, current, aliases, slots, i);
    assert k in a.places;
  }

  /** With agents told apart, the clean-up reports a change exactly when it has made one. */
  lemma ChangedIffDifferent(before: State, current: State, agents: seq<AgentInfo>, resources: seq<ResourceInfo>)
    requires ToldApart(agents)
    ensures var r := Reconciled(before, current, agents, resources); r.changed <==> r.merged != before
  {
    WorkIsNotIdle(before, current, agents, resources);
    if HasWork(before, current, agents, resources) {
      ToldApartIsSeparate(agents);
      PassReports(before, current, AliasesOf(agents), SlotsOf(resources, current, |resources|));
    }
  }

  lemma PassReports(before: State, current: State, aliases: seq<Alias>, slots: seq<Slot>)
    requires Separate(aliases) && forall j :: 0 <= j < |slots| ==> IsSlotKey(slots[j].key)
    ensures var r := Pass(before, current, aliases, slots); r.changed <==> r.merged != before
  {
    var w := LocateAll(before, LocatorFor(current), aliases, |aliases|);
    var settle := SettlerFor(aliases, w.places);
    LocatorReports(current);
    var i := FirstMoved(before, LocatorFor(current), aliases, |aliases|);
    if w.changed {
      MovedIsDifferent(before, current, aliases, slots, i);
    } else {
      var j := FirstReleased(w.merged, slots, settle, |slots|);
      SettlerIsAbsorbing(aliases, w.places);
      if ReleaseAll(w.merged, slots, settle, |slots|).changed {
        ReleaseSettlesAll(w.merged, slots, settle, |slots|, j);
      }
    }
  }
}
