/** Expanding `{{resource.*}}` and `{{agent.*}}` placeholders in a goal state over all resource instances and agents. */
module GoalExpansion {
  import opened Text
  import opened Planning
  import opened Dispatch
  import opened Placeholders

  const RESOURCE_ID := "{{resource.id}}"
  const RESOURCE_NAME := "{{resource.name}}"
  const RESOURCE_KIND := "{{resource.kind}}"
  const PARENT_ID := "{{resource.parent_id}}"
  const PARENT_RESOURCE_ID := "{{resource.parent_resource_id}}"
  const AGENT_ID := "{{agent.id}}"
  const AGENT_NAME := "{{agent.name}}"

  const RESOURCE_PREFIX := "{{resource."
  const AGENT_PREFIX := "{{agent."

  function ResourceTable(r: ResourceInfo): (t: Table)
    ensures IsTable(t)
  {
    map[RESOURCE_ID := r.id, RESOURCE_NAME := r.name, RESOURCE_KIND := r.kind, PARENT_ID := r.parentID,
        PARENT_RESOURCE_ID := r.parentID]
  }

  function AgentTable(a: AgentInfo): (t: Table)
    ensures IsTable(t)
  {
    map[AGENT_ID := a.id, AGENT_NAME := a.name]
  }

  /** The result of filling in a text; the only one when the fill-in is sure. */
  ghost function Filled(s: string, t: Table): (r: string)
    requires IsTable(t)
    ensures Yields(s, t, r)
  {
    var order := ListingOf(t.Keys);
    ListsWithin(order, t.Keys, t);
    FillInOrder(s, t, order)
  }

  ghost function ListingOf(keys: set<string>): (order: seq<string>)
    ensures Lists(order, keys)
  {
    SomeListingExists(keys);
    var order :| Lists(order, keys);
    order
  }

  lemma SomeListingExists(keys: set<string>)
    ensures exists order :: Lists(order, keys)
  {
    var order := SomeListing(keys);
  }

  /** The iteration order cannot matter for this text: the names are calm, or brace-free and nothing appears. */
  ghost predicate Sure(s: string, t: Table)
    requires IsTable(t)
  {
    Calm(t) || (Braceless(t) && NothingAppears(s, t))
  }

  lemma SureIsFilled(s: string, t: Table, r: string)
    requires IsTable(t) && Sure(s, t) && Yields(s, t, r)
    ensures r == Filled(s, t)
    ensures Braceless(t) && NothingAppears(s, t) ==> r == AtOnce(s, t, t.Keys)
  {
    OrderFreeIffCalm(t);
    assert Yields(s, t, Filled(s, t));
    if Braceless(t) { AtOnceIffNothingAppears(s, t); }
  }

  /** A name without braces can still be restless: it may complete a nested placeholder. */
  lemma PlainNamesAreNotEnough(r: ResourceInfo)
    requires r.id == "name" && r.name == "dock"
    ensures !OrderFree(ResourceTable(r))
  {
    var t := ResourceTable(r);
    assert forall j :: 0 <= j < 4 ==> "name"[j] == RESOURCE_NAME[11 + j];
    assert TouchesAt(r.id, RESOURCE_NAME, 11);
    assert Touches(t[RESOURCE_ID], RESOURCE_NAME);
    assert RESOURCE_ID in t && RESOURCE_NAME in t && |RESOURCE_ID| != |RESOURCE_NAME|;
    assert |t[RESOURCE_NAME]| == 4;
    OrderFreeIffCalm(t);
  }

  // ----- ground instances

  datatype GoalEntry = GoalEntry(variable: string, value: string)

  predicate NeedsResource(e: GoalEntry) {
    Contains(e.variable, RESOURCE_PREFIX) || Contains(e.value, RESOURCE_PREFIX)
  }

  predicate NeedsAgent(e: GoalEntry) { Contains(e.variable, AGENT_PREFIX) || Contains(e.value, AGENT_PREFIX) }

  predicate Resolved(e: GoalEntry) { !NeedsResource(e) && !NeedsAgent(e) }

  function Key(e: GoalEntry): string { TrimSpace(e.variable) }

  ghost function FilledEntry(e: GoalEntry, t: Table): GoalEntry
    requires IsTable(t)
  {
    GoalEntry(Filled(e.variable, t), Filled(e.value, t))
  }

  /** What a goal is expanded over. */
  datatype World = World(instances: seq<ResourceInfo>, agents: seq<AgentInfo>)

  ghost predicate SureEntry(e: GoalEntry, t: Table)
    requires IsTable(t)
  {
    Sure(e.variable, t) && Sure(e.value, t)
  }

  /** Every fill-in that expanding the goal takes is sure. */
  ghost predicate SureGoal(e: GoalEntry, w: World) {
    && (NeedsResource(e) ==> SureFor(e, ResourceTables(w)))
    && (NeedsAgent(e) ==> forall m :: ForResource(e, m, w) ==> SureFor(m, AgentTables(w)))
  }

  ghost predicate SureFor(m: GoalEntry, tables: seq<Table>)
    requires forall t :: t in tables ==> IsTable(t)
  {
    forall t :: t in tables ==> SureEntry(m, t)
  }

  ghost predicate SureGoals(goals: set<GoalEntry>, w: World) { forall e :: e in goals ==> SureGoal(e, w) }

  function ResourceTables(w: World): (r: seq<Table>)
    ensures |r| == |w.instances| && forall t :: t in r ==> IsTable(t)
  {
    seq(|w.instances|, i requires 0 <= i < |w.instances| => ResourceTable(w.instances[i]))
  }

  function AgentTables(w: World): (r: seq<Table>)
    ensures |r| == |w.agents| && forall t :: t in r ==> IsTable(t)
  {
    seq(|w.agents|, j requires 0 <= j < |w.agents| => AgentTable(w.agents[j]))
  }

  /** `m` is `e` with the resource placeholders filled in for some instance, if it has any. */
  ghost predicate ForResource(e: GoalEntry, m: GoalEntry, w: World) {
    if NeedsResource(e) then exists t :: t in ResourceTables(w) && m == FilledEntry(e, t) else m == e
  }

  /** `x` is `m` with the agent placeholders filled in for some agent, if the goal `e` has any. */
  ghost predicate ForAgent(e: GoalEntry, m: GoalEntry, x: GoalEntry, w: World) {
    if NeedsAgent(e) then exists t :: t in AgentTables(w) && x == FilledEntry(m, t) else x == m
  }

  /** `x` is a ground instance of the goal `e`. */
  ghost predicate Ground(e: GoalEntry, x: GoalEntry, w: World) {
    exists m :: ForResource(e, m, w) && ForAgent(e, m, x, w)
  }

  predicate Scoped(e: GoalEntry, w: World) {
    (NeedsResource(e) ==> w.instances != []) && (NeedsAgent(e) ==> w.agents != [])
  }

  // ----- what an expansion is

  /** The entry is resolved and the state has its value. */
  predicate Fits(x: GoalEntry, m: State) {
    Resolved(x) && (Key(x) != "" ==> Key(x) in m && m[Key(x)] == x.value)
  }

  /** `m` holds the ground instances of the goals, all of them and nothing else. */
  ghost predicate Expands(m: State, goals: set<GoalEntry>, w: World) {
    && (forall e :: e in goals ==> Scoped(e, w))
    && (forall e, x :: e in goals && Ground(e, x, w) ==> Fits(x, m))
    && (forall k :: k in m ==> k != "" && exists e, x :: e in goals && Ground(e, x, w) && Key(x) == k)
  }

  /** There is at most one expansion, so the order in which the goal map is visited cannot matter. */
  lemma ExpansionIsUnique(m: State, n: State, goals: set<GoalEntry>, w: World)
    requires Expands(m, goals, w) && Expands(n, goals, w)
    ensures m == n
  {
    HalfUnique(m, n, goals, w);
    HalfUnique(n, m, goals, w);
  }

  lemma HalfUnique(m: State, n: State, goals: set<GoalEntry>, w: World)
    requires Expands(m, goals, w) && Expands(n, goals, w)
    ensures forall k :: k in m ==> k in n && n[k] == m[k]
  {
    forall k | k in m ensures k in n && n[k] == m[k] {
      var e, x :| e in goals && Ground(e, x, w) && Key(x) == k;
      assert Fits(x, m) && Fits(x, n);
    }
  }

  /** Two ground instances of the same variable with different values rule out any expansion. */
  lemma ConflictAlwaysFails(
    goals: set<GoalEntry>, w: World, e: GoalEntry, x: GoalEntry, f: GoalEntry, y: GoalEntry, m: State)
    requires e in goals && f in goals && Ground(e, x, w) && Ground(f, y, w)
    requires Key(x) == Key(y) != "" && x.value != y.value
    ensures !Expands(m, goals, w)
  {
    if Expands(m, goals, w) { HasItsValue(goals, w, e, x, m); HasItsValue(goals, w, f, y, m); }
  }

  lemma HasItsValue(goals: set<GoalEntry>, w: World, e: GoalEntry, x: GoalEntry, m: State)
    requires Expands(m, goals, w) && e in goals && Ground(e, x, w) && Key(x) != ""
    ensures Key(x) in m && m[Key(x)] == x.value
  {
    assert Fits(x, m);
  }

  // ----- one goal

  /** `x` is what some iteration orders make of `e`. */
  ghost predicate MayFill(e: GoalEntry, t: Table, x: GoalEntry)
    requires IsTable(t)
  {
    Yields(e.variable, t, x.variable) && Yields(e.value, t, x.value)
  }

  ghost predicate AllTables(tables: seq<Table>) { forall t :: t in tables ==> IsTable(t) }

  /** Every entry is a fill-in of some text with some table, and every text and table has one. */
  ghost predicate Fillings(texts: seq<GoalEntry>, tables: seq<Table>, entries: seq<GoalEntry>)
    requires AllTables(tables)
  {
    && (forall x :: x in entries ==> exists m, t :: m in texts && t in tables && MayFill(m, t, x))
    && (forall m, t :: m in texts && t in tables ==> HasFilling(m, t, entries))
  }

  ghost predicate HasFilling(m: GoalEntry, t: Table, entries: seq<GoalEntry>)
    requires IsTable(t)
  {
    exists x :: x in entries && MayFill(m, t, x)
  }

  /** Some iteration orders expand the goal to these entries. */
  ghost predicate MayInstantiate(e: GoalEntry, w: World, entries: seq<GoalEntry>) {
    exists middle :: Through(e, w, middle, entries)
  }

  /** The goal becomes `middle` over the resource instances, and that the entries over the agents. */
  ghost predicate Through(e: GoalEntry, w: World, middle: seq<GoalEntry>, entries: seq<GoalEntry>) {
    && (if NeedsResource(e) then Fillings([e], ResourceTables(w), middle) else middle == [e])
    && (if NeedsAgent(e) then Fillings(middle, AgentTables(w), entries) else entries == middle)
  }

  /** The two nested expansions of one goal; where its fill-ins are sure the entries are its ground instances. */
  method Instantiate(e: GoalEntry, w: World) returns (entries: seq<GoalEntry>)
    ensures MayInstantiate(e, w, entries)
    ensures SureGoal(e, w) ==> forall x :: x in entries <==> Ground(e, x, w)
  {
    var middle := [e];
    if NeedsResource(e) { middle := FillAll(middle, ResourceTables(w)); }
    entries := middle;
    if NeedsAgent(e) { entries := FillAll(middle, AgentTables(w)); }
    assert Through(e, w, middle, entries);
    if SureGoal(e, w) { SureChoiceIsGround(e, w, entries); }
  }

  /** The nested loops over entries and over resource instances or agents. */
  method FillAll(texts: seq<GoalEntry>, tables: seq<Table>) returns (entries: seq<GoalEntry>)
    requires AllTables(tables)
    ensures Fillings(texts, tables, entries)
  {
    entries := [];
    for i := 0 to |texts|
      invariant Fillings(texts[..i], tables, entries)
    {
      var more := FillOne(texts[i], tables);
      MoreTexts(texts, i, tables, entries, more);
      entries := entries + more;
    }
    assert texts[..|texts|] == texts;
  }

  method FillOne(m: GoalEntry, tables: seq<Table>) returns (entries: seq<GoalEntry>)
    requires AllTables(tables)
    ensures Fillings([m], tables, entries)
  {
    entries := [];
    for j := 0 to |tables|
      invariant AllTables(tables[..j]) && Fillings([m], tables[..j], entries)
    {
      assert tables[j] in tables;
      var variable := Fill(m.variable, tables[j]);
      var value := Fill(m.value, tables[j]);
      MoreTables(m, tables, j, entries, GoalEntry(variable, value));
      entries := entries + [GoalEntry(variable, value)];
    }
    assert tables[..|tables|] == tables;
  }

  lemma MoreTexts(
    texts: seq<GoalEntry>, i: nat, tables: seq<Table>, entries: seq<GoalEntry>, more: seq<GoalEntry>)
    requires i < |texts| && AllTables(tables)
    requires Fillings(texts[..i], tables, entries) && Fillings([texts[i]], tables, more)
    ensures Fillings(texts[..i + 1], tables, entries + more)
  {
    var all := entries + more;
    assert texts[..i + 1] == texts[..i] + [texts[i]];
    forall x | x in all ensures exists m, t :: m in texts[..i + 1] && t in tables && MayFill(m, t, x) {
      if x in entries {
        var m, t :| m in texts[..i] && t in tables && MayFill(m, t, x);
        assert m in texts[..i + 1];
      } else {
        var m, t :| m in [texts[i]] && t in tables && MayFill(m, t, x);
        assert m in texts[..i + 1];
      }
    }
    forall m, t | m in texts[..i + 1] && t in tables ensures HasFilling(m, t, all) {
      if m in texts[..i] {
        assert HasFilling(m, t, entries);
        var x :| x in entries && MayFill(m, t, x);
        assert x in all;
      } else {
        assert m in [texts[i]] && HasFilling(m, t, more);
        var x :| x in more && MayFill(m, t, x);
        assert x in all;
      }
    }
  }

  lemma MoreTables(m: GoalEntry, tables: seq<Table>, j: nat, entries: seq<GoalEntry>, x: GoalEntry)
    requires j < |tables| && AllTables(tables) && AllTables(tables[..j])
    requires Fillings([m], tables[..j], entries) && MayFill(m, tables[j], x)
    ensures AllTables(tables[..j + 1]) && Fillings([m], tables[..j + 1], entries + [x])
  {
    var front, all := tables[..j + 1], entries + [x];
    assert front == tables[..j] + [tables[j]] && m in [m];
    forall y | y in all ensures exists n, t :: n in [m] && t in front && MayFill(n, t, y) {
      if y in entries {
        var n, t :| n in [m] && t in tables[..j] && MayFill(n, t, y);
        assert t in front;
      } else {
        assert tables[j] in front;
      }
    }
    forall n, t | n in [m] && t in front ensures HasFilling(n, t, all) {
      if t in tables[..j] {
        assert HasFilling(n, t, entries);
        var y :| y in entries && MayFill(n, t, y);
        assert y in all;
      } else {
        assert x in all && MayFill(n, t, x);
      }
    }
  }

  /** Where the fill-ins are sure there is only one thing each can be. */
  lemma SureFillings(texts: seq<GoalEntry>, tables: seq<Table>, entries: seq<GoalEntry>)
    requires AllTables(tables) && Fillings(texts, tables, entries) && forall m :: m in texts ==> SureFor(m, tables)
    ensures forall x :: x in entries <==> exists m, t :: m in texts && t in tables && x == FilledEntry(m, t)
  {
    forall x | x in entries ensures exists m, t :: m in texts && t in tables && x == FilledEntry(m, t) {
      var m, t :| m in texts && t in tables && MayFill(m, t, x);
      SureEntryIsFilled(m, t, x);
    }
    forall m, t | m in texts && t in tables ensures FilledEntry(m, t) in entries {
      assert HasFilling(m, t, entries);
      var x :| x in entries && MayFill(m, t, x);
      SureEntryIsFilled(m, t, x);
    }
  }

  lemma SureEntryIsFilled(m: GoalEntry, t: Table, x: GoalEntry)
    requires IsTable(t) && SureEntry(m, t) && MayFill(m, t, x)
    ensures x == FilledEntry(m, t)
  {
    SureIsFilled(m.variable, t, x.variable);
    SureIsFilled(m.value, t, x.value);
  }

  lemma SureChoiceIsGround(e: GoalEntry, w: World, entries: seq<GoalEntry>)
    requires SureGoal(e, w) && MayInstantiate(e, w, entries)
    ensures forall x :: x in entries <==> Ground(e, x, w)
  {
    var middle :| Through(e, w, middle, entries);
    assert e in [e];
    if NeedsResource(e) { SureFillings([e], ResourceTables(w), middle); }
    assert forall m :: m in middle <==> ForResource(e, m, w);
    if NeedsAgent(e) {
      SureFillings(middle, AgentTables(w), entries);
    } else {
      assert forall x :: ForAgent(e, x, x, w);
    }
    GroundFrom(e, w, middle, entries);
  }

  lemma GroundFrom(e: GoalEntry, w: World, middle: seq<GoalEntry>, entries: seq<GoalEntry>)
    requires forall m :: m in middle <==> ForResource(e, m, w)
    requires forall x :: x in entries <==> exists m :: m in middle && ForAgent(e, m, x, w)
    ensures forall x :: x in entries <==> Ground(e, x, w)
  {
  }

  /** There is always some instantiation. */
  lemma {:induction false} SomeOne(m: GoalEntry, tables: seq<Table>, n: nat) returns (entries: seq<GoalEntry>)
    requires AllTables(tables) && n <= |tables|
    ensures AllTables(tables[..n]) && Fillings([m], tables[..n], entries)
  {
    entries := [];
    if n > 0 {
      var rest := SomeOne(m, tables, n - 1);
      assert tables[n - 1] in tables;
      MoreTables(m, tables, n - 1, rest, FilledEntry(m, tables[n - 1]));
      entries := rest + [FilledEntry(m, tables[n - 1])];
    }
  }

  lemma {:induction false} SomeFillings(texts: seq<GoalEntry>, tables: seq<Table>, n: nat)
    returns (entries: seq<GoalEntry>)
    requires AllTables(tables) && n <= |texts|
    ensures Fillings(texts[..n], tables, entries)
  {
    entries := [];
    if n > 0 {
      var rest := SomeFillings(texts, tables, n - 1);
      var block := SomeOne(texts[n - 1], tables, |tables|);
      assert tables[..|tables|] == tables;
      MoreTexts(texts, n - 1, tables, rest, block);
      entries := rest + block;
    }
  }

  lemma SomeInstantiation(e: GoalEntry, w: World) returns (entries: seq<GoalEntry>)
    ensures MayInstantiate(e, w, entries)
  {
    var middle := [e];
    if NeedsResource(e) {
      middle := SomeFillings([e], ResourceTables(w), 1);
      assert [e][..1] == [e];
    }
    entries := middle;
    if NeedsAgent(e) {
      entries := SomeFillings(middle, AgentTables(w), |middle|);
      assert middle[..|middle|] == middle;
    }
    assert Through(e, w, middle, entries);
  }

  // ----- adding entries

  ghost predicate Keeps(before: State, m: State) { forall k :: k in before ==> k in m && m[k] == before[k] }

  ghost predicate AllFit(entries: seq<GoalEntry>, m: State) { forall x :: x in entries ==> Fits(x, m) }

  /** Every key is an old one or that of an entry. */
  ghost predicate OnlyFrom(m: State, before: State, entries: seq<GoalEntry>) {
    forall k :: k in m ==> k in before || (k != "" && exists x :: x in entries && Key(x) == k)
  }

  /** No state that keeps `before` fits all entries. */
  ghost predicate Hopeless(before: State, entries: seq<GoalEntry>) {
    forall m :: Keeps(before, m) ==> !AllFit(entries, m)
  }

  /** The inner loop over a goal's entries: unresolved or conflicting entries are errors. */
  method AddEntries(before: State, entries: seq<GoalEntry>) returns (ok: bool, m: State)
    ensures ok ==> Keeps(before, m) && AllFit(entries, m) && OnlyFrom(m, before, entries)
    ensures !ok ==> Hopeless(before, entries)
  {
    m := before;
    var i := 0;
    while i < |entries|
      invariant 0 <= i <= |entries|
      invariant Keeps(before, m) && AllFit(entries[..i], m) && OnlyFrom(m, before, entries[..i])
    {
      var x := entries[i];
      assert entries[..i + 1] == entries[..i] + [x];
      if !Resolved(x) {
        assert x in entries;
        return false, m;
      }
      if Key(x) != "" {
        if Key(x) in m && m[Key(x)] != x.value {
          Clash(before, entries, i, m);
          return false, m;
        }
        AddOne(before, entries[..i], x, m);
        m := m[Key(x) := x.value];
      }
      i := i + 1;
    }
    assert entries[..i] == entries;
    ok := true;
  }

  lemma AddOne(before: State, front: seq<GoalEntry>, x: GoalEntry, m: State)
    requires Keeps(before, m) && AllFit(front, m) && OnlyFrom(m, before, front)
    requires Resolved(x) && Key(x) != "" && (Key(x) in m ==> m[Key(x)] == x.value)
    ensures var n := m[Key(x) := x.value];
            Keeps(before, n) && AllFit(front + [x], n) && OnlyFrom(n, before, front + [x])
  {
    var n := m[Key(x) := x.value];
    forall y | y in front + [x] ensures Fits(y, n) {
      if y in front { assert Fits(y, m); }
    }
    forall k | k in n ensures k in before || (k != "" && exists y :: y in front + [x] && Key(y) == k) {
      if k == Key(x) {
        assert x in front + [x];
      } else if k !in before {
        var y :| y in front && Key(y) == k;
        assert y in front + [x];
      }
    }
  }

  lemma Clash(before: State, entries: seq<GoalEntry>, i: nat, m: State)
    requires i < |entries| && Key(entries[i]) in m && m[Key(entries[i])] != entries[i].value
    requires Key(entries[i]) != ""
    requires Keeps(before, m) && AllFit(entries[..i], m) && OnlyFrom(m, before, entries[..i])
    ensures Hopeless(before, entries)
  {
    var x := entries[i];
    forall n | Keeps(before, n) ensures !AllFit(entries, n) {
      assert x in entries;
      if Key(x) !in before {
        var y :| y in entries[..i] && Key(y) == Key(x);
        assert y in entries && m[Key(x)] == y.value;
      }
    }
  }

  // ----- the whole goal state

  function EntriesOf(goalState: State): set<GoalEntry> { set v | v in goalState :: GoalEntry(v, goalState[v]) }

  const INSTANCE: ResourceInfo -> bool := (r: ResourceInfo) => !IsType(r)

  /** resourceInstances and the selected agents. */
  function WorldOf(resources: seq<ResourceInfo>, agents: seq<AgentInfo>): World {
    World(Filter(resources, INSTANCE), agents)
  }

  /** For every goal, the entries some iteration orders expand it to. */
  type Choice = map<GoalEntry, seq<GoalEntry>>

  ghost predicate MayChoose(choice: Choice, goals: set<GoalEntry>, w: World) {
    forall e :: e in goals ==> e in choice && MayInstantiate(e, w, choice[e])
  }

  /** `m` holds the chosen entries of the goals, all of them and nothing else. */
  ghost predicate ExpandsTo(m: State, goals: set<GoalEntry>, w: World, choice: Choice)
    requires goals <= choice.Keys
  {
    && (forall e :: e in goals ==> Scoped(e, w))
    && (forall e :: e in goals ==> AllFit(choice[e], m))
    && (forall k :: k in m ==> k != "" && ComesFrom(k, goals, choice))
  }

  ghost predicate ComesFrom(k: string, goals: set<GoalEntry>, choice: Choice)
    requires goals <= choice.Keys
  {
    exists e, x :: e in goals && x in choice[e] && Key(x) == k
  }

  /** Where every fill-in is sure there is only one choice. */
  lemma SureChoiceIsExpansion(m: State, goals: set<GoalEntry>, w: World, choice: Choice)
    requires SureGoals(goals, w) && MayChoose(choice, goals, w)
    ensures goals <= choice.Keys && (ExpandsTo(m, goals, w, choice) <==> Expands(m, goals, w))
  {
    forall e | e in goals ensures forall x :: x in choice[e] <==> Ground(e, x, w) {
      SureChoiceIsGround(e, w, choice[e]);
    }
  }

  /**
   expandGoalStatePlaceholders. The goal map and the replacement maps are visited in any order. The outcome is the
   expansion for some choice of orders, or an error exactly when there is none for it; where every fill-in is sure it is
   the expansion of the whole goal state, or an error exactly when there is none.
   */
  method ExpandGoalState(goalState: State, resources: seq<ResourceInfo>, agents: seq<AgentInfo>)
    returns (r: Option<State>, ghost choice: Choice)
    ensures EntriesOf(goalState) <= choice.Keys
    ensures MayChoose(choice, EntriesOf(goalState), WorldOf(resources, agents))
    ensures if r.Some? then ExpandsTo(r.value, EntriesOf(goalState), WorldOf(resources, agents), choice)
            else forall m :: !ExpandsTo(m, EntriesOf(goalState), WorldOf(resources, agents), choice)
    ensures SureGoals(EntriesOf(goalState), WorldOf(resources, agents)) ==>
              if r.Some? then Expands(r.value, EntriesOf(goalState), WorldOf(resources, agents))
              else forall m :: !Expands(m, EntriesOf(goalState), WorldOf(resources, agents))
  {
    var instances := Keep(resources, INSTANCE);
    var w := World(instances, agents);
    r, choice := ExpandOver(goalState, w);
    ghost var goals := EntriesOf(goalState);
    if SureGoals(goals, w) {
      forall m ensures ExpandsTo(m, goals, w, choice) <==> Expands(m, goals, w) {
        SureChoiceIsExpansion(m, goals, w, choice);
      }
    }
  }

  /** The loop over the goal map. */
  method ExpandOver(goalState: State, w: World) returns (r: Option<State>, ghost choice: Choice)
    ensures EntriesOf(goalState) <= choice.Keys && MayChoose(choice, EntriesOf(goalState), w)
    ensures if r.Some? then ExpandsTo(r.value, EntriesOf(goalState), w, choice)
            else forall m :: !ExpandsTo(m, EntriesOf(goalState), w, choice)
  {
    ghost var goals := EntriesOf(goalState);
    choice := SomeChoice(goals, w);
    var expanded: State := map[];
    ghost var done: set<GoalEntry> := {};
    var left := goalState.Keys;
    while left != {}
      invariant left <= goalState.Keys && done <= goals <= choice.Keys && MayChoose(choice, goals, w)
      invariant forall v :: v in goalState ==> (GoalEntry(v, goalState[v]) in done <==> v !in left)
      invariant ExpandsTo(expanded, done, w, choice)
      decreases left
    {
      var variable :| variable in left;
      var e := GoalEntry(variable, goalState[variable]);
      assert e in goals && e !in done;
      if !Scoped(e, w) { return None, choice; }
      var entries := Instantiate(e, w);
      ghost var before := expanded;
      var ok;
      ok, expanded := AddEntries(expanded, entries);
      Chosen(before, done, goals, w, choice, e, entries);
      choice := choice[e := entries];
      if !ok {
        NoExpansion(before, e, done, goals, w, choice);
        return None, choice;
      }
      OneMoreGoal(before, expanded, e, done, w, choice);
      done, left := done + {e}, left - {variable};
    }
    assert done == goals;
    r := Some(expanded);
  }

  lemma {:induction false} SomeChoice(goals: set<GoalEntry>, w: World) returns (choice: Choice)
    ensures goals <= choice.Keys && MayChoose(choice, goals, w)
  {
    if goals == {} {
      choice := map[];
    } else {
      var e :| e in goals;
      var rest := SomeChoice(goals - {e}, w);
      var entries := SomeInstantiation(e, w);
      choice := rest[e := entries];
    }
  }

  lemma Chosen(
    before: State, done: set<GoalEntry>, goals: set<GoalEntry>, w: World, choice: Choice, e: GoalEntry,
    entries: seq<GoalEntry>)
    requires done <= goals <= choice.Keys && e in goals && e !in done && MayInstantiate(e, w, entries)
    requires MayChoose(choice, goals, w) && ExpandsTo(before, done, w, choice)
    ensures MayChoose(choice[e := entries], goals, w) && ExpandsTo(before, done, w, choice[e := entries])
  {
    var choice' := choice[e := entries];
    forall k | k in before ensures ComesFrom(k, done, choice') {
      assert ComesFrom(k, done, choice);
      var f, x :| f in done && x in choice[f] && Key(x) == k;
      assert x in choice'[f];
    }
  }

  lemma OneMoreGoal(before: State, m: State, e: GoalEntry, done: set<GoalEntry>, w: World, choice: Choice)
    requires done + {e} <= choice.Keys && ExpandsTo(before, done, w, choice) && Scoped(e, w)
    requires Keeps(before, m) && AllFit(choice[e], m) && OnlyFrom(m, before, choice[e])
    ensures ExpandsTo(m, done + {e}, w, choice)
  {
    forall f | f in done + {e} ensures AllFit(choice[f], m) {
      if f in done { KeptFits(before, m, choice[f]); }
    }
    forall k | k in m ensures k != "" && ComesFrom(k, done + {e}, choice) {
      if k in before {
        assert ComesFrom(k, done, choice);
        var f, x :| f in done && x in choice[f] && Key(x) == k;
        assert f in done + {e};
      } else {
        var x :| x in choice[e] && Key(x) == k;
        assert e in done + {e};
      }
    }
  }

  lemma KeptFits(before: State, m: State, entries: seq<GoalEntry>)
    requires Keeps(before, m) && AllFit(entries, before)
    ensures AllFit(entries, m)
  {
    forall x | x in entries ensures Fits(x, m) { assert Fits(x, before); }
  }

  lemma NoExpansion(
    before: State, e: GoalEntry, done: set<GoalEntry>, goals: set<GoalEntry>, w: World, choice: Choice)
    requires done <= goals <= choice.Keys && e in goals && ExpandsTo(before, done, w, choice)
    requires Hopeless(before, choice[e])
    ensures forall m :: !ExpandsTo(m, goals, w, choice)
  {
    forall m ensures !ExpandsTo(m, goals, w, choice) {
      if ExpandsTo(m, goals, w, choice) { KeepsBefore(before, done, m, goals, w, choice); }
    }
  }

  lemma KeepsBefore(
    before: State, done: set<GoalEntry>, m: State, goals: set<GoalEntry>, w: World, choice: Choice)
    requires done <= goals <= choice.Keys && ExpandsTo(before, done, w, choice) && ExpandsTo(m, goals, w, choice)
    ensures Keeps(before, m)
  {
    forall k | k in before ensures k in m && m[k] == before[k] {
      assert ComesFrom(k, done, choice);
      var f, y :| f in done && y in choice[f] && Key(y) == k;
      assert AllFit(choice[f], before) && AllFit(choice[f], m);
      assert Fits(y, before) && Fits(y, m);
    }
  }

  // ----- a goal with two outcomes

  const NESTED := "{{resource.{{resource.id}}}}"

  /** Around the inner placeholder the nested text has the two ends of `{{resource.name}}`. */
  lemma NestedParts()
    ensures NESTED == Before(RESOURCE_NAME, 11) + RESOURCE_ID + After(RESOURCE_NAME, 15)
    ensures Before(RESOURCE_NAME, 11) + "name" + After(RESOURCE_NAME, 15) == RESOURCE_NAME
    ensures IsPlaceholder(RESOURCE_ID) && IsPlaceholder(RESOURCE_NAME)
  {
    assert RESOURCE_NAME[..11] == "{{resource." && RESOURCE_NAME[15..] == "}}";
  }

  lemma OnlyTheIdOccurs(r: string, i: nat)
    requires IsPlaceholder(r) && r != RESOURCE_ID
    ensures !OccursAt(NESTED, r, i)
  {
    NestedParts();
    if OccursAt(NESTED, r, i) { OnlyInTheMiddle(RESOURCE_NAME, 11, 15, RESOURCE_ID, r, i); }
  }

  /** With the id replaced first, the name completes another placeholder; with the name first, it is left standing. */
  lemma NestedGoesEitherWay(r: ResourceInfo)
    requires r.id == "name" && r.name == "dock"
    ensures Yields(NESTED, ResourceTable(r), "dock") && Yields(NESTED, ResourceTable(r), RESOURCE_NAME)
  {
    var t := ResourceTable(r);
    OthersDoNotOccur(t);
    IdBecomesName();
    IdFirst(t);
    NameFirst(t);
  }

  ghost predicate OnlyTheId(t: Table) { forall q, i :: q in t && q != RESOURCE_ID ==> !OccursAt(NESTED, q, i) }

  lemma OthersDoNotOccur(t: Table)
    requires IsTable(t)
    ensures OnlyTheId(t)
  {
    forall q, i | q in t && q != RESOURCE_ID ensures !OccursAt(NESTED, q, i) {
      if i >= 0 { OnlyTheIdOccurs(q, i); }
    }
  }

  lemma IdFirst(t: Table)
    requires IsTable(t) && OnlyTheId(t) && RESOURCE_ID in t && RESOURCE_NAME in t && t[RESOURCE_ID] == "name"
    requires ReplaceAll(NESTED, RESOURCE_ID, "name") == RESOURCE_NAME
    ensures Yields(NESTED, t, t[RESOURCE_NAME])
  {
    assert |RESOURCE_ID| != |RESOURCE_NAME|;
    TwoOrders(NESTED, t, RESOURCE_ID, RESOURCE_NAME);
    WholeReplaced(RESOURCE_NAME, t[RESOURCE_NAME]);
  }

  lemma NameFirst(t: Table)
    requires IsTable(t) && OnlyTheId(t) && RESOURCE_ID in t && RESOURCE_NAME in t && t[RESOURCE_ID] == "name"
    requires ReplaceAll(NESTED, RESOURCE_ID, "name") == RESOURCE_NAME
    ensures Yields(NESTED, t, RESOURCE_NAME)
  {
    assert |RESOURCE_ID| != |RESOURCE_NAME|;
    TwoOrders(NESTED, t, RESOURCE_NAME, RESOURCE_ID);
    NoOccurrence(NESTED, RESOURCE_NAME, t[RESOURCE_NAME]);
  }

  lemma IdBecomesName()
    ensures ReplaceAll(NESTED, RESOURCE_ID, "name") == RESOURCE_NAME
  {
    NestedParts();
    var a, b := Before(RESOURCE_NAME, 11), After(RESOURCE_NAME, 15);
    forall i | 0 <= i < |a| ensures !OccursAt(a + RESOURCE_ID + b, RESOURCE_ID, i) {
      if OccursAt(a + RESOURCE_ID + b, RESOURCE_ID, i) {
        OnlyInTheMiddle(RESOURCE_NAME, 11, 15, RESOURCE_ID, RESOURCE_ID, i);
      }
    }
    ReplaceFirst(a, RESOURCE_ID, b, "name");
    assert |b| < |RESOURCE_ID| && ReplaceAll(b, RESOURCE_ID, "name") == b;
  }

  lemma WholeReplaced(p: string, v: string)
    requires IsPlaceholder(p)
    ensures ReplaceAll(p, p, v) == v
  {
    assert p[|p|..] == "" && v + "" == v;
  }

  /** A text too short for any placeholder is left as it is. */
  lemma ShortTextStays(s: string, t: Table)
    requires IsTable(t) && |s| < 4
    ensures Yields(s, t, s)
  {
    var order := SomeListing(t.Keys);
    ListsWithin(order, t.Keys, t);
    forall x, i | 0 <= x < |order| ensures !OccursAt(s, order[x], i) { assert order[x] in t; }
    assert order + [] == order;
    FillSkips(s, t, order, []);
  }

  lemma NestedNeedsResourceOnly(value: string)
    requires |value| < 4
    ensures NeedsResource(GoalEntry(NESTED, value)) && !NeedsAgent(GoalEntry(NESTED, value))
    ensures Resolved(GoalEntry("dock", value)) && !Resolved(GoalEntry(RESOURCE_NAME, value))
  {
    assert NESTED[..11] == RESOURCE_PREFIX && RESOURCE_NAME[..11] == RESOURCE_PREFIX;
    assert OccursAt(NESTED, RESOURCE_PREFIX, 0) && OccursAt(RESOURCE_NAME, RESOURCE_PREFIX, 0);
    assert forall i :: 0 <= i < |NESTED| ==> NESTED[i] != 'a';
    forall i | 0 <= i <= |NESTED| ensures !OccursAt(NESTED, AGENT_PREFIX, i) {
      assert i + 8 <= |NESTED| ==> NESTED[i..i + 8][2] == NESTED[i + 2];
      assert AGENT_PREFIX[2] == 'a';
    }
  }

  /**
   One goal, one resource instance, names without braces: one iteration order expands the goal, another one makes the
   expansion fail.
   */
  lemma OneGoalTwoOutcomes(r: ResourceInfo, agents: seq<AgentInfo>)
    requires r.id == "name" && r.name == "dock"
    ensures var e, w := GoalEntry(NESTED, "go"), World([r], agents);
            var good, bad := map[e := [GoalEntry("dock", "go")]], map[e := [GoalEntry(RESOURCE_NAME, "go")]];
            && MayChoose(good, {e}, w) && ExpandsTo(map["dock" := "go"], {e}, w, good)
            && MayChoose(bad, {e}, w) && forall m :: !ExpandsTo(m, {e}, w, bad)
  {
    var e, w := GoalEntry(NESTED, "go"), World([r], agents);
    NestedNeedsResourceOnly("go");
    NestedGoesEitherWay(r);
    ShortTextStays("go", ResourceTable(r));
    OneFilling(e, r, agents, GoalEntry("dock", "go"));
    OneFilling(e, r, agents, GoalEntry(RESOURCE_NAME, "go"));
    OneEntryExpands(e, w, GoalEntry("dock", "go"));
    UnresolvedFails(e, w, GoalEntry(RESOURCE_NAME, "go"));
  }

  lemma OneEntryExpands(e: GoalEntry, w: World, x: GoalEntry)
    requires Scoped(e, w) && Resolved(x) && Key(x) == x.variable != ""
    ensures ExpandsTo(map[x.variable := x.value], {e}, w, map[e := [x]])
  {
    assert x in [x];
    assert ComesFrom(x.variable, {e}, map[e := [x]]);
  }

  lemma UnresolvedFails(e: GoalEntry, w: World, x: GoalEntry)
    requires !Resolved(x)
    ensures forall m :: !ExpandsTo(m, {e}, w, map[e := [x]])
  {
    assert x in [x];
    forall m ensures !ExpandsTo(m, {e}, w, map[e := [x]]) { assert !Fits(x, m); }
  }

  lemma OneFilling(e: GoalEntry, r: ResourceInfo, agents: seq<AgentInfo>, x: GoalEntry)
    requires NeedsResource(e) && !NeedsAgent(e) && MayFill(e, ResourceTable(r), x)
    ensures MayInstantiate(e, World([r], agents), [x])
  {
    var w := World([r], agents);
    var tables := ResourceTables(w);
    assert tables == [ResourceTable(r)] && tables[0] in tables && e in [e] && x in [x];
    assert Fillings([e], tables, [x]);
    assert Through(e, w, [x], [x]);
  }

  // ----- goals whose expansion is sure

  /** The names of instances and agents have no opening brace; they may be empty or alike. */
  ghost predicate BracelessWorld(w: World) {
    && (forall i :: 0 <= i < |w.instances| ==> Braceless(ResourceTable(w.instances[i])))
    && (forall j :: 0 <= j < |w.agents| ==> Braceless(AgentTable(w.agents[j])))
  }

  ghost predicate Careful(e: GoalEntry) { WellBraced(e.variable) && WellBraced(e.value) }

  /** Filling in a careful entry is sure, leaves a careful entry, and is the replacement of all placeholders at once. */
  lemma CarefulIsSure(e: GoalEntry, t: Table)
    requires IsTable(t) && Braceless(t) && Careful(e)
    ensures SureEntry(e, t) && Careful(FilledEntry(e, t))
    ensures FilledEntry(e, t) == GoalEntry(AtOnce(e.variable, t, t.Keys), AtOnce(e.value, t, t.Keys))
  {
    WellBracedIsSafe(e.variable, t);
    WellBracedIsSafe(e.value, t);
    SureIsFilled(e.variable, t, Filled(e.variable, t));
    SureIsFilled(e.value, t, Filled(e.value, t));
  }

  /**
   When every opening brace of the goals belongs to a whole placeholder and no name has an opening brace, the expansion
   is sure: whatever else the names are, and whether or not they are empty.
   */
  lemma CarefulGoalsAreSure(goals: set<GoalEntry>, w: World)
    requires BracelessWorld(w) && forall e :: e in goals ==> Careful(e)
    ensures SureGoals(goals, w)
  {
    forall e | e in goals ensures SureGoal(e, w) {
      CarefulForAll(e, ResourceTables(w));
      forall m | ForResource(e, m, w) ensures SureFor(m, AgentTables(w)) {
        CarefulMiddle(e, m, w);
        CarefulForAll(m, AgentTables(w));
      }
    }
  }

  lemma CarefulForAll(e: GoalEntry, tables: seq<Table>)
    requires Careful(e) && AllTables(tables) && forall t :: t in tables ==> Braceless(t)
    ensures SureFor(e, tables)
  {
    forall t | t in tables ensures SureEntry(e, t) { CarefulIsSure(e, t); }
  }

  lemma CarefulMiddle(e: GoalEntry, m: GoalEntry, w: World)
    requires BracelessWorld(w) && Careful(e) && ForResource(e, m, w)
    ensures Careful(m)
  {
    if NeedsResource(e) {
      var t :| t in ResourceTables(w) && m == FilledEntry(e, t);
      CarefulIsSure(e, t);
    }
  }

  /** Calm names are sure for any goals. */
  lemma CalmNamesAreSure(goals: set<GoalEntry>, w: World)
    requires forall i :: 0 <= i < |w.instances| ==> Calm(ResourceTable(w.instances[i]))
    requires forall j :: 0 <= j < |w.agents| ==> Calm(AgentTable(w.agents[j]))
    ensures SureGoals(goals, w)
  {
  }
}
