/** Reservation clean-up: releasing what a holder has moved away from, and spelling holders canonically. */
module Reservation {
  import opened Text
  import opened Planning
  import opened Dispatch

  /** An agent as the clean-up knows it: canonical name, accepted holder tokens, location keys by preference. */
  datatype Alias = Alias(canonical: string, tokens: set<string>, places: seq<string>)

  /** A resource whose holder is recorded under `key`. */
  datatype Slot = Slot(name: string, key: string)

  function AliasOf(a: AgentInfo): (r: Alias)
    requires !IsBlank(a.id)
    ensures WellFormed(r)
  {
    NameIsAToken(a);
    Alias(Named(a.name, a.id), HolderTokens(a), PlacesOf(TrimSpace(a.name), TrimSpace(a.id)))
  }

  function PlacesOf(name: string, id: string): (r: seq<string>)
    ensures forall i :: 0 <= i < |r| ==> |r[i]| > 0 && r[i][|r[i]| - 1] == 'n'
  {
    [LocationKey(name), LocationKey(id), LocationKey(Underscored(id))]
  }

  function LocationKey(s: string): (r: string)
    ensures |r| > 0 && r[|r| - 1] == 'n'
  {
    s + "_location"
  }

  lemma NameIsAToken(a: AgentInfo)
    requires !IsBlank(a.id)
    ensures var n := Named(a.name, a.id); IsTrimmed(n) && n != "" && Lower(n) in HolderTokens(a)
  {
    LowerKeepsShape(Named(a.name, a.id));
  }

  lemma LowerKeepsShape(s: string)
    requires IsTrimmed(s) && s != ""
    ensures IsTrimmed(Lower(s)) && TrimSpace(Lower(s)) == Lower(s) && Lower(s) != ""
  {
  }

  /** shouldSkipRealtimeReservationReconcile and the other reasons to leave a resource alone. */
  predicate Skips(r: ResourceInfo, resources: seq<ResourceInfo>) {
    || IsType(r) || IsBlank(r.name)
    || "worker_slot" <= Lower(TrimSpace(r.name))
    || (!IsBlank(r.parentID) && Lower(TypeName(resources, TrimSpace(r.parentID))) == "worker_slot")
  }

  /** The name of the last listed resource type with this id. */
  function TypeName(resources: seq<ResourceInfo>, id: string): string {
    if resources == [] then ""
    else
      var r := resources[|resources| - 1];
      if IsType(r) && !IsBlank(r.name) && !IsBlank(r.id) && TrimSpace(r.id) == id then TrimSpace(r.name)
      else TypeName(resources[..|resources| - 1], id)
  }

  /** The slot of a resource the clean-up looks at. */
  function SlotOf(r: ResourceInfo, resources: seq<ResourceInfo>, current: State): (s: Option<Slot>)
    ensures s.Some? ==> IsSlotKey(s.value.key) && s.value.key in current
  {
    var key := ReservationKey(r, current);
    if Skips(r, resources) || key == "" then None else Some(Slot(TrimSpace(r.name), key))
  }

  predicate IsSlotKey(k: string) { |k| > 0 && k[|k| - 1] == 'y' }

  function SlotsOf(resources: seq<ResourceInfo>, current: State, n: nat): (r: seq<Slot>)
    requires n <= |resources|
    ensures forall i :: 0 <= i < |r| ==> IsSlotKey(r[i].key) && r[i].key in current
  {
    if n == 0 then []
    else
      var s := SlotOf(resources[n - 1], resources, current);
      SlotsOf(resources, current, n - 1) + if s.None? then [] else [s.value]
  }

  function AliasesOf(agents: seq<AgentInfo>): (r: seq<Alias>)
    ensures forall i :: 0 <= i < |r| ==> WellFormed(r[i])
  {
    if agents == [] then []
    else
      var rest := AliasesOf(agents[..|agents| - 1]);
      if IsBlank(agents[|agents| - 1].id) then rest else rest + [AliasOf(agents[|agents| - 1])]
  }

  predicate WellFormed(a: Alias) {
    && IsTrimmed(a.canonical) && a.canonical != "" && Lower(a.canonical) in a.tokens
    && forall i :: 0 <= i < |a.places| ==> |a.places[i]| > 0 && a.places[i][|a.places[i]| - 1] == 'n'
  }

  // ----- locations

  predicate Unknown(place: string) { place == "" || Lower(place) == "none" }

  /** agentLocationStateKey: the first location key the state has, "" when none. */
  function PlaceKey(st: State, places: seq<string>): (k: string)
    ensures k == "" || (k in places && k in st)
  {
    if places == [] then "" else if places[0] in st then places[0] else PlaceKey(st, places[1..])
  }

  /** agentLocationFromState */
  function Place(st: State, places: seq<string>): string {
    var k := PlaceKey(st, places);
    if k == "" then "" else TrimSpace(st[k])
  }

  datatype Located = Located(merged: State, place: string, changed: bool)

  /** A live overlay that lost the location falls back to the planner's. */
  function Locate(merged: State, current: State, a: Alias): Located {
    var live, planned := Place(merged, a.places), Place(current, a.places);
    if Unknown(live) && !Unknown(planned) then
      var k := PlaceKey(merged, a.places);
      if k == "" then Located(merged, planned, false) else Located(merged[k := planned], planned, true)
    else Located(merged, live, false)
  }

  datatype Whereabouts = Whereabouts(merged: State, places: map<string, string>, changed: bool)

  type Locator = (State, Alias) -> Located

  function LocatorFor(current: State): Locator { (merged: State, a: Alias) => Locate(merged, current, a) }

  function LocateAll(merged: State, locate: Locator, aliases: seq<Alias>, n: nat): Whereabouts
    requires n <= |aliases|
  {
    if n == 0 then Whereabouts(merged, map[], false)
    else
      var w := LocateAll(merged, locate, aliases, n - 1);
      var l := locate(w.merged, aliases[n - 1]);
      Whereabouts(l.merged, w.places[aliases[n - 1].canonical := l.place], w.changed || l.changed)
  }

  // ----- releases

  /** The last alias that accepts the token; its index, or the number of aliases. */
  function AliasIndex(aliases: seq<Alias>, token: string, n: nat): (i: nat)
    requires n <= |aliases|
    ensures i == |aliases| || (i < n && token in aliases[i].tokens)
    ensures i == |aliases| ==> forall k :: 0 <= k < n ==> token !in aliases[k].tokens
  {
    if n == 0 then |aliases|
    else if token in aliases[n - 1].tokens then n - 1
    else AliasIndex(aliases, token, n - 1)
  }

  /** The value the clean-up gives a slot whose holder entry reads `value`. */
  function Settle(value: string, name: string, aliases: seq<Alias>, places: map<string, string>): string {
    var raw := TrimSpace(value);
    var holder := Holder(raw);
    var i := AliasIndex(aliases, holder, |aliases|);
    if holder == "" || i == |aliases| then value
    else
      var canonical := aliases[i].canonical;
      var place := if canonical in places then TrimSpace(places[canonical]) else "";
      if !Unknown(place) && Lower(place) != Lower(name) then "none"
      else if Lower(raw) != Lower(canonical) then canonical
      else value
  }

  function ValueAt(st: State, k: string): string { if k in st then st[k] else "" }

  /** From a slot's value and name to its new value. */
  type Settler = (string, string) -> string

  function SettlerFor(aliases: seq<Alias>, places: map<string, string>): Settler {
    (value: string, name: string) => Settle(value, name, aliases, places)
  }

  datatype Released = Released(merged: State, changed: bool)

  function Release(merged: State, s: Slot, settle: Settler): Released {
    var value := ValueAt(merged, s.key);
    var settled := settle(value, s.name);
    if settled == value then Released(merged, false) else Released(merged[s.key := settled], true)
  }

  function ReleaseAll(merged: State, slots: seq<Slot>, settle: Settler, n: nat): Released
    requires n <= |slots|
  {
    if n == 0 then Released(merged, false)
    else
      var r := ReleaseAll(merged, slots, settle, n - 1);
      var one := Release(r.merged, slots[n - 1], settle);
      Released(one.merged, r.changed || one.changed)
  }

  /** One clean-up pass over the merged state. */
  function Pass(merged: State, current: State, aliases: seq<Alias>, slots: seq<Slot>): Released {
    var w := LocateAll(merged, LocatorFor(current), aliases, |aliases|);
    var r := ReleaseAll(w.merged, slots, SettlerFor(aliases, w.places), |slots|);
    Released(r.merged, w.changed || r.changed)
  }

  /** Nothing to compare, or no agent with an id: the clean-up leaves the state alone. */
  predicate Idle(before: State, current: State, agents: seq<AgentInfo>, resources: seq<ResourceInfo>) {
    before == map[] || current == map[] || agents == [] || resources == [] || AliasesOf(agents) == []
  }

  function Reconciled(before: State, current: State, agents: seq<AgentInfo>, resources: seq<ResourceInfo>): Released {
    if Idle(before, current, agents, resources) then Released(before, false)
    else Pass(before, current, AliasesOf(agents), SlotsOf(resources, current, |resources|))
  }

  /** reconcileRealtimeReservationState */
  method Reconcile(before: State, current: State, agents: seq<AgentInfo>, resources: seq<ResourceInfo>)
    returns (merged: State, changed: bool)
    ensures Released(merged, changed) == Reconciled(before, current, agents, resources)
  {
    merged, changed := before, false;
    var aliases := AliasesOf(agents);
    if before == map[] || current == map[] || agents == [] || resources == [] || aliases == [] { return; }
    var places: map<string, string>;
    merged, places, changed := LocateAgents(merged, LocatorFor(current), aliases);
    var slots := SlotsOf(resources, current, |resources|);
    var released;
    merged, released := ReleaseStale(merged, slots, SettlerFor(aliases, places));
    changed := changed || released;
  }

  method LocateAgents(before: State, locate: Locator, aliases: seq<Alias>)
    returns (merged: State, places: map<string, string>, changed: bool)
    ensures Whereabouts(merged, places, changed) == LocateAll(before, locate, aliases, |aliases|)
  {
    merged, places, changed := before, map[], false;
    var i := 0;
    while i < |aliases|
      invariant 0 <= i <= |aliases|
      invariant Whereabouts(merged, places, changed) == LocateAll(before, locate, aliases, i)
    {
      var l := locate(merged, aliases[i]);
      merged, changed := l.merged, changed || l.changed;
      places := places[aliases[i].canonical := l.place];
      i := i + 1;
    }
  }

  method ReleaseStale(before: State, slots: seq<Slot>, settle: Settler) returns (merged: State, changed: bool)
    ensures Released(merged, changed) == ReleaseAll(before, slots, settle, |slots|)
  {
    merged, changed := before, false;
    var i := 0;
    while i < |slots|
      invariant 0 <= i <= |slots|
      invariant Released(merged, changed) == ReleaseAll(before, slots, settle, i)
    {
      var value := ValueAt(merged, slots[i].key);
      var settled := settle(value, slots[i].name);
      if settled != value {
        merged := merged[slots[i].key := settled];
        changed := true;
      }
      i := i + 1;
    }
  }

  // ----- what one pass leaves behind

  /** Settling twice, or settling for another slot in between, changes nothing more. */
  ghost predicate Absorbing(settle: Settler) {
    && (forall v, n :: settle(settle(v, n), n) == settle(v, n))
    && (forall v, n, m :: settle(v, n) == v ==> settle(settle(v, m), n) == settle(v, m))
  }

  ghost predicate IsSettled(merged: State, s: Slot, settle: Settler) {
    settle(ValueAt(merged, s.key), s.name) == ValueAt(merged, s.key)
  }

  lemma ReleaseKeepsSettled(merged: State, s: Slot, t: Slot, settle: Settler)
    requires Absorbing(settle) && IsSettled(merged, s, settle)
    ensures IsSettled(Release(merged, t, settle).merged, s, settle)
  {
  }

  lemma {:induction false} ReleaseSettlesAll(merged: State, slots: seq<Slot>, settle: Settler, n: nat, i: nat)
    requires Absorbing(settle) && i < n <= |slots|
    ensures IsSettled(ReleaseAll(merged, slots, settle, n).merged, slots[i], settle)
  {
    var r := ReleaseAll(merged, slots, settle, n - 1);
    if i < n - 1 {
      ReleaseSettlesAll(merged, slots, settle, n - 1, i);
      ReleaseKeepsSettled(r.merged, slots[i], slots[n - 1], settle);
    }
  }

  lemma {:induction false} NothingToRelease(merged: State, slots: seq<Slot>, settle: Settler, n: nat)
    requires n <= |slots| && forall i :: 0 <= i < n ==> IsSettled(merged, slots[i], settle)
    ensures ReleaseAll(merged, slots, settle, n) == Released(merged, false)
  {
    if n > 0 { NothingToRelease(merged, slots, settle, n - 1); }
  }

  lemma {:induction false} ReleaseFrame(merged: State, slots: seq<Slot>, settle: Settler, n: nat, k: string)
    requires n <= |slots| && forall i :: 0 <= i < |slots| ==> slots[i].key != k
    ensures k in ReleaseAll(merged, slots, settle, n).merged <==> k in merged
    ensures k in merged ==> ReleaseAll(merged, slots, settle, n).merged[k] == merged[k]
  {
    if n > 0 { ReleaseFrame(merged, slots, settle, n - 1, k); }
  }

  // ----- the pass is idempotent

  /** No two agents accept the same holder token or share a location key. */
  ghost predicate Separate(aliases: seq<Alias>) {
    && (forall i :: 0 <= i < |aliases| ==> WellFormed(aliases[i]))
    && (forall i, j :: 0 <= i < j < |aliases| ==>
          aliases[i].tokens !! aliases[j].tokens && SharesNone(aliases[i].places, aliases[j].places))
  }

  ghost predicate SharesNone(a: seq<string>, b: seq<string>) { forall k :: k in a ==> k !in b }

  lemma CanonicalIsItself(aliases: seq<Alias>, i: nat)
    requires Separate(aliases) && i < |aliases|
    ensures TrimSpace(aliases[i].canonical) == aliases[i].canonical
    ensures Holder(aliases[i].canonical) == "" || Holder(aliases[i].canonical) == Lower(aliases[i].canonical)
    ensures AliasIndex(aliases, Lower(aliases[i].canonical), |aliases|) == i
  {
    var t := Lower(aliases[i].canonical);
    var j := AliasIndex(aliases, t, |aliases|);
    assert t in aliases[i].tokens;
    forall k | 0 <= k < |aliases| && k != i ensures t !in aliases[k].tokens {
      var lo, hi := if k < i then k else i, if k < i then i else k;
      assert aliases[lo].tokens !! aliases[hi].tokens;
    }
  }

  lemma NoneSettles(name: string, aliases: seq<Alias>, places: map<string, string>)
    ensures Settle("none", name, aliases, places) == "none" && Holder("none") == ""
  {
    assert TrimSpace("none") == "none" && Lower("none") == "none";
  }

  /** The three things settling can do to a value. */
  lemma SettleCases(v: string, n: string, aliases: seq<Alias>, places: map<string, string>)
    requires Separate(aliases)
    ensures var i := AliasIndex(aliases, Holder(TrimSpace(v)), |aliases|);
            || Settle(v, n, aliases, places) == v
            || Settle(v, n, aliases, places) == "none"
            || (i < |aliases| && Settle(v, n, aliases, places) == aliases[i].canonical
                && Lower(TrimSpace(v)) != Lower(aliases[i].canonical))
  {
  }

  lemma SettleIdempotent(v: string, n: string, aliases: seq<Alias>, places: map<string, string>)
    requires Separate(aliases)
    ensures Settle(Settle(v, n, aliases, places), n, aliases, places) == Settle(v, n, aliases, places)
  {
    NoneSettles(n, aliases, places);
    SettleCases(v, n, aliases, places);
    var i := AliasIndex(aliases, Holder(TrimSpace(v)), |aliases|);
    if i < |aliases| { CanonicalIsItself(aliases, i); }
  }

  lemma SettleAbsorbs(v: string, n: string, m: string, aliases: seq<Alias>, places: map<string, string>)
    requires Separate(aliases) && Settle(v, n, aliases, places) == v
    ensures Settle(Settle(v, m, aliases, places), n, aliases, places) == Settle(v, m, aliases, places)
  {
    NoneSettles(n, aliases, places);
    SettleCases(v, m, aliases, places);
    var i := AliasIndex(aliases, Holder(TrimSpace(v)), |aliases|);
    if i < |aliases| { CanonicalIsItself(aliases, i); }
  }

  lemma SettlerIsAbsorbing(aliases: seq<Alias>, places: map<string, string>)
    requires Separate(aliases)
    ensures Absorbing(SettlerFor(aliases, places))
  {
    var settle := SettlerFor(aliases, places);
    forall v, n ensures settle(settle(v, n), n) == settle(v, n) { SettleIdempotent(v, n, aliases, places); }
    forall v, n, m | settle(v, n) == v ensures settle(settle(v, m), n) == settle(v, m) {
      SettleAbsorbs(v, n, m, aliases, places);
    }
  }

  /** Two states agree on some keys. */
  ghost predicate Agree(a: State, b: State, keys: seq<string>) {
    forall k :: k in keys ==> (k in a <==> k in b) && (k in a ==> a[k] == b[k])
  }

  lemma {:induction false} SamePlaceKey(a: State, b: State, places: seq<string>)
    requires forall k :: k in places ==> (k in a <==> k in b)
    ensures PlaceKey(a, places) == PlaceKey(b, places)
  {
    if places != [] { SamePlaceKey(a, b, places[1..]); }
  }

  /** Looking the agent up again finds `place` and changes nothing. */
  ghost predicate StaysPut(locate: Locator, merged: State, a: Alias, place: string) {
    locate(merged, a) == Located(merged, place, false)
  }

  /** Looking an agent up settles it and unsettles no other. */
  ghost predicate Steady(locate: Locator, aliases: seq<Alias>) {
    && (forall m, i :: 0 <= i < |aliases| ==>
          StaysPut(locate, locate(m, aliases[i]).merged, aliases[i], locate(m, aliases[i]).place))
    && (forall m, i, j, p ::
          (0 <= i < |aliases| && 0 <= j < |aliases| && i != j && StaysPut(locate, m, aliases[i], p))
          ==> StaysPut(locate, locate(m, aliases[j]).merged, aliases[i], p))
  }

  lemma LocateSettles(merged: State, current: State, a: Alias)
    ensures var l := Locate(merged, current, a); Locate(l.merged, current, a) == Located(l.merged, l.place, false)
  {
    SamePlaceKey(merged, Locate(merged, current, a).merged, a.places);
  }

  lemma LocateLeaves(merged: State, current: State, a: Alias, other: Alias)
    requires SharesNone(other.places, a.places)
    ensures Agree(merged, Locate(merged, current, a).merged, other.places)
  {
  }

  lemma StaysPutElsewhere(m: State, m': State, current: State, a: Alias, place: string)
    requires Locate(m, current, a) == Located(m, place, false) && Agree(m, m', a.places)
    ensures Locate(m', current, a) == Located(m', place, false)
  {
    SamePlaceKey(m, m', a.places);
  }

  lemma LocatorIsSteady(current: State, aliases: seq<Alias>)
    requires Separate(aliases)
    ensures Steady(LocatorFor(current), aliases)
  {
    var locate := LocatorFor(current);
    forall m, i | 0 <= i < |aliases|
      ensures StaysPut(locate, locate(m, aliases[i]).merged, aliases[i], locate(m, aliases[i]).place)
    {
      LocateSettles(m, current, aliases[i]);
    }
    forall m, i, j, p | 0 <= i < |aliases| && 0 <= j < |aliases| && i != j && StaysPut(locate, m, aliases[i], p)
      ensures StaysPut(locate, locate(m, aliases[j]).merged, aliases[i], p)
    {
      assert SharesNone(aliases[i].places, aliases[j].places);
      LocateLeaves(m, current, aliases[j], aliases[i]);
      StaysPutElsewhere(m, Locate(m, current, aliases[j]).merged, current, aliases[i], p);
    }
  }

  /** Where agent i was found by the first pass. */
  ghost function FoundAt(merged: State, locate: Locator, aliases: seq<Alias>, i: nat): string
    requires i < |aliases|
  {
    locate(LocateAll(merged, locate, aliases, i).merged, aliases[i]).place
  }

  lemma {:induction false} AllStayPut(merged: State, locate: Locator, aliases: seq<Alias>, n: nat, i: nat)
    requires Steady(locate, aliases) && i < n <= |aliases|
    ensures StaysPut(locate, LocateAll(merged, locate, aliases, n).merged, aliases[i],
                     FoundAt(merged, locate, aliases, i))
  {
    if i < n - 1 { AllStayPut(merged, locate, aliases, n - 1, i); }
  }

  lemma {:induction false} SecondLookFindsTheSame(
    merged: State, again: State, locate: Locator, aliases: seq<Alias>, n: nat)
    requires n <= |aliases|
    requires forall i :: 0 <= i < n ==> StaysPut(locate, again, aliases[i], FoundAt(merged, locate, aliases, i))
    ensures LocateAll(again, locate, aliases, n)
            == Whereabouts(again, LocateAll(merged, locate, aliases, n).places, false)
  {
    if n > 0 {
      SecondLookFindsTheSame(merged, again, locate, aliases, n - 1);
      assert StaysPut(locate, again, aliases[n - 1], FoundAt(merged, locate, aliases, n - 1));
    }
  }

  /** With agents that are told apart, a second pass changes nothing. */
  lemma CleanUpIsIdempotent(merged: State, current: State, aliases: seq<Alias>, slots: seq<Slot>)
    requires Separate(aliases)
    requires forall i :: 0 <= i < |slots| ==> IsSlotKey(slots[i].key)
    ensures var once := Pass(merged, current, aliases, slots).merged;
            Pass(once, current, aliases, slots) == Released(once, false)
  {
    var locate := LocatorFor(current);
    var w := LocateAll(merged, locate, aliases, |aliases|);
    var settle := SettlerFor(aliases, w.places);
    var once := ReleaseAll(w.merged, slots, settle, |slots|).merged;
    LocatorIsSteady(current, aliases);
    forall i | 0 <= i < |aliases| ensures StaysPut(locate, once, aliases[i], FoundAt(merged, locate, aliases, i)) {
      AllStayPut(merged, locate, aliases, |aliases|, i);
      ReleaseLeavesPlaces(w.merged, slots, settle, aliases[i]);
      StaysPutElsewhere(w.merged, once, current, aliases[i], FoundAt(merged, locate, aliases, i));
    }
    SecondLookFindsTheSame(merged, once, locate, aliases, |aliases|);
    SettlerIsAbsorbing(aliases, w.places);
    forall i | 0 <= i < |slots| ensures IsSettled(once, slots[i], settle) {
      ReleaseSettlesAll(w.merged, slots, settle, |slots|, i);
    }
    NothingToRelease(once, slots, settle, |slots|);
  }

  lemma ReleaseLeavesPlaces(merged: State, slots: seq<Slot>, settle: Settler, a: Alias)
    requires WellFormed(a)
    requires forall i :: 0 <= i < |slots| ==> IsSlotKey(slots[i].key)
    ensures Agree(merged, ReleaseAll(merged, slots, settle, |slots|).merged, a.places)
  {
    forall k | k in a.places
      ensures (k in merged <==> k in ReleaseAll(merged, slots, settle, |slots|).merged)
              && (k in merged ==> ReleaseAll(merged, slots, settle, |slots|).merged[k] == merged[k])
    {
      ReleaseFrame(merged, slots, settle, |slots|, k);
    }
  }

  /** After a pass, a recognised holder whose location is known holds only the resource at that location. */
  lemma HoldersAreWhereTheyHold(
    merged: State, current: State, aliases: seq<Alias>, slots: seq<Slot>, i: nat, a: nat)
    requires Separate(aliases) && i < |slots| && a < |aliases|
    requires var once := Pass(merged, current, aliases, slots).merged;
             Holder(TrimSpace(ValueAt(once, slots[i].key))) != ""
             && AliasIndex(aliases, Holder(TrimSpace(ValueAt(once, slots[i].key))), |aliases|) == a
    ensures var places := LocateAll(merged, LocatorFor(current), aliases, |aliases|).places;
            var place := if aliases[a].canonical in places then TrimSpace(places[aliases[a].canonical]) else "";
            Unknown(place) || Lower(place) == Lower(slots[i].name)
  {
    var w := LocateAll(merged, LocatorFor(current), aliases, |aliases|);
    var settle := SettlerFor(aliases, w.places);
    SettlerIsAbsorbing(aliases, w.places);
    ReleaseSettlesAll(w.merged, slots, settle, |slots|, i);
    var v := ValueAt(ReleaseAll(w.merged, slots, settle, |slots|).merged, slots[i].key);
    assert Settle(v, slots[i].name, aliases, w.places) == v;
    NoneSettles(slots[i].name, aliases, w.places);
  }

  // ----- what a clean-up of a session's state achieves

  lemma {:induction false} FoundIsRemembered(
    merged: State, locate: Locator, aliases: seq<Alias>, n: nat, a: nat)
    requires Separate(aliases) && a < n <= |aliases|
    ensures var places := LocateAll(merged, locate, aliases, n).places;
            aliases[a].canonical in places && places[aliases[a].canonical] == FoundAt(merged, locate, aliases, a)
  {
    if a < n - 1 {
      FoundIsRemembered(merged, locate, aliases, n - 1, a);
      assert aliases[a].tokens !! aliases[n - 1].tokens;
      assert Lower(aliases[a].canonical) in aliases[a].tokens;
    }
  }

  /** With agents that are told apart, cleaning up twice is cleaning up once. */
  lemma ReconcileIsIdempotent(
    before: State, current: State, agents: seq<AgentInfo>, resources: seq<ResourceInfo>)
    requires Separate(AliasesOf(agents))
    ensures var once := Reconciled(before, current, agents, resources).merged;
            Reconciled(once, current, agents, resources) == Released(once, false)
  {
    if !Idle(before, current, agents, resources) {
      CleanUpIsIdempotent(before, current, AliasesOf(agents), SlotsOf(resources, current, |resources|));
    }
  }

  /**
   After a clean-up, a resource's recorded holder, if it is one of the session's agents and that agent's location is
   known in the cleaned state, is at that resource.
   */
  lemma HoldersAreAtTheirResource(
    before: State, current: State, agents: seq<AgentInfo>, resources: seq<ResourceInfo>, i: nat, a: nat)
    requires Separate(AliasesOf(agents)) && !Idle(before, current, agents, resources)
    requires i < |SlotsOf(resources, current, |resources|)| && a < |AliasesOf(agents)|
    requires var holder := Holder(TrimSpace(ValueAt(
               Reconciled(before, current, agents, resources).merged,
               SlotsOf(resources, current, |resources|)[i].key)));
             holder != "" && holder in AliasesOf(agents)[a].tokens
    ensures var place := Locate(
              Reconciled(before, current, agents, resources).merged, current, AliasesOf(agents)[a]).place;
            Unknown(place) || Lower(place) == Lower(SlotsOf(resources, current, |resources|)[i].name)
  {
    var aliases, slots, locate := AliasesOf(agents), SlotsOf(resources, current, |resources|), LocatorFor(current);
    var once := Pass(before, current, aliases, slots).merged;
    TokenTellsAgent(aliases, Holder(TrimSpace(ValueAt(once, slots[i].key))), a);
    HoldersAreWhereTheyHold(before, current, aliases, slots, i, a);
    FoundIsRemembered(before, locate, aliases, |aliases|, a);
    StillFoundThere(before, current, aliases, slots, a);
  }

  lemma TokenTellsAgent(aliases: seq<Alias>, token: string, a: nat)
    requires Separate(aliases) && a < |aliases| && token in aliases[a].tokens
    ensures AliasIndex(aliases, token, |aliases|) == a
  {
    forall k | 0 <= k < |aliases| && k != a ensures token !in aliases[k].tokens {
      var lo, hi := if k < a then k else a, if k < a then a else k;
      assert aliases[lo].tokens !! aliases[hi].tokens;
    }
  }

  /** The cleaned state still has the agent where the pass found it. */
  lemma StillFoundThere(merged: State, current: State, aliases: seq<Alias>, slots: seq<Slot>, a: nat)
    requires Separate(aliases) && a < |aliases|
    requires forall i :: 0 <= i < |slots| ==> IsSlotKey(slots[i].key)
    ensures var found := FoundAt(merged, LocatorFor(current), aliases, a);
            Locate(Pass(merged, current, aliases, slots).merged, current, aliases[a]).place == found
            && TrimSpace(found) == found
  {
    var locate := LocatorFor(current);
    var w := LocateAll(merged, locate, aliases, |aliases|);
    var settle := SettlerFor(aliases, w.places);
    LocatorIsSteady(current, aliases);
    AllStayPut(merged, locate, aliases, |aliases|, a);
    ReleaseLeavesPlaces(w.merged, slots, settle, aliases[a]);
    StaysPutElsewhere(
      w.merged, ReleaseAll(w.merged, slots, settle, |slots|).merged, current, aliases[a],
      FoundAt(merged, locate, aliases, a));
  }

  // ----- what a pass never touches

  lemma {:induction false} LocateFrame(merged: State, locate: Locator, aliases: seq<Alias>, n: nat, k: string)
    requires n <= |aliases|
    requires forall m, i :: 0 <= i < |aliases| ==> Agree(m, locate(m, aliases[i]).merged, [k])
    ensures Agree(merged, LocateAll(merged, locate, aliases, n).merged, [k])
  {
    if n > 0 {
      LocateFrame(merged, locate, aliases, n - 1, k);
      var m := LocateAll(merged, locate, aliases, n - 1).merged;
      assert Agree(m, locate(m, aliases[n - 1]).merged, [k]);
      assert k in [k];
    }
  }

  predicate IsLocationKey(agents: seq<AgentInfo>, k: string) {
    var aliases := AliasesOf(agents);
    exists i :: 0 <= i < |aliases| && k in aliases[i].places
  }

  predicate IsReservationKey(resources: seq<ResourceInfo>, current: State, k: string) {
    var slots := SlotsOf(resources, current, |resources|);
    exists i :: 0 <= i < |slots| && slots[i].key == k
  }

  /** The clean-up reads and writes location and reservation keys only. */
  lemma PlainKeysAreLeftAlone(
    before: State, current: State, agents: seq<AgentInfo>, resources: seq<ResourceInfo>, k: string)
    requires !IsLocationKey(agents, k) && !IsReservationKey(resources, current, k)
    ensures Agree(before, Reconciled(before, current, agents, resources).merged, [k])
  {
    if !Idle(before, current, agents, resources) {
      var aliases, locate := AliasesOf(agents), LocatorFor(current);
      var slots := SlotsOf(resources, current, |resources|);
      forall m, i | 0 <= i < |aliases| ensures Agree(m, locate(m, aliases[i]).merged, [k]) {
        assert k !in aliases[i].places;
      }
      LocateFrame(before, locate, aliases, |aliases|, k);
      var w := LocateAll(before, locate, aliases, |aliases|);
      ReleaseFrame(w.merged, slots, SettlerFor(aliases, w.places), |slots|, k);
      assert k in [k];
    }
  }
}
