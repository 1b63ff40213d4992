/** Binding resource tokens: the planner's capacity count and the executor's greedy naming of instances. */
module Binding {
  import opened Text
  import opened Planning
  import opened Dispatch

  // ----- the executor's catalog

  datatype RuntimeCatalog = RuntimeCatalog(
    typeNameToID: map<string, string>, instanceByID: map<string, ResourceInfo>,
    instanceNameToID: map<string, string>, typeInstances: map<string, seq<ResourceInfo>>)

  function Listed<T>(m: map<string, seq<T>>, k: string): seq<T> { if k in m then m[k] else [] }

  function AddToRuntime(c: RuntimeCatalog, r: ResourceInfo): RuntimeCatalog {
    if r.kind == "type" then c.(typeNameToID := c.typeNameToID[r.name := r.id])
    else
      var d := c.(instanceByID := c.instanceByID[r.id := r], instanceNameToID := c.instanceNameToID[r.name := r.id]);
      if r.parentID == "" then d
      else d.(typeInstances := d.typeInstances[r.parentID := Listed(d.typeInstances, r.parentID) + [r]])
  }

  function RuntimeOf(resources: seq<ResourceInfo>): RuntimeCatalog {
    if resources == [] then RuntimeCatalog(map[], map[], map[], map[])
    else AddToRuntime(RuntimeOf(resources[..|resources| - 1]), resources[|resources| - 1])
  }

  /** Every instance name leads to an instance. */
  predicate NamesKnown(c: RuntimeCatalog) {
    forall n :: n in c.instanceNameToID ==> c.instanceNameToID[n] in c.instanceByID
  }

  lemma {:induction false} LoadedNamesKnown(resources: seq<ResourceInfo>)
    ensures NamesKnown(RuntimeOf(resources))
  {
    if resources != [] { LoadedNamesKnown(resources[..|resources| - 1]); }
  }

  /** The loop of loadRuntimeResourceCatalog. */
  method LoadRuntimeCatalog(resources: seq<ResourceInfo>) returns (c: RuntimeCatalog)
    ensures c == RuntimeOf(resources)
  {
    c := RuntimeCatalog(map[], map[], map[], map[]);
    var i := 0;
    while i < |resources|
      invariant 0 <= i <= |resources| && c == RuntimeOf(resources[..i])
    {
      assert resources[..i + 1][..i] == resources[..i];
      c := AddToRuntime(c, resources[i]);
      i := i + 1;
    }
    assert resources[..i] == resources;
  }

  // ----- the planner's catalog

  datatype PlannerCatalog = PlannerCatalog(
    typeNameToID: map<string, string>, instanceNameToID: map<string, string>, typeCapacity: map<string, nat>)

  function Capacity(c: PlannerCatalog, typeID: string): nat {
    if typeID in c.typeCapacity then c.typeCapacity[typeID] else 0
  }

  function AddToPlanner(c: PlannerCatalog, r: ResourceInfo, isType: bool): PlannerCatalog {
    if isType then if r.name == "" then c else c.(typeNameToID := c.typeNameToID[r.name := r.id])
    else
      var d := if r.name == "" then c else c.(instanceNameToID := c.instanceNameToID[r.name := r.id]);
      if r.parentID == "" then d
      else d.(typeCapacity := d.typeCapacity[r.parentID := Capacity(d, r.parentID) + 1])
  }

  function PlannerOf(resources: seq<ResourceInfo>): PlannerCatalog {
    if resources == [] then PlannerCatalog(map[], map[], map[])
    else
      var last := resources[|resources| - 1];
      AddToPlanner(PlannerOf(resources[..|resources| - 1]), last, IsType(last))
  }

  /** buildResourceCatalog */
  method BuildPlannerCatalog(resources: seq<ResourceInfo>) returns (c: PlannerCatalog)
    ensures c == PlannerOf(resources)
  {
    c := PlannerCatalog(map[], map[], map[]);
    var i := 0;
    while i < |resources|
      invariant 0 <= i <= |resources| && c == PlannerOf(resources[..i])
    {
      assert resources[..i + 1][..i] == resources[..i];
      c := AddToPlanner(c, resources[i], IsType(resources[i]));
      i := i + 1;
    }
    assert resources[..i] == resources;
  }

  // ----- reading a token

  datatype Ref = TypeRef(id: string) | InstanceRef(id: string) | RawRef(name: string)

  const TYPE := "type:"
  const INSTANCE := "instance:"

  function Suffix(token: string, prefix: string): string
    requires prefix <= token
  {
    TrimSpace(token[|prefix|..])
  }

  /** resolveResourceToken, for a token that is not blank: the planner's reading. */
  function PlannerRef(token: string, c: PlannerCatalog): Ref {
    var t := TrimSpace(token);
    if TYPE <= t then TypeRef(Suffix(t, TYPE))
    else if INSTANCE <= t then InstanceRef(Suffix(t, INSTANCE))
    else if t in c.typeNameToID then TypeRef(c.typeNameToID[t])
    else if t in c.instanceNameToID then InstanceRef(c.instanceNameToID[t])
    else RawRef(t)
  }

  /** The executor's reading: an empty type id counts as no type. */
  function RuntimeRef(token: string, c: RuntimeCatalog): Ref {
    var t := TrimSpace(token);
    if INSTANCE <= t then InstanceRef(Suffix(t, INSTANCE))
    else
      var typeID := if TYPE <= t then Suffix(t, TYPE) else if t in c.typeNameToID then c.typeNameToID[t] else "";
      if typeID != "" then TypeRef(typeID)
      else if t in c.instanceNameToID then InstanceRef(c.instanceNameToID[t])
      else RawRef(t)
  }

  predicate ExactKind(r: ResourceInfo) { r.kind == "type" || r.kind == "instance" }

  /** The two catalogs agree on a name. */
  predicate SameNames(x: RuntimeCatalog, p: PlannerCatalog, name: string) {
    && (name in x.typeNameToID <==> name in p.typeNameToID)
    && (name in x.instanceNameToID <==> name in p.instanceNameToID)
    && (name in x.typeNameToID ==> x.typeNameToID[name] == p.typeNameToID[name])
    && (name in x.instanceNameToID ==> x.instanceNameToID[name] == p.instanceNameToID[name])
  }

  predicate SameCount(x: RuntimeCatalog, p: PlannerCatalog, typeID: string) {
    |Listed(x.typeInstances, typeID)| == Capacity(p, typeID)
  }

  lemma AddKeepsNames(x: RuntimeCatalog, p: PlannerCatalog, r: ResourceInfo, name: string)
    requires name != "" && SameNames(x, p, name)
    ensures SameNames(AddToRuntime(x, r), AddToPlanner(p, r, r.kind == "type"), name)
  {
  }

  lemma AddKeepsCount(x: RuntimeCatalog, p: PlannerCatalog, r: ResourceInfo, typeID: string)
    requires SameCount(x, p, typeID)
    ensures SameCount(AddToRuntime(x, r), AddToPlanner(p, r, r.kind == "type"), typeID)
  {
  }

  predicate ExactKinds(resources: seq<ResourceInfo>) { forall i :: 0 <= i < |resources| ==> ExactKind(resources[i]) }

  /** For one resource list the executor's lists are as long as the planner's capacities, and the names are the same. */
  lemma {:induction false} CatalogsAgree(resources: seq<ResourceInfo>, name: string, typeID: string)
    requires ExactKinds(resources) && name != ""
    ensures SameNames(RuntimeOf(resources), PlannerOf(resources), name)
    ensures SameCount(RuntimeOf(resources), PlannerOf(resources), typeID)
  {
    if resources != [] {
      var front, last := resources[..|resources| - 1], resources[|resources| - 1];
      CatalogsAgree(front, name, typeID);
      KindIsRead(last);
      AddKeepsNames(RuntimeOf(front), PlannerOf(front), last, name);
      AddKeepsCount(RuntimeOf(front), PlannerOf(front), last, typeID);
    }
  }

  lemma KindIsRead(r: ResourceInfo)
    requires ExactKind(r)
    ensures IsType(r) <==> r.kind == "type"
  {
    assert TrimSpace("type") == "type" && TrimSpace("instance") == "instance";
    assert Lower("type") == "type";
    assert |Lower("instance")| == 8;
  }

  /** Planner and executor read a token alike if and only if it is not, to the planner, a type with an empty id. */
  lemma TokensReadAlike(resources: seq<ResourceInfo>, token: string)
    requires !IsBlank(token) && ExactKinds(resources)
    ensures RuntimeRef(token, RuntimeOf(resources)) == PlannerRef(token, PlannerOf(resources))
            <==> PlannerRef(token, PlannerOf(resources)) != TypeRef("")
  {
    CatalogsAgree(resources, TrimSpace(token), "");
  }

  // ----- greedy binding

  function Names(instances: seq<ResourceInfo>): set<string> { set r | r in instances :: r.name }

  /** The first instance whose name is not held. */
  function FirstUnheld(instances: seq<ResourceInfo>, held: set<string>): (r: Option<string>)
    ensures r.Some? ==> r.value in Names(instances) - held
    ensures r.None? ==> Names(instances) <= held
  {
    if instances == [] then None
    else if instances[0].name !in held then Some(instances[0].name)
    else
      assert instances == [instances[0]] + instances[1..];
      FirstUnheld(instances[1..], held)
  }

  /** What a reading is bound to. */
  function Resolve(ref: Ref, c: RuntimeCatalog, held: set<string>): Option<string> {
    match ref
    case TypeRef(id) => FirstUnheld(Listed(c.typeInstances, id), held)
    case InstanceRef(id) => if id in c.instanceByID then Some(c.instanceByID[id].name) else None
    case RawRef(name) => Some(name)
  }

  /** resolveRuntimeBindingToken */
  method ResolveToken(token: string, c: RuntimeCatalog, held: set<string>) returns (r: Option<string>)
    requires IsTrimmed(token) && NamesKnown(c)
    ensures r == Resolve(RuntimeRef(token, c), c, held)
  {
    if INSTANCE <= token {
      var instanceID := Suffix(token, INSTANCE);
      return if instanceID in c.instanceByID then Some(c.instanceByID[instanceID].name) else None;
    }
    var typeID := "";
    if TYPE <= token { typeID := Suffix(token, TYPE); }
    else if token in c.typeNameToID { typeID := c.typeNameToID[token]; }
    if typeID != "" {
      r := SearchFree(Listed(c.typeInstances, typeID), held);
      return;
    }
    if token in c.instanceNameToID {
      return Some(c.instanceByID[c.instanceNameToID[token]].name);
    }
    r := Some(token);
  }

  method SearchFree(instances: seq<ResourceInfo>, held: set<string>) returns (r: Option<string>)
    ensures r == FirstUnheld(instances, held)
  {
    var i := 0;
    while i < |instances|
      invariant 0 <= i <= |instances| && FirstUnheld(instances, held) == FirstUnheld(instances[i..], held)
    {
      if instances[i].name !in held { return Some(instances[i].name); }
      i := i + 1;
    }
    r := None;
  }

  /** The names bound to a list of readings, each held from then on, or a failure. */
  function Allocate(refs: seq<Ref>, c: RuntimeCatalog, held: set<string>): (r: Option<seq<string>>)
    ensures r.Some? ==> |r.value| == |refs|
  {
    if refs == [] then Some([])
    else
      var front := Allocate(refs[..|refs| - 1], c, held);
      if front.None? then None
      else
        var name := Resolve(refs[|refs| - 1], c, held + Set(front.value));
        if name.None? then None else Some(front.value + [name.value])
  }

  function Set(s: seq<string>): set<string> { set x | x in s }

  /** The tokens that are not blank, trimmed. */
  function Asked(tokens: seq<string>): seq<string> {
    if tokens == [] then []
    else
      var last := tokens[|tokens| - 1];
      Asked(tokens[..|tokens| - 1]) + if IsBlank(last) then [] else [TrimSpace(last)]
  }

  function Refs(asked: seq<string>, c: RuntimeCatalog): (r: seq<Ref>)
    ensures |r| == |asked|
  {
    seq(|asked|, i requires 0 <= i < |asked| => RuntimeRef(asked[i], c))
  }

  /** Later bindings of the same token override earlier ones. */
  function Bindings(asked: seq<string>, names: seq<string>): map<string, string>
    requires |names| == |asked|
  {
    if asked == [] then map[]
    else Bindings(asked[..|asked| - 1], names[..|names| - 1])[asked[|asked| - 1] := names[|names| - 1]]
  }

  /** The loop of resolveRuntimeBindings has bound the tokens `asked` so far to `names`. */
  ghost predicate BoundSoFar(
    asked: seq<string>, names: seq<string>, c: RuntimeCatalog, held: set<string>, heldNames: set<string>,
    bindings: map<string, string>)
  {
    && Allocate(Refs(asked, c), c, held) == Some(names)
    && heldNames == held + Set(names) && bindings == Bindings(asked, names)
  }

  /** What resolveRuntimeBindings answers for the tokens that are not blank. */
  function Answer(asked: seq<string>, c: RuntimeCatalog, held: set<string>): Option<map<string, string>> {
    var names := Allocate(Refs(asked, c), c, held);
    if names.None? then None else Some(Bindings(asked, names.value))
  }

  /** resolveRuntimeBindings */
  method ResolveBindings(tokens: seq<string>, holds: seq<string>, reserved: set<string>, c: RuntimeCatalog)
    returns (r: Option<map<string, string>>)
    requires NamesKnown(c)
    ensures r == Answer(Asked(tokens), c, Set(holds) + reserved)
  {
    ghost var held := Set(holds) + reserved;
    var heldNames := Set(holds) + reserved;
    var bindings: map<string, string> := map[];
    ghost var names := [];
    BoundNone(c, held);
    var i := 0;
    while i < |tokens|
      invariant 0 <= i <= |tokens|
      invariant BoundSoFar(Asked(tokens[..i]), names, c, held, heldNames, bindings)
    {
      AskedStep(tokens, i);
      var trimmed := TrimSpace(tokens[i]);
      if trimmed != "" {
        var name := ResolveToken(trimmed, c, heldNames);
        if name.None? {
          AskedPrefix(tokens, i + 1);
          FirstFailure(Asked(tokens[..i]), trimmed, Asked(tokens), names, c, held, heldNames, bindings);
          return None;
        }
        BindNext(Asked(tokens[..i]), names, trimmed, name.value, c, held, heldNames, bindings);
        bindings := bindings[trimmed := name.value];
        heldNames := heldNames + {name.value};
        names := names + [name.value];
      }
      i := i + 1;
    }
    assert tokens[..i] == tokens;
    r := Some(bindings);
  }

  lemma BoundNone(c: RuntimeCatalog, held: set<string>)
    ensures BoundSoFar(Asked([][..0]), [], c, held, held, map[])
  {
    assert Refs([], c) == [];
    assert held + Set([]) == held;
  }

  lemma BindNext(
    asked: seq<string>, names: seq<string>, token: string, name: string, c: RuntimeCatalog, held: set<string>,
    heldNames: set<string>, bindings: map<string, string>)
    requires BoundSoFar(asked, names, c, held, heldNames, bindings)
    requires Resolve(RuntimeRef(token, c), c, heldNames) == Some(name)
    ensures BoundSoFar(asked + [token], names + [name], c, held, heldNames + {name}, bindings[token := name])
  {
    AllocateStep(asked, token, c, held);
    BindOne(asked, names, token, name);
    assert held + (Set(names) + {name}) == held + Set(names) + {name};
  }

  lemma FirstFailure(
    asked: seq<string>, token: string, all: seq<string>, names: seq<string>, c: RuntimeCatalog, held: set<string>,
    heldNames: set<string>, bindings: map<string, string>)
    requires asked + [token] <= all && BoundSoFar(asked, names, c, held, heldNames, bindings)
    requires Resolve(RuntimeRef(token, c), c, heldNames).None?
    ensures Answer(all, c, held).None?
  {
    AllocateStep(asked, token, c, held);
    PrefixFails(asked + [token], all, c, held);
  }

  lemma PrefixFails(asked: seq<string>, all: seq<string>, c: RuntimeCatalog, held: set<string>)
    requires asked <= all && Allocate(Refs(asked, c), c, held).None?
    ensures Answer(all, c, held).None?
  {
    RefsPrefix(all, |asked|, c);
    assert all[..|asked|] == asked;
    AllocateFails(Refs(all, c), |asked|, c, held);
  }

  lemma AskedStep(tokens: seq<string>, i: nat)
    requires i < |tokens|
    ensures Asked(tokens[..i + 1])
            == if IsBlank(tokens[i]) then Asked(tokens[..i]) else Asked(tokens[..i]) + [TrimSpace(tokens[i])]
  {
    assert tokens[..i + 1][..i] == tokens[..i];
    assert Asked(tokens[..i]) + [] == Asked(tokens[..i]);
  }

  lemma {:induction false} AskedPrefix(tokens: seq<string>, i: nat)
    requires i <= |tokens|
    ensures Asked(tokens[..i]) <= Asked(tokens)
    decreases |tokens|
  {
    if i == |tokens| {
      assert tokens[..i] == tokens;
    } else {
      assert tokens[..|tokens| - 1][..i] == tokens[..i];
      AskedPrefix(tokens[..|tokens| - 1], i);
    }
  }

  lemma RefsPrefix(asked: seq<string>, n: nat, c: RuntimeCatalog)
    requires n <= |asked|
    ensures Refs(asked, c)[..n] == Refs(asked[..n], c)
  {
  }

  lemma BindOne(asked: seq<string>, names: seq<string>, token: string, name: string)
    requires |names| == |asked|
    ensures Bindings(asked + [token], names + [name]) == Bindings(asked, names)[token := name]
    ensures Set(names + [name]) == Set(names) + {name}
  {
    assert (asked + [token])[..|asked|] == asked && (names + [name])[..|names|] == names;
  }

  lemma AllocateStep(asked: seq<string>, token: string, c: RuntimeCatalog, held: set<string>)
    requires Allocate(Refs(asked, c), c, held).Some?
    ensures var names := Allocate(Refs(asked, c), c, held).value;
            var name := Resolve(RuntimeRef(token, c), c, held + Set(names));
            Allocate(Refs(asked + [token], c), c, held) == if name.None? then None else Some(names + [name.value])
  {
    var refs := Refs(asked + [token], c);
    assert refs[..|asked|] == Refs(asked, c);
  }

  lemma {:induction false} AllocateFails(refs: seq<Ref>, n: nat, c: RuntimeCatalog, held: set<string>)
    requires n <= |refs| && Allocate(refs[..n], c, held).None?
    ensures Allocate(refs, c, held).None?
    decreases |refs|
  {
    if n == |refs| {
      assert refs[..n] == refs;
    } else {
      assert refs[..|refs| - 1][..n] == refs[..n];
      AllocateFails(refs[..|refs| - 1], n, c, held);
    }
  }

  // ----- soundness

  lemma {:induction false} AllocatedAt(refs: seq<Ref>, c: RuntimeCatalog, held: set<string>, i: nat)
    requires Allocate(refs, c, held).Some? && i < |refs|
    ensures var names := Allocate(refs, c, held).value;
            Resolve(refs[i], c, held + Set(names[..i])) == Some(names[i])
  {
    var front := refs[..|refs| - 1];
    var names := Allocate(refs, c, held).value;
    assert names[..|refs| - 1] == Allocate(front, c, held).value;
    if i < |refs| - 1 {
      AllocatedAt(front, c, held, i);
      assert names[..i] == Allocate(front, c, held).value[..i];
    }
  }

  /** A type request gets an instance of its type that was free and that no earlier request got. */
  lemma TypeRequestIsServed(refs: seq<Ref>, c: RuntimeCatalog, held: set<string>, i: nat)
    requires Allocate(refs, c, held).Some? && i < |refs| && refs[i].TypeRef?
    ensures var names := Allocate(refs, c, held).value;
            && names[i] in Names(Listed(c.typeInstances, refs[i].id)) && names[i] !in held
            && forall j :: 0 <= j < i ==> names[j] != names[i]
  {
    AllocatedAt(refs, c, held, i);
    var names := Allocate(refs, c, held).value;
    forall j | 0 <= j < i ensures names[j] != names[i] { assert names[j] in names[..i]; }
  }

  // ----- completeness

  /** How often a type is requested among the first n. */
  function Requests(refs: seq<Ref>, typeID: string, n: nat): (r: nat)
    requires n <= |refs|
  {
    if n == 0 then 0 else Requests(refs, typeID, n - 1) + if refs[n - 1] == TypeRef(typeID) then 1 else 0
  }

  function Free(c: RuntimeCatalog, typeID: string, held: set<string>): set<string> {
    Names(Listed(c.typeInstances, typeID)) - held
  }

  ghost predicate AllTypes(refs: seq<Ref>) { forall i :: 0 <= i < |refs| ==> refs[i].TypeRef? }

  /** Instances of different types have different names. */
  ghost predicate TypesApart(c: RuntimeCatalog) {
    forall s, t :: s in c.typeInstances && t in c.typeInstances && s != t ==>
      Names(c.typeInstances[s]) !! Names(c.typeInstances[t])
  }

  lemma HoldOne(c: RuntimeCatalog, typeID: string, other: string, held: set<string>, name: string)
    requires TypesApart(c) && name in Free(c, typeID, held)
    ensures |Free(c, other, held + {name})| == |Free(c, other, held)| - if other == typeID then 1 else 0
  {
    if other == typeID {
      assert Free(c, typeID, held + {name}) == Free(c, typeID, held) - {name};
    } else {
      assert name in Names(Listed(c.typeInstances, typeID));
      assert Free(c, other, held + {name}) == Free(c, other, held);
    }
  }

  /** Every request uses up one free instance of its own type and of no other. */
  lemma {:induction false} RequestsUseUp(refs: seq<Ref>, c: RuntimeCatalog, held: set<string>, typeID: string)
    requires AllTypes(refs) && TypesApart(c) && Allocate(refs, c, held).Some?
    ensures var names := Allocate(refs, c, held).value;
            |Free(c, typeID, held + Set(names))| == |Free(c, typeID, held)| - Requests(refs, typeID, |refs|)
  {
    if refs == [] {
      assert held + Set([]) == held;
    } else {
      var front, last := refs[..|refs| - 1], refs[|refs| - 1];
      var before, name := LastServed(refs, c, held);
      RequestsUseUp(front, c, held, typeID);
      HoldOne(c, last.id, typeID, held + Set(before), name);
      LastRequest(refs, typeID);
    }
  }

  lemma LastRequest(refs: seq<Ref>, typeID: string)
    requires refs != []
    ensures var front, last := refs[..|refs| - 1], refs[|refs| - 1];
            Requests(refs, typeID, |refs|)
            == Requests(front, typeID, |front|) + if last == TypeRef(typeID) then 1 else 0
  {
    SameRequests(refs, refs[..|refs| - 1], typeID, |refs| - 1);
  }

  /** What the last request of a successful list got. */
  lemma LastServed(refs: seq<Ref>, c: RuntimeCatalog, held: set<string>) returns (before: seq<string>, name: string)
    requires AllTypes(refs) && refs != [] && Allocate(refs, c, held).Some?
    ensures Allocate(refs[..|refs| - 1], c, held) == Some(before)
    ensures Allocate(refs, c, held).value == before + [name]
    ensures name in Free(c, refs[|refs| - 1].id, held + Set(before))
    ensures held + Set(before + [name]) == held + Set(before) + {name}
  {
    before := Allocate(refs[..|refs| - 1], c, held).value;
    name := Allocate(refs, c, held).value[|refs| - 1];
  }

  lemma {:induction false} SameRequests(refs: seq<Ref>, front: seq<Ref>, typeID: string, n: nat)
    requires n <= |front| && front <= refs
    ensures Requests(refs, typeID, n) == Requests(front, typeID, n)
  {
    if n > 0 { SameRequests(refs, front, typeID, n - 1); }
  }

  /** A failed list of type requests asks too often for some type. */
  lemma {:induction false} Shortage(refs: seq<Ref>, c: RuntimeCatalog, held: set<string>) returns (t: string)
    requires AllTypes(refs) && TypesApart(c) && Allocate(refs, c, held).None?
    ensures Requests(refs, t, |refs|) > |Free(c, t, held)|
  {
    var front, last := refs[..|refs| - 1], refs[|refs| - 1];
    if Allocate(front, c, held).None? {
      t := Shortage(front, c, held);
    } else {
      t := last.id;
      RequestsUseUp(front, c, held, t);
      assert Free(c, t, held + Set(Allocate(front, c, held).value)) == {};
    }
    SameRequests(refs, front, t, |front|);
  }

  /** Greedy binding of type requests succeeds exactly when every type has as many free instances as requests. */
  lemma GreedyIsExact(refs: seq<Ref>, c: RuntimeCatalog, held: set<string>)
    requires AllTypes(refs) && TypesApart(c)
    ensures Allocate(refs, c, held).Some? <==> forall t :: Requests(refs, t, |refs|) <= |Free(c, t, held)|
  {
    if Allocate(refs, c, held).Some? {
      forall t ensures Requests(refs, t, |refs|) <= |Free(c, t, held)| { RequestsUseUp(refs, c, held, t); }
    } else {
      var t := Shortage(refs, c, held);
    }
  }

  // ----- the planner's count

  ghost predicate UniqueNames(resources: seq<ResourceInfo>) {
    forall i, j :: 0 <= i < j < |resources| && resources[i].kind != "type" && resources[j].kind != "type" ==>
      resources[i].name != resources[j].name
  }

  /** The instances listed under a type. */
  lemma {:induction false} ListedFrom(resources: seq<ResourceInfo>, typeID: string, r: ResourceInfo)
    requires r in Listed(RuntimeOf(resources).typeInstances, typeID)
    ensures r in resources && r.kind != "type" && r.parentID == typeID
  {
    var front, last := resources[..|resources| - 1], resources[|resources| - 1];
    if r in Listed(RuntimeOf(front).typeInstances, typeID) { ListedFrom(front, typeID, r); }
  }

  lemma {:induction false} ListedOnce(resources: seq<ResourceInfo>, typeID: string)
    requires UniqueNames(resources)
    ensures var l := Listed(RuntimeOf(resources).typeInstances, typeID); |Names(l)| == |l|
  {
    if resources != [] {
      var front, last := resources[..|resources| - 1], resources[|resources| - 1];
      ListedOnce(front, typeID);
      var before := Listed(RuntimeOf(front).typeInstances, typeID);
      if last.kind != "type" && last.parentID == typeID != "" {
        NewName(resources, before, typeID);
        assert Names(before + [last]) == Names(before) + {last.name};
      }
    } else {
      assert Names([]) == {};
    }
  }

  lemma NewName(resources: seq<ResourceInfo>, before: seq<ResourceInfo>, typeID: string)
    requires UniqueNames(resources) && resources != [] && resources[|resources| - 1].kind != "type"
    requires before == Listed(RuntimeOf(resources[..|resources| - 1]).typeInstances, typeID)
    ensures resources[|resources| - 1].name !in Names(before)
  {
    var front := resources[..|resources| - 1];
    forall r | r in before ensures r.name != resources[|resources| - 1].name {
      ListedFrom(front, typeID, r);
      var i :| 0 <= i < |front| && front[i] == r;
      assert resources[i] == r;
    }
  }

  lemma LoadedTypesApart(resources: seq<ResourceInfo>)
    requires UniqueNames(resources)
    ensures TypesApart(RuntimeOf(resources))
  {
    var c := RuntimeOf(resources);
    forall s, t | s in c.typeInstances && t in c.typeInstances && s != t
      ensures Names(c.typeInstances[s]) !! Names(c.typeInstances[t])
    {
      forall a, b | a in c.typeInstances[s] && b in c.typeInstances[t] ensures a.name != b.name {
        ListedFrom(resources, s, a);
        ListedFrom(resources, t, b);
        var i :| 0 <= i < |resources| && resources[i] == a;
        var j :| 0 <= j < |resources| && resources[j] == b;
        assert i != j;
      }
    }
  }

  /** With nothing held, the planner's capacities admit a list of type requests exactly when the executor binds it. */
  lemma CapacityIsExact(resources: seq<ResourceInfo>, refs: seq<Ref>)
    requires ExactKinds(resources) && UniqueNames(resources) && AllTypes(refs)
    ensures Allocate(refs, RuntimeOf(resources), {}).Some?
            <==> forall t :: Requests(refs, t, |refs|) <= Capacity(PlannerOf(resources), t)
  {
    var c := RuntimeOf(resources);
    LoadedTypesApart(resources);
    GreedyIsExact(refs, c, {});
    forall t ensures |Free(c, t, {})| == Capacity(PlannerOf(resources), t) {
      CatalogsAgree(resources, "x", t);
      ListedOnce(resources, t);
      assert Free(c, t, {}) == Names(Listed(c.typeInstances, t));
    }
  }
}
