/** Which instance a resource token is bound to, in the words of the resource list. */
module Naming {
  import opened Text
  import opened Planning
  import opened Dispatch
  import opened Binding

  // ----- the catalog, read off the list

  predicate IsInstance(r: ResourceInfo) { r.kind != "type" }

  /** Position x holds the last resource of the list with the property. */
  ghost predicate IsLast(resources: seq<ResourceInfo>, p: ResourceInfo -> bool, x: int) {
    && 0 <= x < |resources| && p(resources[x])
    && (forall y :: x < y < |resources| ==> !p(resources[y]))
  }

  /** Position x holds the first resource of the list with the property. */
  ghost predicate IsFirst(resources: seq<ResourceInfo>, p: ResourceInfo -> bool, x: int) {
    && 0 <= x < |resources| && p(resources[x])
    && (forall y :: 0 <= y < x ==> !p(resources[y]))
  }

  function TypeNamed(name: string): ResourceInfo -> bool { (r: ResourceInfo) => r.kind == "type" && r.name == name }

  function InstanceNamed(name: string): ResourceInfo -> bool { (r: ResourceInfo) => r.kind != "type" && r.name == name }

  function InstanceWithID(id: string): ResourceInfo -> bool { (r: ResourceInfo) => r.kind != "type" && r.id == id }

  /** A free instance of the type: a child of the type whose name nobody holds. */
  function FreeOf(typeID: string, held: set<string>): ResourceInfo -> bool {
    (r: ResourceInfo) => r.kind != "type" && r.parentID == typeID && r.name !in held
  }

  /** The last resource with the property. */
  ghost function LastOf(resources: seq<ResourceInfo>, p: ResourceInfo -> bool): (r: Option<ResourceInfo>)
    ensures r.Some? ==> p(r.value)
  {
    if x :| IsLast(resources, p, x) then Some(resources[x]) else None
  }

  /** The first resource with the property. */
  ghost function FirstOf(resources: seq<ResourceInfo>, p: ResourceInfo -> bool): (r: Option<ResourceInfo>)
    ensures r.Some? ==> p(r.value)
  {
    if x :| IsFirst(resources, p, x) then Some(resources[x]) else None
  }

  lemma LastMoves(front: seq<ResourceInfo>, r: ResourceInfo, p: ResourceInfo -> bool)
    ensures LastOf(front + [r], p) == if p(r) then Some(r) else LastOf(front, p)
  {
    var all := front + [r];
    assert all[|front|] == r;
    if p(r) {
      assert IsLast(all, p, |front|);
    } else {
      forall x ensures IsLast(all, p, x) <==> IsLast(front, p, x) { StillLast(front, r, p, x); }
    }
  }

  lemma StillLast(front: seq<ResourceInfo>, r: ResourceInfo, p: ResourceInfo -> bool, x: int)
    requires !p(r)
    ensures IsLast(front + [r], p, x) <==> IsLast(front, p, x)
  {
    var all := front + [r];
    if IsLast(front, p, x) {
      forall y | x < y < |all| ensures !p(all[y]) { assert y < |front| ==> all[y] == front[y]; }
    }
    if IsLast(all, p, x) {
      assert x != |front|;
      forall y | x < y < |front| ensures !p(front[y]) { assert all[y] == front[y]; }
    }
  }

  function Look<V>(m: map<string, V>, k: string): Option<V> { if k in m then Some(m[k]) else None }

  function IDOf(r: Option<ResourceInfo>): Option<string> { if r.Some? then Some(r.value.id) else None }

  function NameOf(r: Option<ResourceInfo>): Option<string> { if r.Some? then Some(r.value.name) else None }

  /** The catalog's maps hold the last resource of a name or id. */
  lemma {:induction false} CatalogReads(resources: seq<ResourceInfo>, s: string)
    ensures var c := RuntimeOf(resources);
            && Look(c.typeNameToID, s) == IDOf(LastOf(resources, TypeNamed(s)))
            && Look(c.instanceNameToID, s) == IDOf(LastOf(resources, InstanceNamed(s)))
            && Look(c.instanceByID, s) == LastOf(resources, InstanceWithID(s))
  {
    if resources != [] {
      var n := |resources| - 1;
      var front, r := resources[..n], resources[n];
      assert resources == front + [r];
      CatalogReads(front, s);
      LastMoves(front, r, TypeNamed(s));
      LastMoves(front, r, InstanceNamed(s));
      LastMoves(front, r, InstanceWithID(s));
    }
  }

  // ----- the first free instance of a type

  function ChildOf(typeID: string): ResourceInfo -> bool {
    (r: ResourceInfo) => r.kind != "type" && r.parentID == typeID
  }

  /** The catalog lists the instances of a type in the order of the list. */
  lemma {:induction false} InstancesAreChildren(resources: seq<ResourceInfo>, typeID: string)
    requires typeID != ""
    ensures Listed(RuntimeOf(resources).typeInstances, typeID) == Filter(resources, ChildOf(typeID))
  {
    if resources != [] {
      var n := |resources| - 1;
      InstancesAreChildren(resources[..n], typeID);
    }
  }

  lemma {:induction false} FirstUnheldIs(instances: seq<ResourceInfo>, held: set<string>)
    ensures FirstUnheld(instances, held) == NameOf(FirstOf(instances, (r: ResourceInfo) => r.name !in held))
  {
    var p := (r: ResourceInfo) => r.name !in held;
    if instances != [] {
      var r, rest := instances[0], instances[1..];
      assert instances == [r] + rest;
      FirstUnheldIs(rest, held);
      FirstMoves(r, rest, p);
    }
  }

  lemma FirstMoves(r: ResourceInfo, rest: seq<ResourceInfo>, p: ResourceInfo -> bool)
    ensures FirstOf([r] + rest, p) == if p(r) then Some(r) else FirstOf(rest, p)
  {
    var all := [r] + rest;
    if p(r) {
      assert IsFirst(all, p, 0);
    } else {
      forall x | IsFirst(rest, p, x) ensures IsFirst(all, p, x + 1) {
        forall y | 0 <= y < x + 1 ensures !p(all[y]) { assert y > 0 ==> all[y] == rest[y - 1]; }
      }
      forall x | IsFirst(all, p, x) ensures x > 0 && IsFirst(rest, p, x - 1) {
        forall y | 0 <= y < x - 1 ensures !p(rest[y]) { assert all[y + 1] == rest[y]; }
      }
    }
  }

  lemma {:induction false} FirstOfFiltered(
    resources: seq<ResourceInfo>, p: ResourceInfo -> bool, q: ResourceInfo -> bool, both: ResourceInfo -> bool)
    requires forall r :: both(r) <==> p(r) && q(r)
    ensures FirstOf(Filter(resources, p), q) == FirstOf(resources, both)
  {
    if resources == [] {
      assert Filter(resources, p) == [];
    } else {
      var n := |resources| - 1;
      var front, r := resources[..n], resources[n];
      assert resources == front + [r];
      FirstOfFiltered(front, p, q, both);
      FirstGrows(front, r, both);
      FirstGrows(Filter(front, p), r, q);
    }
  }

  lemma FirstGrows(front: seq<ResourceInfo>, r: ResourceInfo, p: ResourceInfo -> bool)
    ensures FirstOf(front + [r], p)
            == if FirstOf(front, p).Some? then FirstOf(front, p) else if p(r) then Some(r) else None
  {
    var all := front + [r];
    assert all[|front|] == r;
    forall x ensures IsFirst(all, p, x) <==> IsFirst(front, p, x) || (x == |front| && p(r) && NoneHas(front, p)) {
      FirstBefore(front, r, p, x);
    }
    SomeFirst(front, p);
    if x :| IsFirst(front, p, x) {
      FirstIs(front, p, x);
      FirstIs(all, p, x);
    } else if p(r) {
      FirstIs(all, p, |front|);
    }
  }

  lemma FirstIs(s: seq<ResourceInfo>, p: ResourceInfo -> bool, x: int)
    requires IsFirst(s, p, x)
    ensures FirstOf(s, p) == Some(s[x])
  {
    forall y | IsFirst(s, p, y) ensures y == x { assert !(y < x) && !(x < y); }
  }

  ghost predicate NoneHas(s: seq<ResourceInfo>, p: ResourceInfo -> bool) { forall y :: 0 <= y < |s| ==> !p(s[y]) }

  lemma FirstBefore(front: seq<ResourceInfo>, r: ResourceInfo, p: ResourceInfo -> bool, x: int)
    ensures IsFirst(front + [r], p, x) ==> IsFirst(front, p, x) || (x == |front| && p(r) && NoneHas(front, p))
    ensures IsFirst(front, p, x) ==> IsFirst(front + [r], p, x)
    ensures x == |front| && p(r) && NoneHas(front, p) ==> IsFirst(front + [r], p, x)
  {
    var all := front + [r];
    assert all[|front|] == r;
    assert forall y :: 0 <= y < |front| ==> p(all[y]) == p(front[y]);
    assert x == |front| ==> all[x] == r;
    if IsFirst(all, p, x) && x == |front| {
      forall y | 0 <= y < |front| ensures !p(front[y]) { assert !p(all[y]); }
    }
    if IsFirst(all, p, x) && x < |front| {
      forall y | 0 <= y < x ensures !p(front[y]) { assert !p(all[y]); }
      assert p(all[x]) == p(front[x]);
    }
    if IsFirst(front, p, x) {
      forall y | 0 <= y < x ensures !p(all[y]) { assert !p(front[y]); }
      assert p(all[x]) == p(front[x]);
    }
    if x == |front| && p(r) && NoneHas(front, p) {
      forall y | 0 <= y < x ensures !p(all[y]) { assert !p(front[y]); }
    }
  }

  lemma {:induction false} SomeFirst(s: seq<ResourceInfo>, p: ResourceInfo -> bool)
    ensures FirstOf(s, p).None? <==> NoneHas(s, p)
  {
    if s != [] {
      SomeFirst(s[1..], p);
      FirstMoves(s[0], s[1..], p);
      assert s == [s[0]] + s[1..];
      assert NoneHas(s, p) <==> !p(s[0]) && NoneHas(s[1..], p);
    }
  }

  // ----- what a token is bound to

  /**
   The name a token gets when `held` are the names already taken. `instance:` names an instance by id; `type:` with an
   id, or a type's name, asks for the first instance of the type whose name is free; an instance's name names it; and
   any other token is its own name. The last resource of a name or id counts.
   */
  ghost function NameFor(resources: seq<ResourceInfo>, token: string, held: set<string>): Option<string> {
    if HasPrefix(token, "instance:") then NameOf(LastOf(resources, InstanceWithID(TrimSpace(token[9..]))))
    else
      var typeID := if HasPrefix(token, "type:") then Some(TrimSpace(token[5..]))
                    else IDOf(LastOf(resources, TypeNamed(token)));
      if typeID.Some? && typeID.value != "" then NameOf(FirstOf(resources, FreeOf(typeID.value, held)))
      else
        match LastOf(resources, InstanceNamed(token))
        case Some(r) => NameOf(LastOf(resources, InstanceWithID(r.id)))
        case None => Some(token)
  }

  lemma FirstUnheldIsFree(resources: seq<ResourceInfo>, typeID: string, held: set<string>)
    requires typeID != ""
    ensures FirstUnheld(Listed(RuntimeOf(resources).typeInstances, typeID), held)
            == NameOf(FirstOf(resources, FreeOf(typeID, held)))
  {
    var q := (r: ResourceInfo) => r.name !in held;
    InstancesAreChildren(resources, typeID);
    FirstUnheldIs(Filter(resources, ChildOf(typeID)), held);
    FirstOfFiltered(resources, ChildOf(typeID), q, FreeOf(typeID, held));
  }

  lemma ByID(resources: seq<ResourceInfo>, token: string, held: set<string>)
    requires IsTrimmed(token) && HasPrefix(token, "instance:")
    ensures Resolve(RuntimeRef(token, RuntimeOf(resources)), RuntimeOf(resources), held)
            == NameFor(resources, token, held)
  {
    PrefixIsStart("instance:", token);
    CatalogReads(resources, TrimSpace(token[9..]));
  }

  /** The type a token asks for, when it does not name an instance by id. */
  lemma ReadAsType(resources: seq<ResourceInfo>, token: string, typeID: Option<string>)
    requires IsTrimmed(token) && !HasPrefix(token, "instance:")
    requires typeID == if HasPrefix(token, "type:") then Some(TrimSpace(token[5..]))
                       else IDOf(LastOf(resources, TypeNamed(token)))
    ensures RuntimeRef(token, RuntimeOf(resources))
            == if typeID.Some? && typeID.value != "" then TypeRef(typeID.value)
               else match LastOf(resources, InstanceNamed(token))
                    case Some(r) => InstanceRef(r.id)
                    case None => RawRef(token)
  {
    PrefixIsStart("instance:", token);
    PrefixIsStart("type:", token);
    CatalogReads(resources, token);
  }

  /** The executor's reading of a token against its catalog comes to the name the resource list gives it. */
  lemma TokenIsNamed(resources: seq<ResourceInfo>, token: string, held: set<string>)
    requires IsTrimmed(token)
    ensures Resolve(RuntimeRef(token, RuntimeOf(resources)), RuntimeOf(resources), held)
            == NameFor(resources, token, held)
  {
    if HasPrefix(token, "instance:") {
      ByID(resources, token, held);
    } else {
      var typeID := if HasPrefix(token, "type:") then Some(TrimSpace(token[5..]))
                    else IDOf(LastOf(resources, TypeNamed(token)));
      var named := LastOf(resources, InstanceNamed(token));
      ReadAsType(resources, token, typeID);
      if typeID.Some? && typeID.value != "" { FirstUnheldIsFree(resources, typeID.value, held); }
      else if named.Some? { CatalogReads(resources, named.value.id); }
    }
  }

  // ----- a whole list of tokens

  /** Every token gets the name due to it when the names before it are taken too. */
  ghost predicate AreNamed(resources: seq<ResourceInfo>, asked: seq<string>, held: set<string>, names: seq<string>) {
    && |names| <= |asked|
    && (forall k :: 0 <= k < |names| ==> NameFor(resources, asked[k], held + Set(names[..k])) == Some(names[k]))
  }

  /** Position k holds the last mention of the token. */
  predicate IsLastMention(asked: seq<string>, token: string, k: int) {
    && 0 <= k < |asked| && asked[k] == token
    && (forall j :: k < j < |asked| ==> asked[j] != token)
  }

  /** Every token is bound, and its last mention counts. */
  ghost predicate AreGiven(asked: seq<string>, names: seq<string>, bindings: map<string, string>) {
    && |names| == |asked| && (forall t :: t in bindings <==> t in asked)
    && (forall t, k :: IsLastMention(asked, t, k) ==> t in bindings && bindings[t] == names[k])
  }

  /** All tokens are named and bound; or the naming gets stuck at a token. */
  ghost predicate IsAnswer(
    resources: seq<ResourceInfo>, asked: seq<string>, held: set<string>, r: Option<map<string, string>>)
  {
    exists names :: AreNamed(resources, asked, held, names) &&
      match r
      case Some(bindings) => AreGiven(asked, names, bindings)
      case None => |names| < |asked| && NameFor(resources, asked[|names|], held + Set(names)) == None
  }

  lemma {:induction false} BindingsAreLastMentions(asked: seq<string>, names: seq<string>)
    requires |names| == |asked|
    ensures AreGiven(asked, names, Bindings(asked, names))
  {
    if asked != [] {
      var n := |asked| - 1;
      var front := asked[..n];
      BindingsAreLastMentions(front, names[..n]);
      assert asked == front + [asked[n]];
      forall t, k | IsLastMention(asked, t, k) && k < n ensures IsLastMention(front, t, k) && t != asked[n] {}
    }
  }

  lemma {:induction false} AllocatedAreNamed(resources: seq<ResourceInfo>, asked: seq<string>, held: set<string>)
    returns (names: seq<string>)
    requires forall k :: 0 <= k < |asked| ==> IsTrimmed(asked[k])
    ensures AreNamed(resources, asked, held, names)
    ensures match Allocate(Refs(asked, RuntimeOf(resources)), RuntimeOf(resources), held)
            case Some(ns) => names == ns && |names| == |asked|
            case None => |names| < |asked| && NameFor(resources, asked[|names|], held + Set(names)) == None
  {
    var c := RuntimeOf(resources);
    if asked == [] {
      names := [];
    } else {
      var n := |asked| - 1;
      var front := asked[..n];
      assert Refs(asked, c)[..n] == Refs(front, c) && Refs(asked, c)[n] == RuntimeRef(asked[n], c);
      names := AllocatedAreNamed(resources, front, held);
      if |names| == n {
        TokenIsNamed(resources, asked[n], held + Set(names));
        var name := NameFor(resources, asked[n], held + Set(names));
        NamedSoFar(resources, front, asked, held, names);
        if name.Some? {
          OneMoreName(resources, front, asked, held, names, name.value);
          names := names + [name.value];
        }
      } else {
        NamedSoFar(resources, front, asked, held, names);
      }
    }
  }

  lemma NamedSoFar(
    resources: seq<ResourceInfo>, front: seq<string>, asked: seq<string>, held: set<string>, names: seq<string>)
    requires front <= asked && AreNamed(resources, front, held, names)
    ensures AreNamed(resources, asked, held, names)
    ensures |names| < |front| ==> front[|names|] == asked[|names|]
  {
    forall k | 0 <= k < |names| ensures NameFor(resources, asked[k], held + Set(names[..k])) == Some(names[k]) {
      assert asked[k] == front[k];
    }
  }

  lemma OneMoreName(
    resources: seq<ResourceInfo>, front: seq<string>, asked: seq<string>, held: set<string>, names: seq<string>,
    name: string)
    requires front <= asked && |asked| == |front| + 1 && |names| == |front| && AreNamed(resources, front, held, names)
    requires NameFor(resources, asked[|front|], held + Set(names)) == Some(name)
    ensures AreNamed(resources, asked, held, names + [name])
  {
    var all := names + [name];
    forall k | 0 <= k < |all| ensures NameFor(resources, asked[k], held + Set(all[..k])) == Some(all[k]) {
      assert all[..k] == names[..k];
      if k < |names| { assert asked[k] == front[k]; } else { assert names[..k] == names; }
    }
  }

  /** What resolveRuntimeBindings answers, read off the resource list. */
  lemma AnswerIsNamed(resources: seq<ResourceInfo>, asked: seq<string>, held: set<string>)
    requires forall k :: 0 <= k < |asked| ==> IsTrimmed(asked[k])
    ensures IsAnswer(resources, asked, held, Answer(asked, RuntimeOf(resources), held))
  {
    var names := AllocatedAreNamed(resources, asked, held);
    if |names| == |asked| { BindingsAreLastMentions(asked, names); }
  }
}
