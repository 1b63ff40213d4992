/** The planner's last step: give every task of the ordered task list the earliest parallel group it fits in. */
module ParallelGroups {
  import opened Planning

  /** A required-resource token after resolution; a blank token resolves to nothing. */
  datatype ResourceRef = InstanceRef(key: string) | TypeRef(typeKey: string) | NoRef

  datatype GroupTask = GroupTask(
    agent: string, refs: seq<ResourceRef>, during: seq<PlanningEffect>, results: seq<PlanningEffect>)

  /** Instance ids by resource type. */
  type Instances = map<string, seq<string>>

  /**
   What the placement loop remembers: the last order that takes each instance, and the instances, agents and
   tasks of every order. `top` bounds the orders used so far.
   */
  datatype Board = Board(
    held: map<string, nat>, instances: map<nat, set<string>>, agents: map<nat, set<string>>,
    tasks: map<nat, seq<GroupTask>>, top: nat)

  const EmptyBoard := Board(map[], map[], map[], map[], 0)

  function At<T>(m: map<nat, set<T>>, k: nat): set<T> { if k in m then m[k] else {} }

  function TasksAt(b: Board, k: nat): seq<GroupTask> { if k in b.tasks then b.tasks[k] else [] }

  ghost predicate Valid(b: Board) {
    && (forall k :: k in b.instances || k in b.agents || k in b.tasks ==> k < b.top)
    && (forall i :: i in b.held ==> b.held[i] < b.top)
    && (forall k, i :: k in b.instances && i in b.instances[k] ==> i in b.held && k <= b.held[i])
  }

  // ----- conflicts

  /** findFreeTypeInstance; "" when none is free. */
  function FreeInstance(ids: seq<string>, held: map<string, nat>, used: set<string>): string {
    if ids == [] then ""
    else if ids[0] in held || ids[0] in used then FreeInstance(ids[1..], held, used)
    else ids[0]
  }

  function IdsOf(types: Instances, t: string): seq<string> { if t in types then types[t] else [] }

  predicate RefClash(b: Board, r: ResourceRef, types: Instances, k: nat) {
    match r
    case InstanceRef(key) => key in At(b.instances, k)
    case TypeRef(t) => FreeInstance(IdsOf(types, t), b.held, At(b.instances, k)) == ""
    case NoRef => false
  }

  predicate ResourceClash(b: Board, t: GroupTask, types: Instances, k: nat) {
    exists i :: 0 <= i < |t.refs| && RefClash(b, t.refs[i], types, k)
  }

  predicate EffectsClash(left: seq<PlanningEffect>, right: seq<PlanningEffect>) {
    exists i, j :: 0 <= i < |left| && 0 <= j < |right|
                   && left[i].variable == right[j].variable && left[i].value != right[j].value
  }

  predicate DuringConflict(left: GroupTask, right: GroupTask) {
    EffectsClash(left.during, right.results) || EffectsClash(right.during, left.results)
  }

  predicate DuringClash(b: Board, t: GroupTask, k: nat) {
    exists i :: 0 <= i < |TasksAt(b, k)| && DuringConflict(t, TasksAt(b, k)[i])
  }

  // ----- placing one task

  /** One past the last order that takes any instance a task names. */
  function Start(b: Board, refs: seq<ResourceRef>): nat {
    if refs == [] then 0
    else
      var m := Start(b, refs[..|refs| - 1]);
      var r := refs[|refs| - 1];
      if r.InstanceRef? && r.key in b.held && b.held[r.key] + 1 > m then b.held[r.key] + 1 else m
  }

  /** Every type a task asks for still has an instance that no earlier task took. */
  predicate TypesFree(b: Board, t: GroupTask, types: Instances) {
    forall i :: 0 <= i < |t.refs| && t.refs[i].TypeRef? ==>
      FreeInstance(IdsOf(types, t.refs[i].typeKey), b.held, {}) != ""
  }

  /** The least order from `k` on that does not clash. */
  function FirstFree(clash: nat -> bool, k: nat, top: nat): (r: nat)
    requires forall x: nat :: top <= x ==> !clash(x)
    ensures k <= r && !clash(r) && (r <= top || r == k)
    ensures forall x: nat :: k <= x < r ==> clash(x)
    decreases if k < top then top - k else 0
  {
    if clash(k) then FirstFree(clash, k + 1, top) else k
  }

  lemma {:induction false} FirstFreeIs(clash: nat -> bool, k: nat, top: nat, r: nat)
    requires forall x: nat :: top <= x ==> !clash(x)
    requires k <= r && !clash(r)
    requires forall x: nat :: k <= x < r ==> clash(x)
    ensures FirstFree(clash, k, top) == r
  {
    var f := FirstFree(clash, k, top);
    assert !clash(f);
  }

  function ResourceOrder(b: Board, t: GroupTask, types: Instances): nat
    requires Valid(b) && TypesFree(b, t, types)
  {
    FirstFree((k: nat) => ResourceClash(b, t, types, k), Start(b, t.refs), b.top)
  }

  function AgentOrder(b: Board, t: GroupTask, k: nat): nat
    requires Valid(b)
  {
    FirstFree((x: nat) => t.agent in At(b.agents, x), k, b.top)
  }

  function DuringOrder(b: Board, t: GroupTask, k: nat): nat
    requires Valid(b)
  {
    FirstFree((x: nat) => DuringClash(b, t, x), k, b.top)
  }

  /** The order computeParallelGroups assigns; the three searches run one after the other. */
  function OrderOf(b: Board, t: GroupTask, types: Instances): nat
    requires Valid(b) && TypesFree(b, t, types)
  {
    DuringOrder(b, t, AgentOrder(b, t, ResourceOrder(b, t, types)))
  }

  /** Marks a task's instances as taken at order `k`, choosing one for each type. */
  function Take(held: map<string, nat>, used: set<string>, refs: seq<ResourceRef>, types: Instances, k: nat)
    : (r: (map<string, nat>, set<string>))
  {
    if refs == [] then (held, used)
    else
      var (h, u) := Take(held, used, refs[..|refs| - 1], types, k);
      match refs[|refs| - 1]
      case InstanceRef(key) => (h[key := k], u + {key})
      case TypeRef(t) =>
        var id := FreeInstance(IdsOf(types, t), h, u);
        if id == "" then (h, u) else (h[id := k], u + {id})
      case NoRef => (h, u)
  }

  function Place(b: Board, t: GroupTask, types: Instances, k: nat): Board {
    var (held, used) := Take(b.held, At(b.instances, k), t.refs, types, k);
    Board(held, b.instances[k := used], b.agents[k := At(b.agents, k) + {t.agent}],
          b.tasks[k := TasksAt(b, k) + [t]], if k < b.top then b.top else k + 1)
  }

  // ----- when the resource search ends

  lemma {:induction false} FreeIgnoresHeldIds(ids: seq<string>, held: map<string, nat>, used: set<string>)
    requires used <= held.Keys
    ensures FreeInstance(ids, held, used) == FreeInstance(ids, held, {})
  {
    if ids != [] { FreeIgnoresHeldIds(ids[1..], held, used); }
  }

  /**
   The search for a resource-compatible order ends if and only if every requested type has an untaken instance:
   a taken instance is never given back, so trying later orders cannot help.
   */
  lemma ResourceSearchEnds(b: Board, t: GroupTask, types: Instances)
    requires Valid(b)
    ensures (exists k: nat :: Start(b, t.refs) <= k && !ResourceClash(b, t, types, k)) <==> TypesFree(b, t, types)
  {
    forall k: nat, i | 0 <= i < |t.refs| && t.refs[i].TypeRef?
      ensures RefClash(b, t.refs[i], types, k)
              <==> FreeInstance(IdsOf(types, t.refs[i].typeKey), b.held, {}) == ""
    {
      FreeIgnoresHeldIds(IdsOf(types, t.refs[i].typeKey), b.held, At(b.instances, k));
    }
    if TypesFree(b, t, types) {
      var k := b.top + Start(b, t.refs);
      assert At(b.instances, k) == {};
      assert !ResourceClash(b, t, types, k);
    } else {
      var i :| 0 <= i < |t.refs| && t.refs[i].TypeRef?
               && FreeInstance(IdsOf(types, t.refs[i].typeKey), b.held, {}) == "";
      assert forall k: nat :: RefClash(b, t.refs[i], types, k);
    }
  }

  // ----- invariants of placement

  lemma {:induction false} StartAfterHeld(b: Board, refs: seq<ResourceRef>)
    requires Valid(b)
    ensures Start(b, refs) <= b.top
    ensures forall i :: 0 <= i < |refs| && refs[i].InstanceRef? && refs[i].key in b.held
                        ==> b.held[refs[i].key] < Start(b, refs)
  {
    if refs != [] { StartAfterHeld(b, refs[..|refs| - 1]); }
  }

  lemma {:induction false} TakeKeepsHeld(
    held: map<string, nat>, used: set<string>, refs: seq<ResourceRef>, types: Instances, k: nat, top: nat)
    requires forall i :: i in used ==> i in held && k <= held[i]
    requires forall i :: i in held ==> held[i] < top
    requires k < top
    requires forall i :: 0 <= i < |refs| && refs[i].InstanceRef? && refs[i].key in held ==> held[refs[i].key] <= k
    ensures var (h, u) := Take(held, used, refs, types, k);
            && used <= u && held.Keys <= h.Keys
            && (forall i :: i in u ==> i in h && k <= h[i])
            && (forall i :: i in h ==> h[i] < top)
            && (forall i :: i in held ==> held[i] <= h[i])
            && (forall i :: i in h ==> h[i] == k || (i in held && h[i] == held[i]))
            && (forall i :: 0 <= i < |refs| && refs[i].InstanceRef? ==> refs[i].key in u && h[refs[i].key] == k)
  {
    if refs != [] {
      TakeKeepsHeld(held, used, refs[..|refs| - 1], types, k, top);
      var (h, u) := Take(held, used, refs[..|refs| - 1], types, k);
      var r := refs[|refs| - 1];
      if r.TypeRef? { FreeInstanceIsFree(IdsOf(types, r.typeKey), h, u); }
    }
  }

  lemma {:induction false} FreeInstanceIsFree(ids: seq<string>, held: map<string, nat>, used: set<string>)
    ensures var id := FreeInstance(ids, held, used); id != "" ==> id in ids && id !in held && id !in used
  {
    if ids != [] { FreeInstanceIsFree(ids[1..], held, used); }
  }

  lemma PlaceKeepsValid(b: Board, t: GroupTask, types: Instances, k: nat)
    requires Valid(b)
    requires Start(b, t.refs) <= k
    ensures var b' := Place(b, t, types, k);
            && Valid(b') && k < b'.top
            && (forall i :: i in b.held ==> i in b'.held && b.held[i] <= b'.held[i])
            && (forall i :: 0 <= i < |t.refs| && t.refs[i].InstanceRef? ==>
                  t.refs[i].key in b'.held && b'.held[t.refs[i].key] == k)
  {
    StartAfterHeld(b, t.refs);
    var top := if k < b.top then b.top else k + 1;
    TakeKeepsHeld(b.held, At(b.instances, k), t.refs, types, k, top);
  }

  lemma OrderBounds(b: Board, t: GroupTask, types: Instances)
    requires Valid(b) && TypesFree(b, t, types)
    ensures Start(b, t.refs) <= ResourceOrder(b, t, types) <= OrderOf(b, t, types) <= b.top
  {
    StartAfterHeld(b, t.refs);
  }

  // ----- placing the whole list

  /** The board after one more task. */
  ghost function Advance(b: Board, t: GroupTask, types: Instances): (b': Board)
    requires Valid(b) && TypesFree(b, t, types)
    ensures Valid(b')
  {
    OrderBounds(b, t, types);
    PlaceKeepsValid(b, t, types, OrderOf(b, t, types));
    Place(b, t, types, OrderOf(b, t, types))
  }

  /** The boards a run of the loop goes through: one before each task, and the last one. */
  ghost predicate IsRun(tasks: seq<GroupTask>, types: Instances, boards: seq<Board>) {
    && |boards| == |tasks| + 1
    && boards[0] == EmptyBoard
    && forall i :: 0 <= i < |tasks| ==> StepAt(tasks, types, boards, i)
  }

  ghost predicate StepAt(tasks: seq<GroupTask>, types: Instances, boards: seq<Board>, i: int)
    requires |boards| == |tasks| + 1 && 0 <= i < |tasks|
  {
    StepsTo(boards[i], tasks[i], types, boards[i + 1])
  }

  ghost predicate StepsTo(b: Board, t: GroupTask, types: Instances, b': Board) {
    Valid(b) && TypesFree(b, t, types) && b' == Advance(b, t, types)
  }

  /** The order a run gives to task `i`. */
  ghost function Given(tasks: seq<GroupTask>, types: Instances, boards: seq<Board>, i: nat): nat
    requires IsRun(tasks, types, boards) && i < |tasks|
  {
    assert StepAt(tasks, types, boards, i);
    OrderOf(boards[i], tasks[i], types)
  }

  lemma StepFacts(b: Board, t: GroupTask, types: Instances, b': Board)
    requires StepsTo(b, t, types, b')
    ensures Valid(b')
    ensures Start(b, t.refs) <= OrderOf(b, t, types) <= b.top
    ensures b'.top == (if OrderOf(b, t, types) < b.top then b.top else OrderOf(b, t, types) + 1)
    ensures b'.agents == b.agents[OrderOf(b, t, types) := At(b.agents, OrderOf(b, t, types)) + {t.agent}]
    ensures forall i :: i in b.held ==> i in b'.held && b.held[i] <= b'.held[i]
    ensures forall key :: Names(t, key) ==> key in b'.held && b'.held[key] == OrderOf(b, t, types)
    ensures forall key :: Names(t, key) && key in b.held ==> b.held[key] < OrderOf(b, t, types)
  {
    OrderBounds(b, t, types);
    StartAfterHeld(b, t.refs);
    PlaceKeepsValid(b, t, types, OrderOf(b, t, types));
  }

  /** Tasks of a single agent run strictly one after the other, in the order the planner chose them. */
  lemma {:induction false} SingleAgentOrders(
    tasks: seq<GroupTask>, types: Instances, boards: seq<Board>, agent: string, i: nat)
    requires IsRun(tasks, types, boards) && i < |tasks|
    requires forall i :: 0 <= i < |tasks| ==> tasks[i].agent == agent
    ensures Given(tasks, types, boards, i) == i
  {
    FullBelow(tasks, types, boards, agent, i);
    assert StepAt(tasks, types, boards, i);
    ServedNext(boards[i], tasks[i], types);
  }

  /** Where every order below `top` already has the agent, its next task takes `top`. */
  lemma ServedNext(b: Board, t: GroupTask, types: Instances)
    requires Valid(b) && TypesFree(b, t, types)
    requires forall k: nat :: k < b.top ==> t.agent in At(b.agents, k)
    ensures OrderOf(b, t, types) == b.top
  {
    OrderBounds(b, t, types);
    var k := AgentOrder(b, t, ResourceOrder(b, t, types));
    assert t.agent !in At(b.agents, k);
  }

  lemma {:induction false} FullBelow(
    tasks: seq<GroupTask>, types: Instances, boards: seq<Board>, agent: string, i: nat)
    requires IsRun(tasks, types, boards) && i < |tasks|
    requires forall i :: 0 <= i < |tasks| ==> tasks[i].agent == agent
    ensures Valid(boards[i]) && boards[i].top == i
    ensures forall k: nat :: k < i ==> agent in At(boards[i].agents, k)
  {
    if i > 0 {
      FullBelow(tasks, types, boards, agent, i - 1);
      assert StepAt(tasks, types, boards, i - 1);
      StepFacts(boards[i - 1], tasks[i - 1], types, boards[i]);
      ServedNext(boards[i - 1], tasks[i - 1], types);
      forall k: nat | k < i ensures agent in At(boards[i].agents, k) {
        if k < i - 1 { assert agent in At(boards[i - 1].agents, k); }
      }
    } else {
      assert StepAt(tasks, types, boards, 0);
    }
  }

  predicate Names(t: GroupTask, key: string) {
    exists i :: 0 <= i < |t.refs| && t.refs[i] == InstanceRef(key)
  }

  // ----- which instances are taken

  function FreeOf(ids: seq<string>, taken: set<string>): string {
    if ids == [] then "" else if ids[0] in taken then FreeOf(ids[1..], taken) else ids[0]
  }

  lemma {:induction false} FreeOfIsFree(ids: seq<string>, taken: set<string>)
    ensures FreeOf(ids, taken) != "" ==> FreeOf(ids, taken) !in taken
  {
    if ids != [] { FreeOfIsFree(ids[1..], taken); }
  }

  lemma {:induction false} FreeByKeys(ids: seq<string>, held: map<string, nat>, used: set<string>)
    requires used <= held.Keys
    ensures FreeInstance(ids, held, used) == FreeOf(ids, held.Keys)
  {
    if ids != [] { FreeByKeys(ids[1..], held, used); }
  }

  /** The instance a reference takes, "" for none; it does not depend on orders. */
  function Taking(r: ResourceRef, types: Instances, taken: set<string>): string {
    match r
    case InstanceRef(key) => key
    case TypeRef(t) => FreeOf(IdsOf(types, t), taken)
    case NoRef => ""
  }

  predicate Takes(r: ResourceRef, types: Instances, taken: set<string>) {
    r.InstanceRef? || (r.TypeRef? && Taking(r, types, taken) != "")
  }

  /** The instances a task with these references takes: those it names, and one for each type. */
  function UsedBy(taken: set<string>, refs: seq<ResourceRef>, types: Instances): set<string> {
    if refs == [] then {}
    else
      var used := UsedBy(taken, refs[..|refs| - 1], types);
      var r := refs[|refs| - 1];
      if Takes(r, types, taken + used) then used + {Taking(r, types, taken + used)} else used
  }

  lemma {:induction false} TakeByKeys(
    held: map<string, nat>, used: set<string>, refs: seq<ResourceRef>, types: Instances, k: nat)
    requires used <= held.Keys
    ensures var (h, u) := Take(held, used, refs, types, k);
            && u <= h.Keys && h.Keys == held.Keys + UsedBy(held.Keys, refs, types)
            && forall key :: key in UsedBy(held.Keys, refs, types) ==> h[key] == k
  {
    if refs != [] {
      var front, r := refs[..|refs| - 1], refs[|refs| - 1];
      TakeByKeys(held, used, front, types, k);
      var (h, u) := Take(held, used, front, types, k);
      if r.TypeRef? { FreeByKeys(IdsOf(types, r.typeKey), h, u); }
    }
  }

  /** What is taken already is taken again only by name. */
  lemma {:induction false} RetakenByName(taken: set<string>, refs: seq<ResourceRef>, types: Instances, key: string)
    requires key in taken && key in UsedBy(taken, refs, types)
    ensures exists i :: 0 <= i < |refs| && refs[i] == InstanceRef(key)
  {
    var front, r := refs[..|refs| - 1], refs[|refs| - 1];
    var used := UsedBy(taken, front, types);
    if key in used {
      RetakenByName(taken, front, types, key);
      var i :| 0 <= i < |front| && front[i] == InstanceRef(key);
      assert refs[i] == InstanceRef(key);
    } else {
      if r.TypeRef? { FreeOfIsFree(IdsOf(types, r.typeKey), taken + used); }
      assert refs[|refs| - 1] == InstanceRef(key);
    }
  }

  /** The instances task `i` of a run takes. */
  ghost function Uses(tasks: seq<GroupTask>, types: Instances, boards: seq<Board>, i: nat): set<string>
    requires IsRun(tasks, types, boards) && i < |tasks|
  {
    UsedBy(boards[i].held.Keys, tasks[i].refs, types)
  }

  lemma StepTakes(b: Board, t: GroupTask, types: Instances, b': Board)
    requires StepsTo(b, t, types, b')
    ensures b'.held.Keys == b.held.Keys + UsedBy(b.held.Keys, t.refs, types)
    ensures forall key :: key in UsedBy(b.held.Keys, t.refs, types) ==> b'.held[key] == OrderOf(b, t, types)
    ensures forall key :: key in UsedBy(b.held.Keys, t.refs, types) && key in b.held ==>
              b.held[key] < OrderOf(b, t, types)
  {
    var k := OrderOf(b, t, types);
    TakeByKeys(b.held, At(b.instances, k), t.refs, types, k);
    forall key | key in UsedBy(b.held.Keys, t.refs, types) && key in b.held ensures b.held[key] < k {
      RetakenByName(b.held.Keys, t.refs, types, key);
      StepFacts(b, t, types, b');
      assert Names(t, key);
    }
  }

  /**
   Two tasks that take the same instance, by name or as an instance of a type, never share an order: the one listed
   later runs later. So the instances in use within one order are pairwise different.
   */
  lemma GroupsShareNoInstance(
    tasks: seq<GroupTask>, types: Instances, boards: seq<Board>, key: string, i: nat, j: nat)
    requires IsRun(tasks, types, boards) && i < j < |tasks|
    requires key in Uses(tasks, types, boards, i) && key in Uses(tasks, types, boards, j)
    ensures Given(tasks, types, boards, i) < Given(tasks, types, boards, j)
  {
    HeldSince(tasks, types, boards, key, i, j);
    StepTakes(boards[j], tasks[j], types, boards[j + 1]);
  }

  lemma HeldSince(
    tasks: seq<GroupTask>, types: Instances, boards: seq<Board>, key: string, i: nat, j: nat)
    requires IsRun(tasks, types, boards)
    requires i < j < |tasks| && key in Uses(tasks, types, boards, i)
    ensures StepsTo(boards[j], tasks[j], types, boards[j + 1])
    ensures key in boards[j].held && Given(tasks, types, boards, i) <= boards[j].held[key]
  {
    assert StepAt(tasks, types, boards, i);
    StepTakes(boards[i], tasks[i], types, boards[i + 1]);
    HeldOn(tasks, types, boards, key, i + 1, j, OrderOf(boards[i], tasks[i], types));
    assert StepAt(tasks, types, boards, j);
  }

  lemma {:induction false} HeldOn(
    tasks: seq<GroupTask>, types: Instances, boards: seq<Board>, key: string, i: nat, j: nat, k: nat)
    requires IsRun(tasks, types, boards)
    requires i <= j <= |tasks| && key in boards[i].held && k <= boards[i].held[key]
    ensures key in boards[j].held && k <= boards[j].held[key]
  {
    if i < j {
      HeldOn(tasks, types, boards, key, i, j - 1, k);
      assert StepAt(tasks, types, boards, j - 1);
      StepHolds(boards[j - 1], tasks[j - 1], types, boards[j], key);
    }
  }

  lemma StepHolds(b: Board, t: GroupTask, types: Instances, b': Board, key: string)
    requires StepsTo(b, t, types, b') && key in b.held
    ensures key in b'.held && b.held[key] <= b'.held[key]
  {
    StepFacts(b, t, types, b');
  }

  // ----- the lists for which the searches end

  /** The instances the first `n` tasks take. */
  function TakenBy(tasks: seq<GroupTask>, types: Instances, n: nat): set<string>
    requires n <= |tasks|
  {
    if n == 0 then {}
    else
      var taken := TakenBy(tasks, types, n - 1);
      taken + UsedBy(taken, tasks[n - 1].refs, types)
  }

  /** Every type task `n` asks for has an instance that no earlier task takes. */
  predicate Supplied(tasks: seq<GroupTask>, types: Instances, n: nat)
    requires n < |tasks|
  {
    forall i :: 0 <= i < |tasks[n].refs| && tasks[n].refs[i].TypeRef? ==>
      FreeOf(IdsOf(types, tasks[n].refs[i].typeKey), TakenBy(tasks, types, n)) != ""
  }

  predicate AllSupplied(tasks: seq<GroupTask>, types: Instances) {
    forall n: nat :: n < |tasks| ==> Supplied(tasks, types, n)
  }

  lemma SuppliedIsFree(b: Board, tasks: seq<GroupTask>, types: Instances, n: nat)
    requires n < |tasks| && b.held.Keys == TakenBy(tasks, types, n)
    ensures Supplied(tasks, types, n) <==> TypesFree(b, tasks[n], types)
  {
    forall i | 0 <= i < |tasks[n].refs| && tasks[n].refs[i].TypeRef?
      ensures FreeInstance(IdsOf(types, tasks[n].refs[i].typeKey), b.held, {})
              == FreeOf(IdsOf(types, tasks[n].refs[i].typeKey), TakenBy(tasks, types, n))
    {
      FreeByKeys(IdsOf(types, tasks[n].refs[i].typeKey), b.held, {});
    }
  }

  lemma {:induction false} HeldIsTaken(tasks: seq<GroupTask>, types: Instances, boards: seq<Board>, n: nat)
    requires IsRun(tasks, types, boards) && n <= |tasks|
    ensures boards[n].held.Keys == TakenBy(tasks, types, n)
  {
    if n > 0 {
      HeldIsTaken(tasks, types, boards, n - 1);
      assert StepAt(tasks, types, boards, n - 1);
      StepTakes(boards[n - 1], tasks[n - 1], types, boards[n]);
    }
  }

  /** The searches of the whole list end if and only if every task is supplied; a condition on tasks and types alone. */
  lemma EndsIffSupplied(tasks: seq<GroupTask>, types: Instances)
    ensures (exists boards :: IsRun(tasks, types, boards)) <==> AllSupplied(tasks, types)
  {
    if boards :| IsRun(tasks, types, boards) {
      forall n: nat | n < |tasks| ensures Supplied(tasks, types, n) {
        HeldIsTaken(tasks, types, boards, n);
        assert StepAt(tasks, types, boards, n);
        SuppliedIsFree(boards[n], tasks, types, n);
      }
    }
    if AllSupplied(tasks, types) {
      var boards := BuildRun(tasks, types, |tasks|);
      assert tasks[..|tasks|] == tasks;
    }
  }

  const Clamp := GroupTask("A", [TypeRef("vise")], [], [])

  /** Two tasks that each ask for a type with a single instance: the search for the second one never ends. */
  lemma ScarceTypeNeverEnds(boards: seq<Board>)
    ensures !IsRun([Clamp, Clamp], map["vise" := ["v1"]], boards)
  {
    var tasks: seq<GroupTask>, types: Instances := [Clamp, Clamp], map["vise" := ["v1"]];
    var none: set<string> := {};
    assert Clamp.refs[..0] == [] && IdsOf(types, "vise") == ["v1"] && none + none == none;
    assert UsedBy(none, Clamp.refs[..0], types) == none;
    assert FreeOf(["v1"], none) == "v1";
    assert UsedBy(none, Clamp.refs, types) == {"v1"};
    assert TakenBy(tasks, types, 0) == none;
    assert TakenBy(tasks, types, 1) == {"v1"};
    assert ["v1"][1..] == [] && FreeOf(["v1"], {"v1"}) == "";
    assert tasks[1].refs[0].TypeRef? && FreeOf(IdsOf(types, tasks[1].refs[0].typeKey), TakenBy(tasks, types, 1)) == "";
    assert !Supplied(tasks, types, 1);
    EndsIffSupplied(tasks, types);
  }

  lemma {:induction false} BuildRun(tasks: seq<GroupTask>, types: Instances, n: nat) returns (boards: seq<Board>)
    requires AllSupplied(tasks, types) && n <= |tasks|
    ensures IsRun(tasks[..n], types, boards) && Valid(boards[n]) && boards[n].held.Keys == TakenBy(tasks, types, n)
  {
    if n == 0 {
      boards := [EmptyBoard];
    } else {
      var front := BuildRun(tasks, types, n - 1);
      boards := RunOneMore(tasks, types, front, n - 1);
    }
  }

  lemma RunOneMore(tasks: seq<GroupTask>, types: Instances, front: seq<Board>, n: nat) returns (boards: seq<Board>)
    requires n < |tasks| && Supplied(tasks, types, n)
    requires IsRun(tasks[..n], types, front) && Valid(front[n]) && front[n].held.Keys == TakenBy(tasks, types, n)
    ensures IsRun(tasks[..n + 1], types, boards)
    ensures Valid(boards[n + 1]) && boards[n + 1].held.Keys == TakenBy(tasks, types, n + 1)
  {
    SuppliedIsFree(front[n], tasks, types, n);
    var last := Advance(front[n], tasks[n], types);
    StepTakes(front[n], tasks[n], types, last);
    RunExtends(tasks[..n], types, front, tasks[n], last);
    boards := front + [last];
    assert tasks[..n + 1] == tasks[..n] + [tasks[n]];
  }

  lemma RunExtends(tasks: seq<GroupTask>, types: Instances, boards: seq<Board>, t: GroupTask, b: Board)
    requires IsRun(tasks, types, boards) && StepsTo(boards[|tasks|], t, types, b)
    ensures IsRun(tasks + [t], types, boards + [b])
  {
    var more, all := tasks + [t], boards + [b];
    forall i | 0 <= i < |more| ensures StepAt(more, types, all, i) {
      if i < |tasks| { assert StepAt(tasks, types, boards, i); }
    }
  }

  // ----- who runs where

  /** The orders a run gives. */
  ghost function Orders(tasks: seq<GroupTask>, types: Instances, boards: seq<Board>): (r: seq<nat>)
    requires IsRun(tasks, types, boards)
    ensures |r| == |tasks| && forall i: nat :: i < |tasks| ==> r[i] == Given(tasks, types, boards, i)
  {
    seq(|tasks|, i requires 0 <= i < |tasks| => Given(tasks, types, boards, i))
  }

  /** Task `i` is one of the first `n` and got order `k`. */
  predicate PlacedAt(orders: seq<nat>, n: nat, k: nat, i: int) { 0 <= i < n <= |orders| && orders[i] == k }

  /** The agents and tasks recorded at order `k` are exactly those of the first `n` tasks placed there. */
  ghost predicate Knows(
    agents: set<string>, there: seq<GroupTask>, tasks: seq<GroupTask>, orders: seq<nat>, n: nat, k: nat)
    requires |orders| == |tasks|
  {
    && (forall a :: a in agents <==> exists i :: PlacedAt(orders, n, k, i) && tasks[i].agent == a)
    && (forall x :: x in there <==> exists i :: PlacedAt(orders, n, k, i) && tasks[i] == x)
  }

  /** What one placement does to the record of order `k`. */
  ghost predicate Records(
    agents: set<string>, there: seq<GroupTask>, t: GroupTask, here: bool, agents': set<string>, there': seq<GroupTask>)
  {
    if here then agents' == agents + {t.agent} && there' == there + [t] else agents' == agents && there' == there
  }

  lemma KnowsOneMore(
    agents: set<string>, there: seq<GroupTask>, tasks: seq<GroupTask>, orders: seq<nat>, n: nat, k: nat,
    agents': set<string>, there': seq<GroupTask>)
    requires |orders| == |tasks| && n < |tasks| && Knows(agents, there, tasks, orders, n, k)
    requires Records(agents, there, tasks[n], orders[n] == k, agents', there')
    ensures Knows(agents', there', tasks, orders, n + 1, k)
  {
    assert forall i :: PlacedAt(orders, n, k, i) ==> PlacedAt(orders, n + 1, k, i);
    assert forall i :: PlacedAt(orders, n + 1, k, i) ==> PlacedAt(orders, n, k, i) || i == n;
    if orders[n] == k { assert PlacedAt(orders, n + 1, k, n); }
  }

  lemma {:induction false} KnowsAll(
    agents: seq<set<string>>, there: seq<seq<GroupTask>>, tasks: seq<GroupTask>, orders: seq<nat>, k: nat, n: nat)
    requires |agents| == |there| == |tasks| + 1 && |orders| == |tasks| && n <= |tasks|
    requires agents[0] == {} && there[0] == []
    requires forall i :: 0 <= i < |tasks| ==>
               Records(agents[i], there[i], tasks[i], orders[i] == k, agents[i + 1], there[i + 1])
    ensures Knows(agents[n], there[n], tasks, orders, n, k)
  {
    if n > 0 {
      KnowsAll(agents, there, tasks, orders, k, n - 1);
      KnowsOneMore(agents[n - 1], there[n - 1], tasks, orders, n - 1, k, agents[n], there[n]);
    }
  }

  /** A board knows exactly the agents and tasks placed so far. */
  lemma BoardKnows(tasks: seq<GroupTask>, types: Instances, boards: seq<Board>, n: nat, k: nat)
    requires IsRun(tasks, types, boards) && n <= |tasks|
    ensures Knows(At(boards[n].agents, k), TasksAt(boards[n], k), tasks, Orders(tasks, types, boards), n, k)
  {
    var orders := Orders(tasks, types, boards);
    var agents := seq(|boards|, i requires 0 <= i < |boards| => At(boards[i].agents, k));
    var there := seq(|boards|, i requires 0 <= i < |boards| => TasksAt(boards[i], k));
    forall i | 0 <= i < |tasks|
      ensures Records(agents[i], there[i], tasks[i], orders[i] == k, agents[i + 1], there[i + 1])
    {
      assert StepAt(tasks, types, boards, i);
      StepAdds(boards[i], tasks[i], types, boards[i + 1], k);
    }
    KnowsAll(agents, there, tasks, orders, k, n);
  }

  lemma StepAdds(b: Board, t: GroupTask, types: Instances, b': Board, k: nat)
    requires StepsTo(b, t, types, b')
    ensures Records(
              At(b.agents, k), TasksAt(b, k), t, OrderOf(b, t, types) == k, At(b'.agents, k), TasksAt(b', k))
  {
  }

  /** The `during` search starts at `from` and stops at `d`. */
  ghost predicate DuringStops(b: Board, t: GroupTask, from: nat, d: nat) {
    from <= d && !DuringClash(b, t, d) && forall x: nat :: from <= x < d ==> DuringClash(b, t, x)
  }

  /**
   The placement would book the agent twice: the first order free for the agent clashes with a `during` state, and the
   search that gets around the clash stops at a later order that already has the agent.
   */
  ghost predicate DoubleBooks(b: Board, t: GroupTask, types: Instances)
    requires Valid(b) && TypesFree(b, t, types)
  {
    var free := AgentOrder(b, t, ResourceOrder(b, t, types));
    DuringClash(b, t, free) && exists d: nat :: DuringStops(b, t, free, d) && t.agent in At(b.agents, d)
  }

  lemma DoubleBookedIff(b: Board, t: GroupTask, types: Instances)
    requires Valid(b) && TypesFree(b, t, types)
    ensures t.agent in At(b.agents, OrderOf(b, t, types)) <==> DoubleBooks(b, t, types)
  {
    var free := AgentOrder(b, t, ResourceOrder(b, t, types));
    var clash, taken := (x: nat) => DuringClash(b, t, x), (x: nat) => t.agent in At(b.agents, x);
    var o := OrderOf(b, t, types);
    assert !clash(o) && forall x: nat :: free <= x < o ==> clash(x);
    assert !taken(free);
    forall x: nat | free <= x < o ensures DuringClash(b, t, x) { assert clash(x); }
    assert DuringStops(b, t, free, o);
    forall d: nat | DuringStops(b, t, free, d) ensures d == o {
      assert !clash(d) && forall x: nat :: free <= x < d ==> clash(x);
      FirstFreeIs(clash, free, b.top, d);
    }
    if t.agent in At(b.agents, o) { assert clash(free); }
  }

  /** Some earlier task of the same agent has the same order. */
  ghost predicate SharesOrder(tasks: seq<GroupTask>, orders: seq<nat>, j: nat)
    requires |orders| == |tasks| && j < |tasks|
  {
    exists i :: PlacedAt(orders, j, orders[j], i) && tasks[i].agent == tasks[j].agent
  }

  /** Over every run: task `j` shares its order with an earlier task of its agent if and only if it double-books. */
  lemma SharedOrderIff(tasks: seq<GroupTask>, types: Instances, boards: seq<Board>, j: nat)
    requires IsRun(tasks, types, boards) && j < |tasks|
    ensures Valid(boards[j]) && TypesFree(boards[j], tasks[j], types)
    ensures SharesOrder(tasks, Orders(tasks, types, boards), j) <==> DoubleBooks(boards[j], tasks[j], types)
  {
    var orders := Orders(tasks, types, boards);
    assert StepAt(tasks, types, boards, j);
    BoardKnows(tasks, types, boards, j, orders[j]);
    DoubleBookedIff(boards[j], tasks[j], types);
  }

  /**
   Two tasks of one order never disturb each other: whatever one holds while it runs, the other does not set to
   something else.
   */
  lemma GroupsDoNotDisturb(
    tasks: seq<GroupTask>, types: Instances, boards: seq<Board>, x: nat, y: nat, i: nat, j: nat)
    requires IsRun(tasks, types, boards) && x < |tasks| && y < |tasks| && x != y
    requires Given(tasks, types, boards, x) == Given(tasks, types, boards, y)
    requires i < |tasks[x].during| && j < |tasks[y].results|
    requires tasks[x].during[i].variable == tasks[y].results[j].variable
    ensures tasks[x].during[i].value == tasks[y].results[j].value
  {
    var first, second := if x < y then x else y, if x < y then y else x;
    NoDuringConflict(tasks, types, boards, first, second);
    assert !EffectsClash(tasks[x].during, tasks[y].results);
  }

  lemma NoDuringConflict(tasks: seq<GroupTask>, types: Instances, boards: seq<Board>, x: nat, y: nat)
    requires IsRun(tasks, types, boards) && x < y < |tasks|
    requires Given(tasks, types, boards, x) == Given(tasks, types, boards, y)
    ensures !DuringConflict(tasks[y], tasks[x])
  {
    var orders := Orders(tasks, types, boards);
    assert StepAt(tasks, types, boards, y);
    BoardKnows(tasks, types, boards, y, orders[y]);
    assert PlacedAt(orders, y, orders[y], x);
    var clash := (k: nat) => DuringClash(boards[y], tasks[y], k);
    var o, there := OrderOf(boards[y], tasks[y], types), TasksAt(boards[y], orders[y]);
    assert !clash(o) && o == orders[y];
    assert tasks[x] in there;
    var i :| 0 <= i < |there| && there[i] == tasks[x];
  }

  /** `during` states clash only between tasks of one agent. */
  predicate ClashesAreDomestic(tasks: seq<GroupTask>) {
    forall x, y :: 0 <= x < y < |tasks| && tasks[x].agent != tasks[y].agent ==> !DuringConflict(tasks[y], tasks[x])
  }

  /** A plan without `during` clashes between agents never gives two tasks of one agent the same order. */
  lemma DomesticClashesNeverDoubleBook(
    tasks: seq<GroupTask>, types: Instances, boards: seq<Board>, i: nat, j: nat)
    requires IsRun(tasks, types, boards) && i < j < |tasks| && tasks[i].agent == tasks[j].agent
    requires ClashesAreDomestic(tasks)
    ensures Given(tasks, types, boards, i) != Given(tasks, types, boards, j)
  {
    var orders := Orders(tasks, types, boards);
    SharedOrderIff(tasks, types, boards, j);
    var free := AgentOrder(boards[j], tasks[j], ResourceOrder(boards[j], tasks[j], types));
    BoardKnows(tasks, types, boards, j, free);
    NoDomesticClash(boards[j], tasks, orders, j, free);
    assert PlacedAt(orders, j, orders[j], i) <==> orders[i] == orders[j];
  }

  lemma NoDomesticClash(b: Board, tasks: seq<GroupTask>, orders: seq<nat>, j: nat, k: nat)
    requires |orders| == |tasks| && j < |tasks| && ClashesAreDomestic(tasks)
    requires Knows(At(b.agents, k), TasksAt(b, k), tasks, orders, j, k) && tasks[j].agent !in At(b.agents, k)
    ensures !DuringClash(b, tasks[j], k)
  {
    forall n | 0 <= n < |TasksAt(b, k)| ensures !DuringConflict(tasks[j], TasksAt(b, k)[n]) {
      assert TasksAt(b, k)[n] in TasksAt(b, k);
      var x :| PlacedAt(orders, j, k, x) && tasks[x] == TasksAt(b, k)[n];
    }
  }

  lemma TakeOne(held: map<string, nat>, key: string, k: nat)
    ensures Take(held, {}, [InstanceRef(key)], map[], k) == (held[key := k], {key})
  {
    var refs := [InstanceRef(key)];
    assert refs[..0] == [] && Take(held, {}, refs[..0], map[], k) == (held, {});
    assert {} + {key} == {key};
  }

  const Mill := GroupTask("A", [InstanceRef("cnc")], [PlanningEffect("door", "open")], [])
  const Unload := GroupTask("B", [InstanceRef("cnc")], [], [])
  const Shut := GroupTask("B", [], [], [PlanningEffect("door", "shut")])

  lemma FirstTwoPlacements() returns (b1: Board, b2: Board)
    ensures StepsTo(EmptyBoard, Mill, map[], b1) && StepsTo(b1, Unload, map[], b2)
    ensures OrderOf(b1, Unload, map[]) == 1
    ensures b2.top == 2 && TasksAt(b2, 0) == [Mill] && TasksAt(b2, 1) == [Unload] && "B" !in At(b2.agents, 0)
  {
    TakeOne(map[], "cnc", 0);
    b1 := Advance(EmptyBoard, Mill, map[]);
    assert [] + [Mill] == [Mill] && [] + [Unload] == [Unload];
    assert b1.held == map["cnc" := 0] && b1.top == 1 && b1.tasks == map[0 := [Mill]];
    assert Start(b1, Unload.refs) == 1 by { assert Unload.refs[..0] == []; }
    OrderBounds(b1, Unload, map[]);
    b2 := Advance(b1, Unload, map[]);
  }

  lemma ShutSkipsMill(b: Board)
    requires Valid(b) && TasksAt(b, 0) == [Mill] && TasksAt(b, 1) == [Unload] && "B" !in At(b.agents, 0)
    ensures OrderOf(b, Shut, map[]) == 1
  {
    assert Shut.results[0].variable == Mill.during[0].variable;
    assert DuringConflict(Shut, TasksAt(b, 0)[0]);
    assert !DuringConflict(Shut, Unload);
    FirstFreeIs((k: nat) => ResourceClash(b, Shut, map[], k), 0, b.top, 0);
    FirstFreeIs((x: nat) => Shut.agent in At(b.agents, x), 0, b.top, 0);
    FirstFreeIs((x: nat) => DuringClash(b, Shut, x), 0, b.top, 1);
  }

  /**
   The search around `during` states does not look at agents again, so a group may get two tasks of one agent:
   the third task avoids the first one's group and joins the second one's.
   */
  lemma AgentCanBeDoubleBooked() returns (tasks: seq<GroupTask>, boards: seq<Board>)
    ensures IsRun(tasks, map[], boards) && |tasks| == 3
    ensures tasks[1].agent == tasks[2].agent
    ensures Given(tasks, map[], boards, 1) == Given(tasks, map[], boards, 2)
  {
    var b1, b2 := FirstTwoPlacements();
    StepFacts(b1, Unload, map[], b2);
    ShutSkipsMill(b2);
    var b3 := ThirdPlacement(b1, b2);
    tasks, boards := [Mill, Unload, Shut], [EmptyBoard, b1, b2, b3];
    assert boards[1] == b1 && boards[2] == b2 && tasks[1] == Unload && tasks[2] == Shut;
  }

  lemma ThirdPlacement(b1: Board, b2: Board) returns (b3: Board)
    requires StepsTo(EmptyBoard, Mill, map[], b1) && StepsTo(b1, Unload, map[], b2) && Valid(b2)
    ensures IsRun([Mill, Unload, Shut], map[], [EmptyBoard, b1, b2, b3])
  {
    RunOfOne(Mill, b1);
    RunOfTwo(Mill, Unload, b1, b2);
    b3 := Advance(b2, Shut, map[]);
    RunOfThree(Mill, Unload, Shut, b1, b2, b3);
  }

  lemma RunOfOne(t: GroupTask, b: Board)
    requires StepsTo(EmptyBoard, t, map[], b)
    ensures IsRun([t], map[], [EmptyBoard, b])
  {
    assert StepAt([t], map[], [EmptyBoard, b], 0);
  }

  lemma RunOfTwo(t0: GroupTask, t1: GroupTask, b1: Board, b2: Board)
    requires IsRun([t0], map[], [EmptyBoard, b1]) && StepsTo(b1, t1, map[], b2)
    ensures IsRun([t0, t1], map[], [EmptyBoard, b1, b2])
  {
    RunExtends([t0], map[], [EmptyBoard, b1], t1, b2);
    assert [t0] + [t1] == [t0, t1] && [EmptyBoard, b1] + [b2] == [EmptyBoard, b1, b2];
  }

  lemma RunOfThree(t0: GroupTask, t1: GroupTask, t2: GroupTask, b1: Board, b2: Board, b3: Board)
    requires IsRun([t0, t1], map[], [EmptyBoard, b1, b2]) && StepsTo(b2, t2, map[], b3)
    ensures IsRun([t0, t1, t2], map[], [EmptyBoard, b1, b2, b3])
  {
    RunExtends([t0, t1], map[], [EmptyBoard, b1, b2], t2, b3);
    assert [t0, t1] + [t2] == [t0, t1, t2] && [EmptyBoard, b1, b2] + [b3] == [EmptyBoard, b1, b2, b3];
  }

  /** computeParallelGroups, on the lists for which its searches end. */
  method ComputeParallelGroups(tasks: seq<GroupTask>, types: Instances, orders: array<nat>)
    returns (ghost boards: seq<Board>)
    requires orders.Length == |tasks| && AllSupplied(tasks, types)
    modifies orders
    ensures IsRun(tasks, types, boards) && orders[..] == Orders(tasks, types, boards)
  {
    EndsIffSupplied(tasks, types);
    boards :| IsRun(tasks, types, boards);
    var b := EmptyBoard;
    var i := 0;
    while i < |tasks|
      invariant 0 <= i <= |tasks|
      invariant b == boards[i]
      invariant forall k :: 0 <= k < i ==> orders[k] == Given(tasks, types, boards, k)
    {
      assert StepAt(tasks, types, boards, i);
      var order := FindOrder(b, tasks[i], types);
      orders[i] := order;
      b := Place(b, tasks[i], types, order);
      i := i + 1;
    }
  }

  /** The order for one task: three searches that try order after order. */
  method FindOrder(b: Board, t: GroupTask, types: Instances) returns (order: nat)
    requires Valid(b) && TypesFree(b, t, types)
    ensures order == OrderOf(b, t, types)
  {
    order := SearchResources(b, t, types);
    order := SearchAgent(b, t, order);
    order := SearchDuring(b, t, order);
  }

  method FindStart(b: Board, refs: seq<ResourceRef>) returns (order: nat)
    ensures order == Start(b, refs)
  {
    order := 0;
    var j := 0;
    while j < |refs|
      invariant 0 <= j <= |refs|
      invariant order == Start(b, refs[..j])
    {
      assert refs[..j + 1][..j] == refs[..j];
      var r := refs[j];
      if r.InstanceRef? && r.key in b.held && b.held[r.key] + 1 > order { order := b.held[r.key] + 1; }
      j := j + 1;
    }
    assert refs[..j] == refs;
  }

  method SearchResources(b: Board, t: GroupTask, types: Instances) returns (order: nat)
    requires Valid(b) && TypesFree(b, t, types)
    ensures order == ResourceOrder(b, t, types)
  {
    order := FindStart(b, t.refs);
    ghost var clash := (k: nat) => ResourceClash(b, t, types, k);
    while ResourceClash(b, t, types, order)
      invariant Start(b, t.refs) <= order <= ResourceOrder(b, t, types)
      invariant forall x: nat :: Start(b, t.refs) <= x < order ==> clash(x)
      decreases ResourceOrder(b, t, types) - order
    {
      assert clash(order);
      order := order + 1;
    }
    FirstFreeIs(clash, Start(b, t.refs), b.top, order);
  }

  method SearchAgent(b: Board, t: GroupTask, from: nat) returns (order: nat)
    requires Valid(b)
    ensures order == AgentOrder(b, t, from)
  {
    order := from;
    ghost var clash := (x: nat) => t.agent in At(b.agents, x);
    while t.agent in At(b.agents, order)
      invariant from <= order <= AgentOrder(b, t, from)
      invariant forall x: nat :: from <= x < order ==> clash(x)
      decreases AgentOrder(b, t, from) - order
    {
      assert clash(order);
      order := order + 1;
    }
    FirstFreeIs(clash, from, b.top, order);
  }

  method SearchDuring(b: Board, t: GroupTask, from: nat) returns (order: nat)
    requires Valid(b)
    ensures order == DuringOrder(b, t, from)
  {
    order := from;
    ghost var clash := (x: nat) => DuringClash(b, t, x);
    while DuringClash(b, t, order)
      invariant from <= order <= DuringOrder(b, t, from)
      invariant forall x: nat :: from <= x < order ==> clash(x)
      decreases DuringOrder(b, t, from) - order
    {
      assert clash(order);
      order := order + 1;
    }
    FirstFreeIs(clash, from, b.top, order);
  }
}
