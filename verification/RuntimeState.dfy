/**
 Telemetry overlays and state resets across all sessions of the manager. The values of an overlay are a map object of
 their own, as in the server: two overlays that shared one would see each other's resets.
 */
module RuntimeState {
  import opened Text
  import opened Planning
  import opened Dispatch
  import MergeState
  import Reservation

  // ----- posted values

  /** `n` has one entry for every non-blank key, under its trimmed spelling, with the trimmed value of one such key. */
  ghost predicate Normalizes(values: State, n: State) {
    && (forall key :: key in values && !IsBlank(key) ==> TrimSpace(key) in n)
    && (forall k :: k in n ==> Spelled(values, k, n[k]))
  }

  ghost predicate Spelled(values: State, k: string, v: string) {
    exists key :: key in values && !IsBlank(key) && TrimSpace(key) == k && TrimSpace(values[key]) == v
  }

  /** normalizeRuntimeStateValues, the map iterated in any order. */
  method Normalize(values: State) returns (n: State)
    ensures Normalizes(values, n)
  {
    n := map[];
    var left := values.Keys;
    while left != {}
      invariant left <= values.Keys
      invariant forall key :: key in values && key !in left && !IsBlank(key) ==> TrimSpace(key) in n
      invariant forall k :: k in n ==> Spelled(values, k, n[k])
      decreases left
    {
      var key :| key in left;
      if !IsBlank(key) { n := n[TrimSpace(key) := TrimSpace(values[key])]; }
      left := left - {key};
    }
  }

  /** Keys that trim to one spelling carry one value. */
  ghost predicate Consistent(values: State) {
    forall a, b :: a in values && b in values && !IsBlank(a) && TrimSpace(a) == TrimSpace(b) ==>
      TrimSpace(values[a]) == TrimSpace(values[b])
  }

  /** What the iteration gives when `last` is visited after every other key. */
  ghost function Favouring(values: State, last: string): (n: State)
    requires last in values && !IsBlank(last)
    ensures Normalizes(values, n) && n[TrimSpace(last)] == TrimSpace(values[last])
  {
    map k | k in Spellings(values) ::
      if k == TrimSpace(last) then TrimSpace(values[last])
      else var v :| Spelled(values, k, v); v
  }

  ghost function Spellings(values: State): (ks: set<string>)
    ensures forall key :: key in values && !IsBlank(key) ==> TrimSpace(key) in ks
    ensures forall k :: k in ks ==> exists v :: Spelled(values, k, v)
  {
    var ks := set key | key in values && !IsBlank(key) :: TrimSpace(key);
    assert forall key :: key in values && !IsBlank(key) ==> Spelled(values, TrimSpace(key), TrimSpace(values[key]));
    ks
  }

  /** Posted values have one meaning, whatever the iteration order, if and only if they are consistent. */
  lemma OneMeaningIffConsistent(values: State)
    ensures (forall m, n :: Normalizes(values, m) && Normalizes(values, n) ==> m == n) <==> Consistent(values)
  {
    if Consistent(values) {
      forall m, n | Normalizes(values, m) && Normalizes(values, n) ensures m == n {
        SameMeaning(values, m, n);
        SameMeaning(values, n, m);
      }
    } else {
      var a, b :| a in values && b in values && !IsBlank(a) && TrimSpace(a) == TrimSpace(b)
                  && TrimSpace(values[a]) != TrimSpace(values[b]);
      var m, n := Favouring(values, a), Favouring(values, b);
      assert Normalizes(values, m) && Normalizes(values, n) && m != n;
    }
  }

  lemma SameMeaning(values: State, m: State, n: State)
    requires Consistent(values) && Normalizes(values, m) && Normalizes(values, n)
    ensures forall k :: k in m ==> k in n && n[k] == m[k]
  {
    forall k | k in m ensures k in n && n[k] == m[k] {
      assert Spelled(values, k, m[k]);
      assert Spelled(values, k, n[k]);
    }
  }

  // ----- what a session's state and overlays amount to

  datatype View = View(current: State, sources: map<string, MergeState.Source>)

  function Shrunk(s: MergeState.Source, keys: set<string>): MergeState.Source { s.(values := s.values - keys) }

  /** The overlays without the given keys; an overlay left empty is dropped. */
  function Cleared(sources: map<string, MergeState.Source>, keys: set<string>): map<string, MergeState.Source> {
    map s | s in sources && sources[s].values - keys != map[] :: Shrunk(sources[s], keys)
  }

  /** The same, only in the overlays named so far. */
  function ClearedIn(sources: map<string, MergeState.Source>, keys: set<string>, done: set<string>)
    : map<string, MergeState.Source>
  {
    map s | s in sources && (s !in done || sources[s].values - keys != map[]) ::
      if s in done then Shrunk(sources[s], keys) else sources[s]
  }

  function ClearView(v: View, keys: set<string>, done: set<string>): View {
    v.(sources := ClearedIn(v.sources, keys, done))
  }

  lemma ClearOneMore(v: View, keys: set<string>, done: set<string>, s: string)
    requires s in v.sources && s !in done
    ensures s in ClearView(v, keys, done).sources
    ensures ClearView(ClearView(v, keys, done), keys, {s}) == ClearView(v, keys, done + {s})
  {
    assert ClearedIn(ClearedIn(v.sources, keys, done), keys, {s}) == ClearedIn(v.sources, keys, done + {s});
  }

  lemma ClearOneNow(sources: map<string, MergeState.Source>, keys: set<string>, s: string)
    requires s in sources
    ensures var left := Shrunk(sources[s], keys);
            ClearedIn(sources, keys, {s}) == if left.values == map[] then sources - {s} else sources[s := left]
    ensures sources[s].values == map[] ==> Shrunk(sources[s], keys).values == map[]
    ensures sources[s := Shrunk(sources[s], keys)] - {s} == sources - {s}
  {
  }

  function AfterReset(v: View, n: State, keys: set<string>): View { View(v.current + n, Cleared(v.sources, keys)) }

  function AfterUpsert(v: View, source: string, n: State, expiresAt: Option<int>): View {
    v.(sources := v.sources[source := MergeState.Source(n, expiresAt)])
  }

  ghost function Upserting(source: string, n: State, expiresAt: Option<int>): View -> View {
    (v: View) => AfterUpsert(v, source, n, expiresAt)
  }

  /** The keys a reset takes out of the overlays: those asked for, and those it sets. */
  function ClearKeys(clearLiveKeys: seq<string>, n: State): set<string> {
    (set k | k in clearLiveKeys && !IsBlank(k) :: TrimSpace(k)) + n.Keys
  }

  method CollectClearKeys(clearLiveKeys: seq<string>, n: State) returns (keys: set<string>)
    ensures keys == ClearKeys(clearLiveKeys, n)
  {
    keys := {};
    for i := 0 to |clearLiveKeys|
      invariant keys == set k | k in clearLiveKeys[..i] && !IsBlank(k) :: TrimSpace(k)
    {
      assert clearLiveKeys[..i + 1] == clearLiveKeys[..i] + [clearLiveKeys[i]];
      if !IsBlank(clearLiveKeys[i]) { keys := keys + {TrimSpace(clearLiveKeys[i])}; }
    }
    assert clearLiveKeys[..|clearLiveKeys|] == clearLiveKeys;
    keys := keys + n.Keys;
  }

  /** When an overlay posted now expires; a time to live that is not positive means never. */
  function Expiry(now: int, ttlSec: real): Option<int> {
    if ttlSec > 0.0 then Some(now + (ttlSec * 1_000_000_000.0).Floor) else None
  }

  /** The expiry is now plus the time to live, cut to whole nanoseconds. */
  lemma ExpiryIsLater(now: int, ttlSec: real)
    ensures ttlSec <= 0.0 ==> Expiry(now, ttlSec) == None
    ensures ttlSec > 0.0 ==>
              exists e :: Expiry(now, ttlSec) == Some(e)
                          && (e - now) as real <= ttlSec * 1_000_000_000.0 < (e - now + 1) as real
  {
    if ttlSec > 0.0 { assert Expiry(now, ttlSec) == Some(Expiry(now, ttlSec).value); }
  }

  /** One of the ids, trimmed, is `id`. */
  predicate Includes(ids: seq<string>, id: string) { exists k :: k in ids && TrimSpace(k) == id }

  // ----- sessions

  /** A string map as an object with identity. */
  class Values {
    var entries: State

    constructor (entries: State)
      ensures this.entries == entries
    {
      this.entries := entries;
    }

    method Delete(keys: set<string>) returns (changed: bool)
      modifies this
      ensures entries == old(entries) - keys
      ensures changed <==> old(entries) != entries
    {
      changed := false;
      var left := keys;
      while left != {}
        invariant left <= keys
        invariant entries == old(entries) - (keys - left)
        invariant changed <==> old(entries) != entries
        decreases left
      {
        var k :| k in left;
        if k in entries {
          assert old(entries) - (keys - left) - {k} == old(entries) - (keys - (left - {k}));
          entries, changed := entries - {k}, true;
          assert k in old(entries) && k !in entries;
        }
        left := left - {k};
      }
      assert keys - left == keys;
    }
  }

  datatype Overlay = Overlay(values: Values, updatedAt: int, expiresAt: Option<int>)

  class Session {
    const taskDistributorID: string
    const agentIDs: seq<string>
    var current: State
    var sources: map<string, Overlay>
    var updatedAt: int
    /** What the session amounts to, and the map objects this session alone uses. */
    ghost var shown: View
    ghost var owned: set<Values>

    /** No two overlays share their map object, and `shown` tells what is in them. */
    ghost predicate Valid()
      reads this, owned
    {
      && (forall s :: s in sources ==> sources[s].values in owned)
      && (forall s, t :: s in sources && t in sources && s != t ==> sources[s].values != sources[t].values)
      && shown.current == current && shown.sources.Keys == sources.Keys
      && (forall s :: s in sources ==> Shows(s))
    }

    ghost predicate Shows(s: string)
      requires s in sources && s in shown.sources
      reads this, sources[s].values
    {
      shown.sources[s].values == sources[s].values.entries && shown.sources[s].expiresAt == sources[s].expiresAt
    }

    constructor (taskDistributorID: string, agentIDs: seq<string>, current: State, now: int)
      ensures Valid() && owned == {} && shown == View(current, map[])
      ensures this.taskDistributorID == taskDistributorID && this.agentIDs == agentIDs
    {
      this.taskDistributorID, this.agentIDs, this.current := taskDistributorID, agentIDs, current;
      sources, updatedAt, shown, owned := map[], now, View(current, map[]), {};
    }

    predicate HasAgent(agentID: string)
      ensures HasAgent(agentID) <==> Includes(agentIDs, agentID)
    {
      exists i :: 0 <= i < |agentIDs| && TrimSpace(agentIDs[i]) == agentID
    }

    /** Installs an overlay under a copy of the values that no one else has. */
    method Put(source: string, n: State, now: int, expiresAt: Option<int>)
      requires Valid()
      modifies this
      ensures Valid() && shown == AfterUpsert(old(shown), source, n, expiresAt)
      ensures fresh(owned - old(owned)) && updatedAt == now && sources[source].updatedAt == now
    {
      var clone := new Values(n);
      sources := sources[source := Overlay(clone, now, expiresAt)];
      updatedAt := now;
      owned, shown := owned + {clone}, AfterUpsert(shown, source, n, expiresAt);
    }

    method Remove(source: string)
      requires Valid()
      modifies this`sources, this`shown
      ensures Valid() && shown == old(shown).(sources := old(shown).sources - {source})
    {
      sources, shown := sources - {source}, shown.(sources := shown.sources - {source});
    }

    /** Takes the keys out of one overlay's own map object. */
    method Shrink(source: string, keys: set<string>) returns (changed: bool)
      requires Valid() && source in sources
      modifies this`shown, owned
      ensures Valid()
      ensures shown == old(shown).(sources :=
                         old(shown).sources[source := Shrunk(old(shown).sources[source], keys)])
    {
      assert Shows(source);
      changed := sources[source].values.Delete(keys);
      shown := shown.(sources := shown.sources[source := Shrunk(shown.sources[source], keys)]);
    }

    /** Drops an overlay with nothing left in it, and stamps one that changed. */
    method DropOrStamp(source: string, changed: bool, now: int)
      requires Valid() && source in sources
      modifies this`sources, this`shown
      ensures Valid()
      ensures shown == if old(shown).sources[source].values == map[]
                       then old(shown).(sources := old(shown).sources - {source}) else old(shown)
      ensures source in sources ==>
                sources[source].updatedAt == if changed then now else old(sources)[source].updatedAt
    {
      assert Shows(source);
      if sources[source].values.entries == map[] {
        Remove(source);
      } else if changed {
        sources := sources[source := sources[source].(updatedAt := now)];
      }
    }

    /** Takes the keys out of one overlay and drops the overlay when nothing is left. */
    method ClearSource(source: string, keys: set<string>, now: int)
      requires Valid() && source in sources
      modifies this`sources, this`shown, owned
      ensures Valid() && shown == ClearView(old(shown), keys, {source})
    {
      ClearOneNow(shown.sources, keys, source);
      assert Shows(source);
      if sources[source].values.entries == map[] {
        Remove(source);
      } else {
        var changed := Shrink(source, keys);
        DropOrStamp(source, changed, now);
      }
    }

    method ClearSources(keys: set<string>, now: int)
      requires Valid()
      modifies this`sources, this`shown, owned
      ensures Valid() && shown == old(shown).(sources := Cleared(old(shown).sources, keys))
    {
      ghost var was := shown;
      ghost var done := {};
      var left := sources.Keys;
      while left != {}
        invariant Valid() && left !! done && left + done == was.sources.Keys && shown == ClearView(was, keys, done)
        decreases left
      {
        var s :| s in left;
        ClearOneMore(was, keys, done, s);
        ClearSource(s, keys, now);
        left, done := left - {s}, done + {s};
      }
      assert ClearedIn(was.sources, keys, done) == Cleared(was.sources, keys);
    }

    /** The reset of one session: new planner values, and their keys out of every overlay. */
    method Reset(n: State, keys: set<string>, now: int)
      requires Valid()
      modifies this, owned
      ensures Valid() && owned == old(owned) && updatedAt == now
      ensures shown == AfterReset(old(shown), n, keys)
    {
      current := current + n;
      shown := shown.(current := current);
      ClearSources(keys, now);
      updatedAt := now;
    }
  }

  // ----- the manager

  datatype ResetResult = Done | NotFound | ValuesRequired

  class Manager {
    var sessions: map<string, Session>
    ghost var owned: set<Values>

    /** Every session has its own record and its own map objects. */
    ghost predicate Valid()
      reads this, sessions.Values, owned
    {
      && (forall i, j :: i in sessions && j in sessions && i != j ==> sessions[i] != sessions[j])
      && (forall s :: s in sessions.Values ==> s.owned <= owned && s.Valid())
      && (forall s, t :: s in sessions.Values && t in sessions.Values && s != t ==> s.owned !! t.owned)
    }

    constructor ()
      ensures Valid() && sessions == map[]
    {
      sessions, owned := map[], {};
    }

    /** A session starts with no overlay. */
    method Start(id: string, taskDistributorID: string, agentIDs: seq<string>, current: State, now: int)
      requires Valid()
      modifies this
      ensures Valid() && id in sessions && sessions == old(sessions)[id := sessions[id]]
      ensures fresh(sessions[id]) && sessions[id].shown == View(current, map[])
      ensures sessions[id].taskDistributorID == taskDistributorID && sessions[id].agentIDs == agentIDs
    {
      var s := new Session(taskDistributorID, agentIDs, current, now);
      sessions := sessions[id := s];
      assert forall x :: x in sessions.Values ==> x == s || x in old(sessions).Values;
    }

    /** Resets one session; every other is left as it was. */
    method ResetOne(id: string, n: State, keys: set<string>, now: int)
      requires Valid() && id in sessions
      modifies sessions[id], sessions[id].owned
      ensures Valid() && sessions[id].shown == AfterReset(old(sessions[id].shown), n, keys)
      ensures forall i :: i in sessions && i != id ==> sessions[i].shown == old(sessions[i].shown)
    {
      sessions[id].Reset(n, keys, now);
    }

    /**
     ResetSessionState: the session's state and overlays become those of a reset with some normal form of the values;
     every other session is left as it was.
     */
    method ResetSessionState(id: string, values: State, clearLiveKeys: seq<string>, now: int)
      returns (r: ResetResult, ghost n: State)
      requires Valid()
      modifies sessions.Values, owned
      ensures Valid() && Normalizes(values, n)
      ensures r == if TrimSpace(id) !in sessions then NotFound else if n == map[] then ValuesRequired else Done
      ensures r == Done ==> sessions[TrimSpace(id)].shown
                            == AfterReset(old(sessions[TrimSpace(id)].shown), n, ClearKeys(clearLiveKeys, n))
      ensures forall i :: i in sessions && (i != TrimSpace(id) || r != Done) ==>
                sessions[i].shown == old(sessions[i].shown)
    {
      var normal := Normalize(values);
      n := normal;
      if TrimSpace(id) !in sessions { return NotFound, n; }
      if normal == map[] { return ValuesRequired, n; }
      var keys := CollectClearKeys(clearLiveKeys, normal);
      ResetOne(TrimSpace(id), normal, keys, now);
      r := Done;
    }

    /** Gives one session an overlay of its own. */
    method PutOne(s: Session, source: string, n: State, now: int, expiresAt: Option<int>)
      requires Valid() && s in sessions.Values
      modifies this`owned, s
      ensures Valid() && s.shown == Upserting(source, n, expiresAt)(old(s.shown))
    {
      s.Put(source, n, now, expiresAt);
      owned := owned + s.owned;
    }

    lemma OneLess(left: set<Session>, s: Session)
      requires s in left
      ensures 1 + |left - {s}| == |left|
    {
    }

    /** Gives every addressed session an overlay of its own. */
    method PutAll(targets: set<Session>, source: string, n: State, now: int, expiresAt: Option<int>)
      returns (updated: nat)
      requires Valid() && targets <= sessions.Values
      modifies this`owned, targets
      ensures Valid() && updated == |targets|
      ensures forall s :: s in targets ==> s.shown == Upserting(source, n, expiresAt)(old(s.shown))
    {
      ghost var next := Upserting(source, n, expiresAt);
      updated := 0;
      var left := targets;
      while left != {}
        invariant left <= targets && Valid() && updated + |left| == |targets|
        invariant forall s :: s in targets ==> s.shown == if s in left then old(s.shown) else next(old(s.shown))
        decreases left
      {
        var s :| s in left;
        OneLess(left, s);
        updated, left := updated + 1, left - {s};
        PutOne(s, source, n, now, expiresAt);
      }
    }

    /** The sessions an upsert for a distributor addresses. */
    function OfDistributor(taskDistributorID: string): set<Session>
      reads this
    {
      set s | s in sessions.Values && s.taskDistributorID == taskDistributorID
    }

    /** The sessions an upsert for an agent addresses. */
    function OfAgent(agentID: string): (r: set<Session>)
      reads this
      ensures r == set s | s in sessions.Values && Includes(s.agentIDs, agentID)
    {
      set s | s in sessions.Values && s.HasAgent(agentID)
    }

    /** UpsertRuntimeStateByDistributor */
    method UpsertByDistributor(taskDistributorID: string, source: string, values: State, ttlSec: real, now: int)
      returns (updated: nat, ghost n: State)
      requires Valid()
      modifies this`owned, sessions.Values
      ensures Valid() && Normalizes(values, n)
      ensures updated == if IsBlank(taskDistributorID) || n == map[] then 0
                         else |set s | s in sessions.Values && s.taskDistributorID == TrimSpace(taskDistributorID)|
      ensures forall s :: s in sessions.Values ==>
        s.shown ==
          if updated > 0 && s.taskDistributorID == TrimSpace(taskDistributorID)
          then AfterUpsert(old(s.shown), Named(source, "runtime"), n, Expiry(now, ttlSec))
          else old(s.shown)
    {
      var normal := Normalize(values);
      n := normal;
      if IsBlank(taskDistributorID) || normal == map[] { return 0, n; }
      updated := PutAll(OfDistributor(TrimSpace(taskDistributorID)), Named(source, "runtime"), normal, now,
        Expiry(now, ttlSec));
    }

    /** UpsertRuntimeStateByAgent */
    method UpsertByAgent(agentID: string, source: string, values: State, ttlSec: real, now: int)
      returns (updated: nat, ghost n: State)
      requires Valid()
      modifies this`owned, sessions.Values
      ensures Valid() && Normalizes(values, n)
      ensures updated == if IsBlank(agentID) || n == map[] then 0
                         else |set s | s in sessions.Values && Includes(s.agentIDs, TrimSpace(agentID))|
      ensures forall s :: s in sessions.Values ==>
        s.shown ==
          if updated > 0 && Includes(s.agentIDs, TrimSpace(agentID))
          then AfterUpsert(old(s.shown), Named(source, "agent:" + TrimSpace(agentID)), n,
                           Expiry(now, ttlSec))
          else old(s.shown)
    {
      var normal := Normalize(values);
      n := normal;
      if IsBlank(agentID) || normal == map[] { return 0, n; }
      updated := PutAll(OfAgent(TrimSpace(agentID)), Named(source, "agent:" + TrimSpace(agentID)), normal, now,
        Expiry(now, ttlSec));
    }
  }

  // ----- what the next merges read

  /** The planner state holds x under k and no overlay offers another value. */
  ghost predicate Settled(v: View, k: string, x: string) {
    k in v.current && v.current[k] == x && forall s :: s in v.sources ==> k !in v.sources[s].values
  }

  /** A key the reservation clean-up has no business with. */
  predicate Plain(agents: seq<AgentInfo>, resources: seq<ResourceInfo>, current: State, k: string) {
    !Reservation.IsLocationKey(agents, k) && !Reservation.IsReservationKey(resources, current, k)
  }

  /** The overlays of a session listed in some iteration order. */
  ghost predicate DrawnFrom(order: seq<MergeState.Source>, sources: map<string, MergeState.Source>) {
    forall s :: s in order ==> s in sources.Values
  }

  lemma ResetSettles(v: View, n: State, clearLiveKeys: seq<string>, k: string)
    requires k in n
    ensures Settled(AfterReset(v, n, ClearKeys(clearLiveKeys, n)), k, n[k])
  {
  }

  /** A settled key reads its planner value in the merge and after write-back, whatever the policies say. */
  lemma SettledIsRead(
    v: View, order: seq<MergeState.Source>, now: int, live: string -> bool, agents: seq<AgentInfo>,
    resources: seq<ResourceInfo>, k: string, x: string)
    requires Settled(v, k, x) && DrawnFrom(order, v.sources) && Plain(agents, resources, v.current, k)
    ensures var m := MergeState.Merged(v.current, order, now, live, agents, resources); k in m && m[k] == x
    ensures MergeState.Refreshed(v.current, order, now, live, agents, resources)[k] == x
  {
    forall j | 0 <= j < |order| ensures !MergeState.Offers(order[j], now, k) { assert order[j] in v.sources.Values; }
    MergeState.UnofferedKeyIsCurrent(v.current, order, now, live, k);
    Reservation.PlainKeysAreLeftAlone(
      MergeState.MergeAll(v.current, order, now, live), v.current, agents, resources, k);
    assert k in [k];
  }

  /** What may happen to a session between a reset and a later merge. */
  datatype Event =
    | Upsert(source: string, values: State, expiresAt: Option<int>)
    | Clear(sources: set<string>)
    | Reset(values: State, clearLiveKeys: seq<string>)
    | Fold(effects: State)
    | Merge(order: seq<MergeState.Source>, now: int, live: string -> bool)

  function After(v: View, e: Event, agents: seq<AgentInfo>, resources: seq<ResourceInfo>): View {
    match e
    case Upsert(source, values, expiresAt) => AfterUpsert(v, source, values, expiresAt)
    case Clear(sources) => v.(sources := v.sources - sources)
    case Reset(values, clear) => AfterReset(v, values, ClearKeys(clear, values))
    case Fold(effects) => v.(current := v.current + effects)
    case Merge(order, now, live) =>
      View(MergeState.Refreshed(v.current, order, now, live, agents, resources),
           map s | s in v.sources && !MergeState.Expired(v.sources[s], now) :: v.sources[s])
  }

  function AfterAll(v: View, es: seq<Event>, agents: seq<AgentInfo>, resources: seq<ResourceInfo>): View {
    if es == [] then v else After(AfterAll(v, es[..|es| - 1], agents, resources), es[|es| - 1], agents, resources)
  }

  /** The event writes nothing under k. */
  ghost predicate Spares(v: View, e: Event, agents: seq<AgentInfo>, resources: seq<ResourceInfo>, k: string) {
    match e
    case Upsert(_, values, _) => k !in values
    case Clear(_) => true
    case Reset(values, _) => k !in values
    case Fold(effects) => k !in effects
    case Merge(order, _, _) => DrawnFrom(order, v.sources) && Plain(agents, resources, v.current, k)
  }

  ghost predicate AllSpare(v: View, es: seq<Event>, agents: seq<AgentInfo>, resources: seq<ResourceInfo>, k: string) {
    forall i :: 0 <= i < |es| ==> Spares(AfterAll(v, es[..i], agents, resources), es[i], agents, resources, k)
  }

  lemma SettledStays(
    v: View, e: Event, agents: seq<AgentInfo>, resources: seq<ResourceInfo>, k: string, x: string)
    requires Settled(v, k, x) && Spares(v, e, agents, resources, k)
    ensures Settled(After(v, e, agents, resources), k, x)
  {
    if e.Merge? { SettledIsRead(v, e.order, e.now, e.live, agents, resources, k, x); }
  }

  lemma {:induction false} SettledLasts(
    v: View, es: seq<Event>, agents: seq<AgentInfo>, resources: seq<ResourceInfo>, k: string, x: string)
    requires Settled(v, k, x) && AllSpare(v, es, agents, resources, k)
    ensures Settled(AfterAll(v, es, agents, resources), k, x)
  {
    if es != [] {
      var front := es[..|es| - 1];
      forall i | 0 <= i < |front|
        ensures Spares(AfterAll(v, front[..i], agents, resources), front[i], agents, resources, k)
      {
        assert front[..i] == es[..i];
      }
      SettledLasts(v, front, agents, resources, k, x);
      SettledStays(AfterAll(v, front, agents, resources), es[|es| - 1], agents, resources, k, x);
    }
  }

  /**
   Every merge after a reset reads the reset value of a plain key, through any run of telemetry, clears, other resets,
   folded effects and merges that does not write the key itself.
   */
  lemma ResetIsVisible(
    v: View, n: State, clearLiveKeys: seq<string>, es: seq<Event>, order: seq<MergeState.Source>, now: int,
    live: string -> bool, agents: seq<AgentInfo>, resources: seq<ResourceInfo>, k: string)
    requires k in n
    requires var w := AfterReset(v, n, ClearKeys(clearLiveKeys, n));
             && AllSpare(w, es, agents, resources, k)
             && var u := AfterAll(w, es, agents, resources);
                DrawnFrom(order, u.sources) && Plain(agents, resources, u.current, k)
    ensures var u := AfterAll(AfterReset(v, n, ClearKeys(clearLiveKeys, n)), es, agents, resources);
            var m := MergeState.Merged(u.current, order, now, live, agents, resources);
            k in m && m[k] == n[k]
  {
    var w := AfterReset(v, n, ClearKeys(clearLiveKeys, n));
    ResetSettles(v, n, clearLiveKeys, k);
    SettledLasts(w, es, agents, resources, k, n[k]);
    SettledIsRead(AfterAll(w, es, agents, resources), order, now, live, agents, resources, k, n[k]);
  }
}
