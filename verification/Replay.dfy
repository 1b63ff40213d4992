/** The session's replay of a finished execution from its snapshot. */
module Replay {
  import opened Text
  import opened Planning
  import opened Effects
  import opened Outcomes

  /** The ended steps of a snapshot by trimmed task id; a later entry overrides an earlier one. */
  function Recorded(snaps: seq<StepSnapshot>): map<string, StepSnapshot> {
    if snaps == [] then map[]
    else
      var s := snaps[|snaps| - 1];
      var r := Recorded(snaps[..|snaps| - 1]);
      if IsBlank(s.taskID) || !HasEnded(s.status) then r else r[TrimSpace(s.taskID) := s]
  }

  function StepWrites(a: TaskAssignment, recorded: map<string, StepSnapshot>): State {
    var id := TrimSpace(a.taskID);
    if id in recorded then Writes(ReplayEffects(a, recorded[id].status, recorded[id].error), true) else map[]
  }

  /** What each assignment of a plan writes when replayed against the recorded steps. */
  function WritesByStep(plan: seq<TaskAssignment>, recorded: map<string, StepSnapshot>): (ws: seq<State>)
    ensures |ws| == |plan|
  {
    seq(|plan|, i requires 0 <= i < |plan| => StepWrites(plan[i], recorded))
  }

  function ReplayWrites(plan: seq<TaskAssignment>, recorded: map<string, StepSnapshot>): State {
    Accumulate(WritesByStep(plan, recorded))
  }

  /** applyRealtimeExecutionEffects: index the snapshot, then walk the plan's assignments. */
  method ApplyExecutionEffects(state: State, plan: seq<TaskAssignment>, snaps: seq<StepSnapshot>)
    returns (updated: State)
    ensures updated == state + ReplayWrites(plan, Recorded(snaps))
  {
    var byTask := IndexSteps(snaps);
    ghost var ws := WritesByStep(plan, byTask);
    updated := state;
    var i := 0;
    while i < |plan|
      invariant 0 <= i <= |plan|
      invariant updated == state + Accumulate(ws[..i])
    {
      AccumulateStep(ws, i);
      MergeAssociates(state, Accumulate(ws[..i]), ws[i]);
      updated := ReplayStep(updated, plan[i], byTask);
      i := i + 1;
    }
    assert ws[..i] == ws;
  }

  method IndexSteps(snaps: seq<StepSnapshot>) returns (byTask: map<string, StepSnapshot>)
    ensures byTask == Recorded(snaps)
  {
    byTask := map[];
    var i := 0;
    while i < |snaps|
      invariant 0 <= i <= |snaps|
      invariant byTask == Recorded(snaps[..i])
    {
      assert snaps[..i + 1][..i] == snaps[..i];
      if !IsBlank(snaps[i].taskID) && HasEnded(snaps[i].status) {
        byTask := byTask[TrimSpace(snaps[i].taskID) := snaps[i]];
      }
      i := i + 1;
    }
    assert snaps[..i] == snaps;
  }

  method ReplayStep(state: State, a: TaskAssignment, byTask: map<string, StepSnapshot>) returns (updated: State)
    ensures updated == state + StepWrites(a, byTask)
    ensures if TrimSpace(a.taskID) !in byTask then updated == state
            else Replays(a, byTask[TrimSpace(a.taskID)].status, byTask[TrimSpace(a.taskID)].error, state, updated)
  {
    updated := state;
    var id := TrimSpace(a.taskID);
    if id in byTask {
      ReplayLeaves(a, byTask[id].status, byTask[id].error, state);
      var effects := ReplayEffects(a, byTask[id].status, byTask[id].error);
      updated := WriteEffects(updated, effects);
    }
  }

  method WriteEffects(state: State, effects: seq<PlanningEffect>) returns (updated: State)
    ensures updated == state + Writes(effects, true)
  {
    updated := state;
    var i := 0;
    while i < |effects|
      invariant 0 <= i <= |effects|
      invariant updated == state + Writes(effects[..i], true)
    {
      WritesStep(effects, i, true);
      var key := TrimSpace(effects[i].variable);
      if key != "" {
        MergeUpdate(state, Writes(effects[..i], true), key, effects[i].value);
        updated := updated[key := effects[i].value];
      }
      i := i + 1;
    }
    assert effects[..i] == effects;
  }

  predicate DistinctIds(snaps: seq<StepSnapshot>) {
    forall i, j :: 0 <= i < j < |snaps| ==> TrimSpace(snaps[i].taskID) != TrimSpace(snaps[j].taskID)
  }

  lemma {:induction false} RecordedFrom(snaps: seq<StepSnapshot>, k: string) returns (i: nat)
    requires k in Recorded(snaps)
    ensures i < |snaps| && Recorded(snaps)[k] == snaps[i]
    ensures k != "" && TrimSpace(snaps[i].taskID) == k && HasEnded(snaps[i].status)
  {
    var s := snaps[|snaps| - 1];
    if !IsBlank(s.taskID) && HasEnded(s.status) && TrimSpace(s.taskID) == k {
      i := |snaps| - 1;
    } else {
      i := RecordedFrom(snaps[..|snaps| - 1], k);
    }
  }

  lemma {:induction false} RecordedAt(snaps: seq<StepSnapshot>, i: nat)
    requires DistinctIds(snaps) && i < |snaps|
    requires !IsBlank(snaps[i].taskID) && HasEnded(snaps[i].status)
    ensures TrimSpace(snaps[i].taskID) in Recorded(snaps)
    ensures Recorded(snaps)[TrimSpace(snaps[i].taskID)] == snaps[i]
  {
    if i < |snaps| - 1 {
      RecordedAt(snaps[..|snaps| - 1], i);
      assert TrimSpace(snaps[i].taskID) != TrimSpace(snaps[|snaps| - 1].taskID);
    }
  }

  lemma RecordedSubset(a: seq<StepSnapshot>, b: seq<StepSnapshot>, k: string)
    requires DistinctIds(b) && forall s :: s in a ==> s in b
    requires k in Recorded(a)
    ensures k in Recorded(b) && Recorded(b)[k] == Recorded(a)[k]
  {
    var i := RecordedFrom(a, k);
    assert a[i] in b;
    var j :| 0 <= j < |b| && b[j] == a[i];
    RecordedAt(b, j);
  }

  /** With distinct ids the index depends only on which entries the snapshot has, not on their order. */
  lemma RecordedIsOrderFree(a: seq<StepSnapshot>, b: seq<StepSnapshot>)
    requires DistinctIds(a) && DistinctIds(b)
    requires forall s :: s in a <==> s in b
    ensures Recorded(a) == Recorded(b)
  {
    forall k | k in Recorded(a) ensures k in Recorded(b) && Recorded(b)[k] == Recorded(a)[k] {
      RecordedSubset(a, b, k);
    }
    forall k | k in Recorded(b) ensures k in Recorded(a) { RecordedSubset(b, a, k); }
  }
}
