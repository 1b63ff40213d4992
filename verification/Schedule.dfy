/**
 Steps of one plan write planning variables when they end. Steps of a lower order end before steps of a higher
 order start; steps of equal order end in any order. The session later replays the same writes in the order the
 plan lists the steps. This module says exactly when every interleaving agrees with that replay.
 */
module Schedule {
  import opened Planning

  datatype Step = Step(order: nat, writes: State)

  predicate InRange(steps: seq<Step>, ended: set<nat>) {
    forall i :: i in ended ==> i < |steps|
  }

  predicate Valid(steps: seq<Step>, log: seq<nat>) {
    forall x :: 0 <= x < |log| ==> log[x] < |steps|
  }

  /** `log` is an order in which exactly the steps `ended` can end under the order barrier. */
  ghost predicate IsSchedule(steps: seq<Step>, ended: set<nat>, log: seq<nat>)
    requires InRange(steps, ended)
  {
    && Valid(steps, log)
    && (forall i :: i in ended <==> i in log)
    && (forall x, y :: 0 <= x < y < |log| ==> log[x] != log[y])
    && (forall x, y :: 0 <= x < y < |log| ==> steps[log[x]].order <= steps[log[y]].order)
  }

  /** The combined writes of the steps of `log`, later ones overriding. */
  function Along(steps: seq<Step>, log: seq<nat>): State
    requires Valid(steps, log)
  {
    if log == [] then map[]
    else Along(steps, log[..|log| - 1]) + steps[log[|log| - 1]].writes
  }

  /** The combined writes of the ended steps among the first `n`, in list order. */
  function Listed(steps: seq<Step>, ended: set<nat>, n: nat): State
    requires n <= |steps|
  {
    if n == 0 then map[]
    else if n - 1 in ended then Listed(steps, ended, n - 1) + steps[n - 1].writes
    else Listed(steps, ended, n - 1)
  }

  predicate Writer(steps: seq<Step>, ended: set<nat>, i: nat, v: string) {
    i < |steps| && i in ended && v in steps[i].writes
  }

  /** `i` writes `v`, and no ended step of a higher order does. */
  predicate TopWriter(steps: seq<Step>, ended: set<nat>, i: nat, v: string) {
    Writer(steps, ended, i, v) &&
    forall k :: 0 <= k < |steps| && Writer(steps, ended, k, v) ==> steps[k].order <= steps[i].order
  }

  /** `i` writes `v`, and no ended step listed later does. */
  predicate FinalWriter(steps: seq<Step>, ended: set<nat>, i: nat, v: string) {
    Writer(steps, ended, i, v) &&
    forall k :: i < k < |steps| ==> !Writer(steps, ended, k, v)
  }

  /**
   Every step that may write a variable last at run time writes the value of the step listed last for it.
   A caller can check this on the plan before anything runs.
   */
  ghost predicate LastWriteIsListedLast(steps: seq<Step>, ended: set<nat>) {
    forall i: nat, j: nat, v :: TopWriter(steps, ended, i, v) && FinalWriter(steps, ended, j, v)
                      ==> steps[i].writes[v] == steps[j].writes[v]
  }

  lemma {:induction false} AlongLastWriter(steps: seq<Step>, log: seq<nat>, v: string)
    requires Valid(steps, log)
    ensures v in Along(steps, log) <==> exists x :: 0 <= x < |log| && v in steps[log[x]].writes
    ensures forall x :: 0 <= x < |log| && v in steps[log[x]].writes
                        && (forall y :: x < y < |log| ==> v !in steps[log[y]].writes)
                        ==> v in Along(steps, log) && Along(steps, log)[v] == steps[log[x]].writes[v]
  {
    if log != [] {
      AlongLastWriter(steps, log[..|log| - 1], v);
    }
  }

  lemma {:induction false} ListedFinalWriter(steps: seq<Step>, ended: set<nat>, n: nat, v: string)
    requires n <= |steps|
    ensures v in Listed(steps, ended, n) <==> exists i :: 0 <= i < n && Writer(steps, ended, i, v)
    ensures forall i :: 0 <= i < n && Writer(steps, ended, i, v)
                        && (forall k :: i < k < n ==> !Writer(steps, ended, k, v))
                        ==> v in Listed(steps, ended, n) && Listed(steps, ended, n)[v] == steps[i].writes[v]
  {
    if n > 0 {
      ListedFinalWriter(steps, ended, n - 1, v);
      if Writer(steps, ended, n - 1, v) {
        assert v in Listed(steps, ended, n);
      }
    }
  }

  lemma {:induction false} LastIndex(steps: seq<Step>, log: seq<nat>, v: string, n: nat) returns (x: nat)
    requires n <= |log|
    requires Valid(steps, log)
    requires exists x :: 0 <= x < n && v in steps[log[x]].writes
    requires forall x :: n <= x < |log| ==> v !in steps[log[x]].writes
    ensures x < |log| && v in steps[log[x]].writes
    ensures forall y :: x < y < |log| ==> v !in steps[log[y]].writes
  {
    if v in steps[log[n - 1]].writes { x := n - 1; } else { x := LastIndex(steps, log, v, n - 1); }
  }

  lemma {:induction false} LastListed(steps: seq<Step>, ended: set<nat>, v: string, n: nat) returns (j: nat)
    requires n <= |steps|
    requires exists i :: 0 <= i < n && Writer(steps, ended, i, v)
    requires forall i :: n <= i < |steps| ==> !Writer(steps, ended, i, v)
    ensures FinalWriter(steps, ended, j, v)
  {
    if Writer(steps, ended, n - 1, v) { j := n - 1; } else { j := LastListed(steps, ended, v, n - 1); }
  }

  /** One schedule and the listing agree when the last writers do. */
  lemma ScheduleMatchesListing(steps: seq<Step>, ended: set<nat>, log: seq<nat>)
    requires InRange(steps, ended)
    requires IsSchedule(steps, ended, log)
    requires LastWriteIsListedLast(steps, ended)
    ensures Along(steps, log) == Listed(steps, ended, |steps|)
  {
    var run, listed := Along(steps, log), Listed(steps, ended, |steps|);
    forall v
      ensures v in run <==> v in listed
      ensures v in run ==> run[v] == listed[v]
    {
      SameAt(steps, ended, log, v);
    }
  }

  lemma LoggedIsEnded(steps: seq<Step>, ended: set<nat>, log: seq<nat>, v: string)
    requires InRange(steps, ended)
    requires IsSchedule(steps, ended, log)
    ensures (exists x :: 0 <= x < |log| && v in steps[log[x]].writes)
            <==> (exists i :: 0 <= i < |steps| && Writer(steps, ended, i, v))
  {
    if x :| 0 <= x < |log| && v in steps[log[x]].writes {
      assert log[x] in log;
      assert Writer(steps, ended, log[x], v);
    }
    if i :| 0 <= i < |steps| && Writer(steps, ended, i, v) {
      assert i in log;
    }
  }

  lemma LastLoggedIsTop(steps: seq<Step>, ended: set<nat>, log: seq<nat>, v: string, last: nat)
    requires InRange(steps, ended)
    requires IsSchedule(steps, ended, log)
    requires last < |log| && v in steps[log[last]].writes
    requires forall y :: last < y < |log| ==> v !in steps[log[y]].writes
    ensures TopWriter(steps, ended, log[last], v)
  {
    assert log[last] in log;
    forall k | 0 <= k < |steps| && Writer(steps, ended, k, v)
      ensures steps[k].order <= steps[log[last]].order
    {
      assert k in log;
      var y :| 0 <= y < |log| && log[y] == k;
    }
  }

  lemma SameAt(steps: seq<Step>, ended: set<nat>, log: seq<nat>, v: string)
    requires InRange(steps, ended)
    requires IsSchedule(steps, ended, log)
    requires LastWriteIsListedLast(steps, ended)
    ensures v in Along(steps, log) <==> v in Listed(steps, ended, |steps|)
    ensures v in Along(steps, log) ==> Along(steps, log)[v] == Listed(steps, ended, |steps|)[v]
  {
    SameDomainAt(steps, ended, log, v);
    if v in Along(steps, log) {
      var last := LastIndex(steps, log, v, |log|);
      var j := LastListed(steps, ended, v, |steps|);
      LastLoggedIsTop(steps, ended, log, v, last);
      ValuesAt(steps, ended, log, v, last, j);
    }
  }

  lemma SameDomainAt(steps: seq<Step>, ended: set<nat>, log: seq<nat>, v: string)
    requires InRange(steps, ended)
    requires IsSchedule(steps, ended, log)
    ensures v in Along(steps, log) <==> v in Listed(steps, ended, |steps|)
    ensures v in Along(steps, log) <==> exists x :: 0 <= x < |log| && v in steps[log[x]].writes
    ensures v in Along(steps, log) <==> exists i :: 0 <= i < |steps| && Writer(steps, ended, i, v)
  {
    AlongLastWriter(steps, log, v);
    ListedFinalWriter(steps, ended, |steps|, v);
    LoggedIsEnded(steps, ended, log, v);
  }

  lemma ValuesAt(steps: seq<Step>, ended: set<nat>, log: seq<nat>, v: string, last: nat, j: nat)
    requires Valid(steps, log)
    requires last < |log| && v in steps[log[last]].writes
    requires forall y :: last < y < |log| ==> v !in steps[log[y]].writes
    requires FinalWriter(steps, ended, j, v)
    ensures v in Along(steps, log) && Along(steps, log)[v] == steps[log[last]].writes[v]
    ensures v in Listed(steps, ended, |steps|) && Listed(steps, ended, |steps|)[v] == steps[j].writes[v]
  {
    AlongLastWriter(steps, log, v);
    ListedFinalWriter(steps, ended, |steps|, v);
  }

  lemma {:induction false} AlongFrame(a: seq<Step>, b: seq<Step>, log: seq<nat>)
    requires |a| == |b| && Valid(a, log)
    requires forall x :: 0 <= x < |log| ==> a[log[x]].writes == b[log[x]].writes
    ensures Along(a, log) == Along(b, log)
  {
    if log != [] { AlongFrame(a, b, log[..|log| - 1]); }
  }

  /** A step of the highest order so far may end next. */
  lemma ScheduleExtends(steps: seq<Step>, ended: set<nat>, log: seq<nat>, i: nat, w: State, steps': seq<Step>)
    requires InRange(steps, ended) && IsSchedule(steps, ended, log)
    requires i < |steps| && i !in ended
    requires forall j :: j in ended ==> steps[j].order <= steps[i].order
    requires steps' == steps[i := Step(steps[i].order, w)]
    ensures InRange(steps', ended + {i})
    ensures IsSchedule(steps', ended + {i}, log + [i])
    ensures Along(steps', log + [i]) == Along(steps, log) + w
  {
    forall x | 0 <= x < |log| ensures log[x] in ended && log[x] != i { assert log[x] in log; }
    AlongFrame(steps, steps', log);
    AlongLast(steps', log, i);
    ScheduleHolds(steps, ended, log, i, steps');
  }

  lemma AlongLast(steps: seq<Step>, log: seq<nat>, i: nat)
    requires Valid(steps, log) && i < |steps|
    ensures Valid(steps, log + [i]) && Along(steps, log + [i]) == Along(steps, log) + steps[i].writes
  {
    var log' := log + [i];
    assert log'[..|log|] == log && log'[|log|] == i;
  }

  lemma ScheduleHolds(steps: seq<Step>, ended: set<nat>, log: seq<nat>, i: nat, steps': seq<Step>)
    requires InRange(steps, ended) && IsSchedule(steps, ended, log) && i < |steps| && i !in ended
    requires forall j :: j in ended ==> steps[j].order <= steps[i].order
    requires |steps'| == |steps| && forall j :: 0 <= j < |steps| ==> steps'[j].order == steps[j].order
    ensures IsSchedule(steps', ended + {i}, log + [i])
  {
    var log' := log + [i];
    forall x | 0 <= x < |log| ensures log[x] in ended { assert log[x] in log; }
    forall k ensures k in ended + {i} <==> k in log' {
      if k in log { assert k in ended; }
    }
  }

  // ----- the converse: a schedule that lets a chosen step write last

  function Key(steps: seq<Step>, top: nat, i: nat): nat
    requires i < |steps|
  {
    2 * steps[i].order + if i == top then 1 else 0
  }

  function Insert(steps: seq<Step>, top: nat, log: seq<nat>, i: nat): seq<nat>
    requires i < |steps| && Valid(steps, log)
  {
    if log == [] || Key(steps, top, log[|log| - 1]) <= Key(steps, top, i) then log + [i]
    else Insert(steps, top, log[..|log| - 1], i) + [log[|log| - 1]]
  }

  ghost predicate SortedByKey(steps: seq<Step>, top: nat, log: seq<nat>)
    requires Valid(steps, log)
  {
    forall x, y :: 0 <= x < y < |log| ==> log[x] != log[y] && Key(steps, top, log[x]) <= Key(steps, top, log[y])
  }

  lemma {:induction false} InsertKeepsSorted(steps: seq<Step>, top: nat, log: seq<nat>, i: nat)
    requires i < |steps| && i !in log && Valid(steps, log)
    requires SortedByKey(steps, top, log)
    ensures forall k :: k in Insert(steps, top, log, i) <==> k == i || k in log
    ensures Valid(steps, Insert(steps, top, log, i))
    ensures SortedByKey(steps, top, Insert(steps, top, log, i))
  {
    if log == [] || Key(steps, top, log[|log| - 1]) <= Key(steps, top, i) {
      AppendKeepsSorted(steps, top, log, i);
    } else {
      var front, last := log[..|log| - 1], log[|log| - 1];
      assert log == front + [last];
      InsertKeepsSorted(steps, top, front, i);
      InsertBefore(steps, top, front, last, i, Insert(steps, top, front, i));
    }
  }

  lemma AppendKeepsSorted(steps: seq<Step>, top: nat, log: seq<nat>, i: nat)
    requires i < |steps| && i !in log && Valid(steps, log) && SortedByKey(steps, top, log)
    requires log == [] || Key(steps, top, log[|log| - 1]) <= Key(steps, top, i)
    ensures Valid(steps, log + [i]) && SortedByKey(steps, top, log + [i])
  {
    assert forall x :: 0 <= x < |log| ==> log[x] != i;
  }

  lemma InsertBefore(steps: seq<Step>, top: nat, front: seq<nat>, last: nat, i: nat, r: seq<nat>)
    requires i < |steps| && last < |steps| && Valid(steps, front + [last]) && SortedByKey(steps, top, front + [last])
    requires i !in front + [last] && Key(steps, top, i) < Key(steps, top, last)
    requires Valid(steps, r) && SortedByKey(steps, top, r) && forall k :: k in r <==> k == i || k in front
    ensures Valid(steps, r + [last]) && SortedByKey(steps, top, r + [last])
  {
    var log := front + [last];
    assert log[|front|] == last && last in log;
    forall x | 0 <= x < |r| ensures r[x] != last && Key(steps, top, r[x]) <= Key(steps, top, last) {
      assert r[x] in r;
      if r[x] in front { var y :| 0 <= y < |front| && front[y] == r[x]; assert log[y] == r[x]; }
    }
  }

  lemma {:induction false} ScheduleEndingWith(steps: seq<Step>, ended: set<nat>, top: nat, n: nat)
    returns (log: seq<nat>)
    requires n <= |steps|
    ensures forall i :: i in log <==> i in ended && i < n
    ensures Valid(steps, log) && SortedByKey(steps, top, log)
  {
    if n == 0 { return []; }
    log := ScheduleEndingWith(steps, ended, top, n - 1);
    if n - 1 in ended {
      InsertKeepsSorted(steps, top, log, n - 1);
      log := Insert(steps, top, log, n - 1);
    }
  }

  lemma DivergingSchedule(steps: seq<Step>, ended: set<nat>, i: nat, j: nat, v: string) returns (log: seq<nat>)
    requires InRange(steps, ended)
    requires TopWriter(steps, ended, i, v) && FinalWriter(steps, ended, j, v)
    requires steps[i].writes[v] != steps[j].writes[v]
    ensures IsSchedule(steps, ended, log)
    ensures Along(steps, log) != Listed(steps, ended, |steps|)
  {
    log := ScheduleEndingWith(steps, ended, i, |steps|);
    var x :| 0 <= x < |log| && log[x] == i;
    forall y | x < y < |log| ensures v !in steps[log[y]].writes {
      assert log[y] in log && log[y] != i;
      assert Key(steps, i, i) <= Key(steps, i, log[y]);
      assert steps[i].order < steps[log[y]].order;
      assert !Writer(steps, ended, log[y], v);
    }
    ValuesAt(steps, ended, log, v, x, j);
  }

  ghost predicate Matches(steps: seq<Step>, ended: set<nat>, log: seq<nat>)
    requires Valid(steps, log)
  {
    Along(steps, log) == Listed(steps, ended, |steps|)
  }

  /** Every interleaving agrees with the replay if and only if the last writers agree. */
  lemma EveryInterleavingMatchesReplay(steps: seq<Step>, ended: set<nat>)
    requires InRange(steps, ended)
    ensures (forall log :: IsSchedule(steps, ended, log) ==> Matches(steps, ended, log))
            <==> LastWriteIsListedLast(steps, ended)
  {
    if LastWriteIsListedLast(steps, ended) {
      forall log: seq<nat> | IsSchedule(steps, ended, log) ensures Matches(steps, ended, log) {
        ScheduleMatchesListing(steps, ended, log);
      }
    } else {
      var i: nat, j: nat, v :| TopWriter(steps, ended, i, v) && FinalWriter(steps, ended, j, v)
                     && steps[i].writes[v] != steps[j].writes[v];
      var log := DivergingSchedule(steps, ended, i, j, v);
      assert !Matches(steps, ended, log);
    }
  }

  /** Sufficient for any plan: steps are listed by order, and steps of one order write different variables. */
  lemma OrderedDisjointStepsAgree(steps: seq<Step>, ended: set<nat>)
    requires forall i, j :: 0 <= i < j < |steps| ==> steps[i].order <= steps[j].order
    requires forall i, j :: 0 <= i < j < |steps| && steps[i].order == steps[j].order
                            ==> steps[i].writes.Keys !! steps[j].writes.Keys
    ensures LastWriteIsListedLast(steps, ended)
  {
    forall i: nat, j: nat, v | TopWriter(steps, ended, i, v) && FinalWriter(steps, ended, j, v)
      ensures steps[i].writes[v] == steps[j].writes[v]
    {
      assert Writer(steps, ended, i, v) && Writer(steps, ended, j, v);
      assert i <= j && steps[j].order <= steps[i].order;
    }
  }

  /** Without the listing order the replay is wrong: the later-listed step ran first. */
  lemma UnorderedListingDiverges()
    ensures exists steps: seq<Step>, log :: InRange(steps, {0, 1}) && IsSchedule(steps, {0, 1}, log)
              && Along(steps, log) != Listed(steps, {0, 1}, |steps|)
  {
    var steps := [Step(1, map["door" := "closed"]), Step(0, map["door" := "open"])];
    var log := DivergingSchedule(steps, {0, 1}, 0, 1, "door");
  }
}
