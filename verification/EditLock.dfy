/**
 The edit lock of a behaviour tree: a lease with an expiry time. Every request is handled atomically; a run is any
 sequence of requests whose clock readings do not go back. Times are nanoseconds, the stored expiry is milliseconds.
 */
module EditLock {

  const MS := 1_000_000

  /** Five minutes; a heartbeat renews the lease by as much. */
  const LOCK_DURATION := 300_000 * MS

  /** The lock fields as stored: no session is "", no expiry is 0. */
  datatype Lock = Lock(session: string, lockedBy: string, expiresAtMs: int)

  const UNLOCKED := Lock("", "", 0)

  function Expiry(l: Lock): int { l.expiresAtMs * MS }

  /** The expiry of a lease taken or renewed at `now`, as the database keeps it. */
  function RenewedMs(now: int): int { (now + LOCK_DURATION) / MS }

  /** A session holds the lease. */
  predicate Holds(l: Lock, session: string, now: int) {
    session != "" && l.session == session && l.expiresAtMs > 0 && Expiry(l) > now
  }

  predicate HeldByOther(l: Lock, session: string, now: int) {
    l.session != "" && l.session != session && l.expiresAtMs > 0 && Expiry(l) > now
  }

  datatype Request =
    | Acquire(session: string, user: string, executing: bool)
    | Release(session: string)
    | Heartbeat(session: string)
    | Check(session: string)
    | CleanUp
    | ForceRelease

  datatype Response = Granted | Refused | BadRequest

  datatype Outcome = Outcome(lock: Lock, response: Response)

  function AfterAcquire(l: Lock, session: string, user: string, executing: bool, now: int): Outcome {
    if session == "" then Outcome(l, BadRequest)
    else if executing || HeldByOther(l, session, now) then Outcome(l, Refused)
    else Outcome(Lock(session, if user == "" then "Unknown User" else user, RenewedMs(now)), Granted)
  }

  function AfterRelease(l: Lock, session: string): Outcome {
    if session == "" then Outcome(l, BadRequest)
    else if l.session == "" || l.session != session then Outcome(l, Refused)
    else Outcome(UNLOCKED, Granted)
  }

  function AfterHeartbeat(l: Lock, session: string, now: int): Outcome {
    if session == "" then Outcome(l, BadRequest)
    else if l.session == "" || l.session != session || (l.expiresAtMs > 0 && Expiry(l) < now) then Outcome(l, Refused)
    else Outcome(l.(expiresAtMs := RenewedMs(now)), Granted)
  }

  /** ValidateLockOwnership: whether an edit by the session may go ahead. */
  predicate MayEdit(l: Lock, session: string, now: int) {
    l.session == "" || l.expiresAtMs <= 0 || Expiry(l) < now || l.session == session
  }

  /** cleanupExpiredLocks for one tree: the query finds it, and the second look agrees. */
  predicate Stale(l: Lock, now: int) { 0 < l.expiresAtMs < now / MS && Expiry(l) <= now }

  function Handle(l: Lock, r: Request, now: int): Outcome {
    match r
    case Acquire(session, user, executing) => AfterAcquire(l, session, user, executing, now)
    case Release(session) => AfterRelease(l, session)
    case Heartbeat(session) => AfterHeartbeat(l, session, now)
    case Check(session) => Outcome(l, if MayEdit(l, session, now) then Granted else Refused)
    case CleanUp => if Stale(l, now) then Outcome(UNLOCKED, Granted) else Outcome(l, Refused)
    case ForceRelease => Outcome(UNLOCKED, Granted)
  }

  /** A behaviour tree's record, as the handlers read and rewrite it. */
  class TreeRecord {
    var lockedBy: string
    var lockSessionID: string
    var lockExpiresAtMs: int

    function Stored(): Lock
      reads this
    {
      Lock(lockSessionID, lockedBy, lockExpiresAtMs)
    }

    constructor ()
      ensures Stored() == UNLOCKED
    {
      lockedBy, lockSessionID, lockExpiresAtMs := "", "", 0;
    }

    method Clear()
      modifies this
      ensures Stored() == UNLOCKED
    {
      lockedBy, lockSessionID, lockExpiresAtMs := "", "", 0;
    }

    /** AcquireBehaviorTreeLock */
    method Acquire(session: string, user: string, executing: bool, now: int) returns (r: Response)
      modifies this
      ensures Outcome(Stored(), r) == Handle(old(Stored()), Request.Acquire(session, user, executing), now)
    {
      if session == "" { return BadRequest; }
      if executing { return Refused; }
      if lockSessionID != "" && lockExpiresAtMs > 0 && lockExpiresAtMs * MS > now && lockSessionID != session {
        return Refused;
      }
      lockedBy := if user == "" then "Unknown User" else user;
      lockExpiresAtMs := (now + LOCK_DURATION) / MS;
      lockSessionID := session;
      r := Granted;
    }

    /** ReleaseBehaviorTreeLock */
    method Release(session: string) returns (r: Response)
      modifies this
      ensures forall now :: Outcome(Stored(), r) == Handle(old(Stored()), Request.Release(session), now)
    {
      if session == "" { return BadRequest; }
      if lockSessionID == "" || lockSessionID != session { return Refused; }
      Clear();
      r := Granted;
    }

    /** HeartbeatBehaviorTreeLock */
    method Heartbeat(session: string, now: int) returns (r: Response)
      modifies this
      ensures Outcome(Stored(), r) == Handle(old(Stored()), Request.Heartbeat(session), now)
    {
      if session == "" { return BadRequest; }
      if lockSessionID == "" || lockSessionID != session { return Refused; }
      if lockExpiresAtMs > 0 && lockExpiresAtMs * MS < now { return Refused; }
      lockExpiresAtMs := (now + LOCK_DURATION) / MS;
      r := Granted;
    }

    /** ValidateLockOwnership, which is asked before an edit. */
    method MayBeEdited(session: string, now: int) returns (ok: bool)
      ensures Outcome(Stored(), if ok then Granted else Refused) == Handle(Stored(), Check(session), now)
    {
      if lockSessionID == "" || lockExpiresAtMs <= 0 || lockExpiresAtMs * MS < now { return true; }
      ok := lockSessionID == session;
    }

    /** The clean-up of one record. */
    method CleanUp(now: int) returns (cleared: bool)
      modifies this
      ensures Outcome(Stored(), if cleared then Granted else Refused) == Handle(old(Stored()), Request.CleanUp, now)
    {
      if !(0 < lockExpiresAtMs < now / MS) || lockExpiresAtMs * MS > now { return false; }
      Clear();
      cleared := true;
    }
  }

  // ----- runs

  /** Request k arrives at times[k] and finds locks[k]. */
  datatype Run = Run(locks: seq<Lock>, requests: seq<Request>, times: seq<int>)

  ghost predicate IsRun(u: Run) {
    && |u.locks| == |u.requests| + 1 && |u.times| == |u.requests|
    && u.locks[0] == UNLOCKED
    && (forall j, k :: 0 <= j <= k < |u.times| ==> u.times[j] <= u.times[k])
    && (forall k :: 0 <= k < |u.times| ==> u.times[k] >= 0)
    && (forall k :: 0 <= k < |u.requests| ==> u.locks[k + 1] == Handle(u.locks[k], u.requests[k], u.times[k]).lock)
  }

  function ResponseAt(u: Run, k: nat): Response
    requires |u.locks| == |u.requests| + 1 && |u.times| == |u.requests| && k < |u.requests|
  {
    Handle(u.locks[k], u.requests[k], u.times[k]).response
  }

  lemma RenewLater(a: int, b: int)
    requires 0 <= a <= b
    ensures RenewedMs(a) <= RenewedMs(b) && RenewedMs(b) * MS > b && RenewedMs(a) > 0
  {
  }

  /** A lease never reaches further than one taken now would. */
  lemma {:induction false} ExpiryIsBounded(u: Run, k: nat)
    requires IsRun(u) && k < |u.requests|
    ensures u.locks[k].expiresAtMs <= RenewedMs(u.times[k])
  {
    RenewLater(u.times[k], u.times[k]);
    if k > 0 {
      ExpiryIsBounded(u, k - 1);
      RenewLater(u.times[k - 1], u.times[k]);
    }
  }

  /** Nothing ends the lease of `session` at step k on purpose. */
  predicate LeavesAlone(r: Request, session: string) { !r.ForceRelease? && r != Release(session) }

  /** While a lease is unexpired, a request that is neither its release nor a forced one keeps it and its length. */
  lemma LeaseIsKept(u: Run, k: nat, session: string)
    requires IsRun(u) && k < |u.requests|
    requires Holds(u.locks[k], session, u.times[k]) && LeavesAlone(u.requests[k], session)
    ensures u.locks[k + 1].session == session && u.locks[k + 1].expiresAtMs >= u.locks[k].expiresAtMs
  {
    ExpiryIsBounded(u, k);
  }

  /** No other session is granted the lock or passes the ownership check against an unexpired lease. */
  lemma OthersAreRefused(l: Lock, session: string, other: string, r: Request, now: int)
    requires Holds(l, session, now) && other != session
    requires (r.Acquire? && r.session == other) || r == Check(other)
    ensures Handle(l, r, now).response != Granted && Handle(l, r, now).lock == l
  {
  }

  /**
   Lease safety: from the moment a session holds the lock until the expiry it then had, and as long as it is neither
   released by that session nor forced, the session stays the holder whatever the other requests are.
   */
  lemma {:induction false} LeaseSafety(u: Run, i: nat, k: nat, session: string)
    requires IsRun(u) && i <= k < |u.requests|
    requires session != "" && u.locks[i].session == session && u.locks[i].expiresAtMs > 0
    requires forall j :: i <= j < k ==> LeavesAlone(u.requests[j], session)
    requires u.times[k] < Expiry(u.locks[i])
    ensures Holds(u.locks[k], session, u.times[k]) && u.locks[k].expiresAtMs >= u.locks[i].expiresAtMs
    decreases k
  {
    if i < k {
      LeaseSafety(u, i, k - 1, session);
      LeaseIsKept(u, k - 1, session);
    }
  }

  /** What lease safety means for the others. */
  lemma NoIntruder(u: Run, i: nat, k: nat, session: string, other: string)
    requires IsRun(u) && i <= k < |u.requests| && other != session
    requires session != "" && u.locks[i].session == session && u.locks[i].expiresAtMs > 0
    requires forall j :: i <= j < k ==> LeavesAlone(u.requests[j], session)
    requires u.times[k] < Expiry(u.locks[i])
    requires (u.requests[k].Acquire? && u.requests[k].session == other) || u.requests[k] == Check(other)
    ensures ResponseAt(u, k) != Granted
  {
    LeaseSafety(u, i, k, session);
    OthersAreRefused(u.locks[k], session, other, u.requests[k], u.times[k]);
  }

  /** The indices of heartbeats, each sent before the lease renewed by the previous one runs out. */
  ghost predicate BeatsInTime(u: Run, beats: seq<nat>, session: string)
    requires IsRun(u)
  {
    && |beats| > 0
    && (forall b :: 0 <= b < |beats| ==> beats[b] < |u.requests|)
    && (forall b :: 0 < b < |beats| ==> u.requests[beats[b]] == Heartbeat(session))
    && (forall b :: 0 < b < |beats| ==>
          beats[b - 1] < beats[b] && u.times[beats[b]] < RenewedMs(u.times[beats[b - 1]]) * MS)
    && (forall j :: beats[0] < j < |u.requests| ==> LeavesAlone(u.requests[j], session))
  }

  /** A session that was granted the lock and sends every heartbeat in time has every heartbeat granted. */
  lemma {:induction false} HeartbeatsKeepTheLock(u: Run, beats: seq<nat>, session: string, b: nat)
    requires IsRun(u) && BeatsInTime(u, beats, session) && b < |beats| && session != ""
    requires u.requests[beats[0]].Acquire? && u.requests[beats[0]].session == session
    requires ResponseAt(u, beats[0]) == Granted
    ensures ResponseAt(u, beats[b]) == Granted
    ensures u.locks[beats[b] + 1].session == session
    ensures u.locks[beats[b] + 1].expiresAtMs == RenewedMs(u.times[beats[b]]) > 0
  {
    var k := beats[b];
    RenewLater(u.times[k], u.times[k]);
    if b > 0 {
      HeartbeatsKeepTheLock(u, beats, session, b - 1);
      BeatAfterFirst(u, beats, session, b - 1);
      LeaseSafety(u, beats[b - 1] + 1, k, session);
    }
  }

  lemma {:induction false} BeatAfterFirst(u: Run, beats: seq<nat>, session: string, b: nat)
    requires IsRun(u) && BeatsInTime(u, beats, session) && b < |beats|
    ensures beats[0] <= beats[b]
  {
    if b > 0 { BeatAfterFirst(u, beats, session, b - 1); }
  }

  /** And between two heartbeats nobody else gets in. */
  lemma HeartbeatsKeepOthersOut(u: Run, beats: seq<nat>, session: string, b: nat, k: nat, other: string)
    requires IsRun(u) && BeatsInTime(u, beats, session) && b < |beats| && session != "" && other != session
    requires u.requests[beats[0]].Acquire? && u.requests[beats[0]].session == session
    requires ResponseAt(u, beats[0]) == Granted
    requires beats[b] < k < |u.requests| && u.times[k] < RenewedMs(u.times[beats[b]]) * MS
    requires (u.requests[k].Acquire? && u.requests[k].session == other) || u.requests[k] == Check(other)
    ensures ResponseAt(u, k) != Granted
  {
    HeartbeatsKeepTheLock(u, beats, session, b);
    BeatAfterFirst(u, beats, session, b);
    NoIntruder(u, beats[b] + 1, k, session, other);
  }

  /** A lease that is taken or renewed lasts five minutes from now, to the millisecond. */
  lemma LeaseLastsFiveMinutes(l: Lock, r: Request, now: int)
    requires (r.Acquire? || r.Heartbeat?) && Handle(l, r, now).response == Granted
    ensures Handle(l, r, now).lock.expiresAtMs == now / 1_000_000 + 5 * 60 * 1000
  {
    assert (now + 300_000 * 1_000_000) / 1_000_000 == now / 1_000_000 + 300_000;
  }

  // ----- where the handlers disagree

  /**
   For a tree nobody executes, the ownership check lets another session edit exactly when that session could take the
   lock, except at the very instant of expiry.
   */
  lemma CheckAgreesWithAcquire(l: Lock, other: string, user: string, now: int)
    requires other != "" && l.session != "" && l.session != other && l.expiresAtMs > 0
    ensures (Handle(l, Check(other), now).response == Granted
             <==> Handle(l, Acquire(other, user, false), now).response == Granted)
            <==> now != Expiry(l)
  {
  }

  // ----- the acquire handler in its two database calls

  datatype Attempt = Attempt(session: string, user: string, executing: bool)

  /** A handler reads the record and decides, or writes the record it decided on. */
  datatype Move = Reads(who: nat) | Writes(who: nat)

  /** The stored record, what handlers are about to write over it, and what they have answered. */
  datatype Desk = Desk(lock: Lock, drafts: map<nat, Lock>, answers: map<nat, Response>)

  function AfterMove(d: Desk, attempts: seq<Attempt>, m: Move, now: int): Desk
    requires m.who < |attempts|
  {
    match m
    case Reads(who) =>
      var o := AfterAcquire(d.lock, attempts[who].session, attempts[who].user, attempts[who].executing, now);
      if o.response == Granted then d.(drafts := d.drafts[who := o.lock])
      else d.(answers := d.answers[who := o.response])
    case Writes(who) =>
      if who in d.drafts then Desk(d.drafts[who], d.drafts - {who}, d.answers[who := Granted]) else d
  }

  predicate AllKnown(moves: seq<Move>, attempts: seq<Attempt>) {
    forall k :: 0 <= k < |moves| ==> moves[k].who < |attempts|
  }

  function AfterMoves(d: Desk, attempts: seq<Attempt>, moves: seq<Move>, times: seq<int>): Desk
    requires |moves| == |times| && AllKnown(moves, attempts)
    decreases |moves|
  {
    if moves == [] then d else AfterMoves(AfterMove(d, attempts, moves[0], times[0]), attempts, moves[1..], times[1..])
  }

  const SERIAL := [Reads(0), Writes(0), Reads(1), Writes(1)]
  const CROSSED := [Reads(0), Reads(1), Writes(0), Writes(1)]
  const OVERTAKEN := [Reads(0), Reads(1), Writes(1), Writes(0)]

  /** Two handlers, each reading before it writes, the first one reading first: all the ways they can interleave. */
  predicate Interleaves(moves: seq<Move>) { moves == SERIAL || moves == CROSSED || moves == OVERTAKEN }

  /** The record does not keep the session from taking the lock. */
  predicate OpenTo(l: Lock, session: string, now: int) {
    l.session == "" || l.session == session || l.expiresAtMs <= 0 || Expiry(l) <= now
  }

  function Ends(l: Lock, a: Attempt, b: Attempt, moves: seq<Move>, times: seq<int>): Desk
    requires Interleaves(moves) && |times| == 4
  {
    AfterMoves(Desk(l, map[], map[]), [a, b], moves, times)
  }

  predicate BothGranted(d: Desk) {
    0 in d.answers && d.answers[0] == Granted && 1 in d.answers && d.answers[1] == Granted
  }

  /** When both of two different sessions get the lock, said of the record, the requests and the times alone. */
  predicate GrantsTwo(l: Lock, a: Attempt, b: Attempt, moves: seq<Move>, times: seq<int>)
    requires Interleaves(moves) && |times| == 4
  {
    && !a.executing && !b.executing && OpenTo(l, a.session, times[0])
    && if moves[1] == Reads(1) then OpenTo(l, b.session, times[1])
       else RenewedMs(times[0]) * MS <= times[2]
  }

  /**
   Two acquire requests of different sessions are both granted if and only if nobody executes the tree, the record is
   open to both when they read it, and the second read comes before the first write or after the first lease ran out.
   */
  lemma TwoGrantsIff(l: Lock, a: Attempt, b: Attempt, moves: seq<Move>, times: seq<int>)
    requires a.session != "" && b.session != "" && a.session != b.session
    requires Interleaves(moves) && |times| == 4 && times[0] >= 0
    ensures BothGranted(Ends(l, a, b, moves, times)) <==> GrantsTwo(l, a, b, moves, times)
  {
    RenewLater(times[0], times[0]);
    FourMoves(Desk(l, map[], map[]), [a, b], moves, times);
    FirstRead(l, a, b, times[0]);
  }

  lemma FourMoves(d: Desk, attempts: seq<Attempt>, moves: seq<Move>, times: seq<int>)
    requires |moves| == |times| == 4 && AllKnown(moves, attempts)
    ensures AfterMoves(d, attempts, moves, times)
            == AfterMove(AfterMove(AfterMove(AfterMove(d, attempts, moves[0], times[0]),
                 attempts, moves[1], times[1]), attempts, moves[2], times[2]), attempts, moves[3], times[3])
  {
    var m1, m2, m3, t1, t2, t3 := moves[1..], moves[2..], moves[3..], times[1..], times[2..], times[3..];
    assert m1[1..] == m2 && m2[1..] == m3 && m3[1..] == [] && t1[1..] == t2 && t2[1..] == t3 && t3[1..] == [];
    var d1 := AfterMove(d, attempts, moves[0], times[0]);
    var d2 := AfterMove(d1, attempts, moves[1], times[1]);
    var d3 := AfterMove(d2, attempts, moves[2], times[2]);
    assert AfterMoves(d, attempts, moves, times) == AfterMoves(d1, attempts, m1, t1);
    assert AfterMoves(d1, attempts, m1, t1) == AfterMoves(d2, attempts, m2, t2);
    assert AfterMoves(d2, attempts, m2, t2) == AfterMoves(d3, attempts, m3, t3);
    var d4 := AfterMove(d3, attempts, m3[0], t3[0]);
    assert AfterMoves(d3, attempts, m3, t3) == AfterMoves(d4, attempts, m3[1..], t3[1..]) == d4;
  }

  lemma FirstRead(l: Lock, a: Attempt, b: Attempt, now: int)
    requires a.session != ""
    ensures var d := AfterMove(Desk(l, map[], map[]), [a, b], Reads(0), now);
            if !a.executing && OpenTo(l, a.session, now)
            then d == Desk(l, map[0 := AfterAcquire(l, a.session, a.user, false, now).lock], map[])
            else d == Desk(l, map[], map[0 := Refused])
  {
  }

  /** Interleaved handlers do grant twice: both sessions are told they have the lock, only the last writer has it. */
  lemma StaleReadsGrantTwice(a: Attempt, b: Attempt, moves: seq<Move>, times: seq<int>)
    requires a.session != "" && b.session != "" && a.session != b.session && !a.executing && !b.executing
    requires (moves == CROSSED || moves == OVERTAKEN) && |times| == 4 && times[0] >= 0
    ensures var d := Ends(UNLOCKED, a, b, moves, times);
            BothGranted(d) && d.lock.session == if moves == CROSSED then b.session else a.session
  {
    TwoGrantsIff(UNLOCKED, a, b, moves, times);
    FourMoves(Desk(UNLOCKED, map[], map[]), [a, b], moves, times);
  }
}
