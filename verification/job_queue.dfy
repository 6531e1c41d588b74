/**
 The leased job queue of the video ingester (`jobs.py`).

 Each function of the source is one SQL transaction. `Apply` gives the table a committed
 transaction leaves behind, the methods of `JobStore` are proved against it, and the theorems
 at the end of the file are about arbitrary runs: any number of workers, in any order, zombies
 (workers whose lease was taken over) included, since no statement looks at `claimed_by`.
 */
module JobQueue {
  import opened Wrappers

  type Time = int // seconds

  datatype Status = Pending | Running | Done | Failed

  datatype Request = Request(url: string, userSub: string, context: Option<string>, contextId: Option<string>,
                             languagePref: Option<string>, forceAudio: bool)

  datatype Row = Row(
    request: Request,
    createdAt: Time,
    status: Status,
    attempts: int,
    leaseUntil: Option<Time>,
    claimedBy: Option<string>,
    nextAttemptAt: Option<Time>,
    errorMessage: Option<string>,
    videoSourceId: Option<int>,
    reused: Option<bool>,
    completedAt: Option<Time>,
    updatedAt: Time)

  type Table = map<int, Row>

  /** What `claim_next` hands to the worker. */
  datatype Job = Job(id: int, request: Request, attempts: int)

  const ERROR_MAX := 2000

  function Truncated(error: string): Option<string>
  {
    if error == "" then None else Some(if |error| <= ERROR_MAX then error else error[..ERROR_MAX])
  }

  predicate Expired(r: Row, now: Time)
  {
    r.status.Running? && r.leaseUntil.Some? && r.leaseUntil.value < now
  }

  predicate Claimable(r: Row, now: Time)
  {
    || (r.status.Pending? && (r.nextAttemptAt.None? || r.nextAttemptAt.value <= now))
    || Expired(r, now)
  }

  /** The row the claiming SELECT stops at, `locked` being the rows other transactions hold. */
  predicate IsNext(t: Table, now: Time, locked: set<int>, id: int)
  {
    && id in t && id !in locked && Claimable(t[id], now)
    && forall other :: other in t && other !in locked && Claimable(t[other], now) ==>
         t[id].createdAt <= t[other].createdAt
  }

  // ---- Transactions ------------------------------------------------------------------------

  datatype Event =
    | Enqueue(id: int, request: Request)
    | Claim(id: int, worker: string, lease: int)
    | Heartbeat(id: int, lease: int)
    | Complete(id: int, sourceId: int, reused: bool)
    | Fail(id: int, error: string)
    | Retry(id: int, error: string, delay: int)
    | ResetOrphans

  /** A committed transaction. `now` is SQL's NOW(), the instant the transaction started. */
  datatype Tx = Tx(now: Time, event: Event)

  function FreshRow(request: Request, now: Time): Row
  {
    Row(request, now, Pending, 0, None, None, None, None, None, None, None, now)
  }

  function ResetTable(t: Table, now: Time): Table
  {
    map id | id in t ::
      if Expired(t[id], now) then t[id].(status := Pending, claimedBy := None, updatedAt := now) else t[id]
  }

  function Apply(t: Table, tx: Tx): Table
  {
    var now := tx.now;
    match tx.event
    case Enqueue(id, request) => t[id := FreshRow(request, now)]
    case Claim(id, worker, lease) =>
      if id in t
      then t[id := t[id].(status := Running, claimedBy := Some(worker), leaseUntil := Some(now + lease),
                          attempts := t[id].attempts + 1, updatedAt := now)] else t
    case Heartbeat(id, lease) =>
      if id in t && t[id].status.Running?
      then t[id := t[id].(leaseUntil := Some(now + lease), updatedAt := now)] else t
    case Complete(id, sourceId, reused) =>
      if id in t
      then t[id := t[id].(status := Done, videoSourceId := Some(sourceId), reused := Some(reused),
                          completedAt := Some(now), updatedAt := now, errorMessage := None, leaseUntil := None)] else t
    case Fail(id, error) =>
      if id in t
      then t[id := t[id].(status := Failed, errorMessage := Truncated(error), completedAt := Some(now),
                          updatedAt := now, leaseUntil := None)] else t
    case Retry(id, error, delay) =>
      if id in t
      then t[id := t[id].(status := Pending, claimedBy := None, leaseUntil := None, nextAttemptAt := Some(now + delay),
                          errorMessage := Truncated(error), updatedAt := now)] else t
    case ResetOrphans => ResetTable(t, now)
  }

  /** A claim may take any claimable row: which one depends on the locks of the moment. */
  predicate Enabled(t: Table, tx: Tx)
  {
    match tx.event
    case Enqueue(id, _) => id !in t
    case Claim(id, _, _) => id in t && Claimable(t[id], tx.now)
    case _ => true
  }

  // ---- The store ----------------------------------------------------------------------------

  class JobStore {
    var rows: Table
    var nextId: int

    ghost predicate Valid()
      reads this
    {
      forall id :: id in rows ==> id < nextId
    }

    constructor ()
      ensures Valid() && rows == map[]
    {
      rows, nextId := map[], 1;
    }

    method Enqueue(request: Request, now: Time) returns (id: int)
      requires Valid()
      modifies this
      ensures Valid()
      ensures Enabled(old(rows), Tx(now, Event.Enqueue(id, request)))
      ensures rows == Apply(old(rows), Tx(now, Event.Enqueue(id, request)))
    {
      id := nextId;
      rows := rows[id := FreshRow(request, now)];
      nextId := nextId + 1;
    }

    method ClaimNext(worker: string, lease: int, now: Time, locked: set<int>) returns (job: Option<Job>)
      requires Valid()
      modifies this
      ensures Valid()
      ensures job.None? ==> rows == old(rows)
      ensures job.None? <==> forall id :: id in old(rows) && id !in locked ==> !Claimable(old(rows)[id], now)
      ensures job.Some? ==>
                var id := job.value.id;
                && IsNext(old(rows), now, locked, id)
                && rows == Apply(old(rows), Tx(now, Claim(id, worker, lease)))
                && job.value == Job(id, rows[id].request, rows[id].attempts)
    {
      NextExists(rows, now, locked, rows.Keys);
      assert forall id :: IsNextAmong(rows, now, locked, rows.Keys, id) ==> IsNext(rows, now, locked, id);
      if id :| id in rows && IsNext(rows, now, locked, id) {
        var r := rows[id];
        rows := rows[id := r.(status := Running, claimedBy := Some(worker), leaseUntil := Some(now + lease),
                              attempts := r.attempts + 1, updatedAt := now)];
        job := Some(Job(id, r.request, r.attempts + 1));
      } else {
        job := None;
      }
    }

    method ExtendLease(id: int, lease: int, now: Time) returns (extended: bool)
      requires Valid()
      modifies this
      ensures Valid()
      ensures rows == Apply(old(rows), Tx(now, Heartbeat(id, lease)))
      ensures extended <==> id in old(rows) && old(rows)[id].status.Running?
    {
      extended := id in rows && rows[id].status.Running?;
      if extended {
        rows := rows[id := rows[id].(leaseUntil := Some(now + lease), updatedAt := now)];
      }
    }

    method Complete(id: int, sourceId: int, reused: bool, now: Time)
      requires Valid()
      modifies this
      ensures Valid() && rows == Apply(old(rows), Tx(now, Event.Complete(id, sourceId, reused)))
      ensures id in old(rows) ==> rows[id].status.Done? && rows[id].videoSourceId == Some(sourceId)
    {
      if id in rows {
        rows := rows[id := rows[id].(status := Done, videoSourceId := Some(sourceId), reused := Some(reused),
                                     completedAt := Some(now), updatedAt := now, errorMessage := None,
                                     leaseUntil := None)];
      }
    }

    method Fail(id: int, error: string, now: Time)
      requires Valid()
      modifies this
      ensures Valid() && rows == Apply(old(rows), Tx(now, Event.Fail(id, error)))
      ensures id in old(rows) ==> rows[id].status.Failed?
    {
      if id in rows {
        rows := rows[id := rows[id].(status := Failed, errorMessage := Truncated(error), completedAt := Some(now),
                                     updatedAt := now, leaseUntil := None)];
      }
    }

    method Retry(id: int, error: string, delay: int, now: Time)
      requires Valid()
      modifies this
      ensures Valid() && rows == Apply(old(rows), Tx(now, Event.Retry(id, error, delay)))
      ensures id in old(rows) ==> rows[id].status.Pending? && rows[id].nextAttemptAt == Some(now + delay)
    {
      if id in rows {
        rows := rows[id := rows[id].(status := Pending, claimedBy := None, leaseUntil := None,
                                     nextAttemptAt := Some(now + delay), errorMessage := Truncated(error),
                                     updatedAt := now)];
      }
    }

    method ResetOrphans(now: Time) returns (count: int)
      requires Valid()
      modifies this
      ensures Valid() && rows == Apply(old(rows), Tx(now, Event.ResetOrphans))
      ensures count == |set id | id in old(rows) && Expired(old(rows)[id], now)|
    {
      var orphans := set id | id in rows && Expired(rows[id], now);
      rows := map id | id in rows ::
        if id in orphans then rows[id].(status := Pending, claimedBy := None, updatedAt := now) else rows[id];
      count := |orphans|;
    }
  }

  ghost predicate IsNextAmong(t: Table, now: Time, locked: set<int>, ids: set<int>, id: int)
    requires ids <= t.Keys
  {
    && id in ids && id !in locked && Claimable(t[id], now)
    && forall o :: o in ids && o !in locked && Claimable(t[o], now) ==> t[id].createdAt <= t[o].createdAt
  }

  /** If some unlocked row is claimable, the ORDER BY has a first one. */
  lemma {:induction false} NextExists(t: Table, now: Time, locked: set<int>, ids: set<int>)
    requires ids <= t.Keys
    ensures (exists id :: id in ids && id !in locked && Claimable(t[id], now)) ==>
              exists id :: IsNextAmong(t, now, locked, ids, id)
    decreases ids
  {
    if x :| x in ids && x !in locked && Claimable(t[x], now) {
      var rest := ids - {x};
      NextExists(t, now, locked, rest);
      assert forall o :: o in ids ==> o == x || o in rest;
      if y :| IsNextAmong(t, now, locked, rest, y) {
        assert IsNextAmong(t, now, locked, ids, if t[x].createdAt <= t[y].createdAt then x else y);
      } else {
        assert IsNextAmong(t, now, locked, ids, x);
      }
    }
  }

  // ---- Runs -----------------------------------------------------------------------------------

  /** complete, fail and retry run in the transaction that processed the job: their NOW() may be old. */
  predicate IsShort(e: Event)
  {
    !e.Complete? && !e.Fail? && !e.Retry?
  }

  function Clock(start: Time, run: seq<Tx>): Time
  {
    if run == [] then start
    else
      NextClock(Clock(start, run[..|run| - 1]), run[|run| - 1])
  }

  function NextClock(clock: Time, tx: Tx): Time
  {
    if IsShort(tx.event) then tx.now else clock
  }

  function Exec(t0: Table, run: seq<Tx>): Table
  {
    if run == [] then t0 else Apply(Exec(t0, run[..|run| - 1]), run[|run| - 1])
  }

  /** Short transactions commit in the order of their NOW(); the long ones carry any stamp. */
  predicate IsRun(t0: Table, start: Time, run: seq<Tx>)
  {
    run == [] ||
    (var tx, before := run[|run| - 1], run[..|run| - 1];
     && IsRun(t0, start, before)
     && Enabled(Exec(t0, before), tx)
     && (IsShort(tx.event) ==> Clock(start, before) <= tx.now))
  }

  lemma {:induction false} Prefix(t0: Table, start: Time, run: seq<Tx>, k: nat)
    requires IsRun(t0, start, run) && k <= |run|
    ensures IsRun(t0, start, run[..k])
    ensures k < |run| ==> Enabled(Exec(t0, run[..k]), run[k])
    ensures k < |run| && IsShort(run[k].event) ==> Clock(start, run[..k]) <= run[k].now
    decreases |run|
  {
    if k == |run| {
      assert run[..k] == run;
    } else {
      var before := run[..|run| - 1];
      assert before[..k] == run[..k];
      Prefix(t0, start, before, k);
    }
  }

  /** Splits the first `b` transactions of a run into the first `b - 1` and one more. */
  lemma Unfold(t0: Table, start: Time, run: seq<Tx>, b: nat)
    requires IsRun(t0, start, run) && 0 < b <= |run|
    ensures run[..b][..b - 1] == run[..b - 1] && run[..b][b - 1] == run[b - 1]
    ensures IsRun(t0, start, run[..b]) && IsRun(t0, start, run[..b - 1])
    ensures Enabled(Exec(t0, run[..b - 1]), run[b - 1])
    ensures IsShort(run[b - 1].event) ==> Clock(start, run[..b - 1]) <= run[b - 1].now
    ensures Exec(t0, run[..b]) == Apply(Exec(t0, run[..b - 1]), run[b - 1])
    ensures Clock(start, run[..b]) == NextClock(Clock(start, run[..b - 1]), run[b - 1])
  {
    Prefix(t0, start, run, b);
    Prefix(t0, start, run, b - 1);
  }

  predicate ClaimsJob(tx: Tx, id: int) { tx.event.Claim? && tx.event.id == id }
  predicate RetriesJob(tx: Tx, id: int) { tx.event.Retry? && tx.event.id == id }
  predicate FinishesJob(tx: Tx, id: int) { (tx.event.Complete? || tx.event.Fail?) && tx.event.id == id }

  predicate NoRetry(run: seq<Tx>, id: int, a: nat, b: nat)
  {
    forall k :: a <= k < b && k < |run| ==> !RetriesJob(run[k], id)
  }

  // ---- Lease exclusivity ----------------------------------------------------------------------

  /** The end of the lease last written to `id` by the claim at `a` or by a later heartbeat before `b`. */
  function LastLease(t0: Table, run: seq<Tx>, id: int, a: nat, b: nat): Time
    requires a < b <= |run| && ClaimsJob(run[a], id)
    decreases b
  {
    if b == a + 1 then run[a].now + run[a].event.lease
    else
      var e, t := run[b - 1].event, Exec(t0, run[..b - 1]);
      if e.Heartbeat? && e.id == id && id in t && t[id].status.Running?
      then run[b - 1].now + e.lease
      else LastLease(t0, run, id, a, b - 1)
  }

  /** After a claim, and until a retry, the row keeps the last lease, or has lost it by expiry, or is finished. */
  lemma {:induction false} AfterClaim(t0: Table, start: Time, run: seq<Tx>, id: int, a: nat, b: nat)
    requires IsRun(t0, start, run) && a < b <= |run| && ClaimsJob(run[a], id)
    requires NoRetry(run, id, a, b)
    requires forall k :: a < k < b ==> !ClaimsJob(run[k], id)
    ensures id in Exec(t0, run[..b])
    ensures
      var r := Exec(t0, run[..b])[id];
      var lease := LastLease(t0, run, id, a, b);
      && (r.status.Running? ==> r.leaseUntil == Some(lease))
      && (r.status.Pending? ==> lease < Clock(start, run[..b]))
    decreases b
  {
    Unfold(t0, start, run, b);
    if b > a + 1 {
      AfterClaim(t0, start, run, id, a, b - 1);
      assert !RetriesJob(run[b - 1], id) && !ClaimsJob(run[b - 1], id);
    }
  }

  /** Between two successive claims of one job there is a retry, or the second claim comes strictly after the lease. */
  lemma LeaseExclusive(t0: Table, start: Time, run: seq<Tx>, id: int, a: nat, b: nat)
    requires IsRun(t0, start, run) && a < b < |run|
    requires ClaimsJob(run[a], id) && ClaimsJob(run[b], id)
    requires forall k :: a < k < b ==> !ClaimsJob(run[k], id)
    ensures (exists k :: a < k < b && RetriesJob(run[k], id)) || LastLease(t0, run, id, a, b) < run[b].now
  {
    if forall k :: a < k < b ==> !RetriesJob(run[k], id) {
      AfterClaim(t0, start, run, id, a, b);
      Prefix(t0, start, run, b);
    }
  }

  // ---- Heartbeats -----------------------------------------------------------------------------

  /** The transaction takes the job out of `running`, whoever it was claimed by. */
  predicate EndsClaim(t: Table, tx: Tx, id: int)
  {
    FinishesJob(tx, id) || RetriesJob(tx, id) || (tx.event.ResetOrphans? && id in t && Expired(t[id], tx.now))
  }

  /** Nothing took the job out of `running` between the claim at `a` and `b`. */
  predicate Unended(t0: Table, run: seq<Tx>, id: int, a: nat, b: nat)
    requires a < b <= |run|
  {
    forall k :: a < k < b ==> !EndsClaim(Exec(t0, run[..k]), run[k], id)
  }

  lemma StepKeepsHolder(t: Table, tx: Tx, id: int)
    requires id in t && Enabled(t, tx) && !ClaimsJob(tx, id)
    ensures
      var t' := Apply(t, tx);
      && id in t' && (t'[id].status.Running? <==> t[id].status.Running? && !EndsClaim(t, tx, id))
      && (t'[id].status.Running? ==> t'[id].claimedBy == t[id].claimedBy)
  {
  }

  /** From its last claim on, a job is running, in the hands of that claimer, exactly until something ends the claim. */
  lemma {:induction false} RunningUntilEnded(t0: Table, start: Time, run: seq<Tx>, id: int, a: nat, b: nat)
    requires IsRun(t0, start, run) && a < b <= |run| && ClaimsJob(run[a], id)
    requires forall k :: a < k < b ==> !ClaimsJob(run[k], id)
    ensures
      var t := Exec(t0, run[..b]);
      && id in t && (t[id].status.Running? <==> Unended(t0, run, id, a, b))
      && (t[id].status.Running? ==> t[id].claimedBy == Some(run[a].event.worker))
    decreases b
  {
    hide IsRun, Enabled, Expired, EndsClaim, Apply, Exec;
    Unfold(t0, start, run, b);
    if b > a + 1 {
      RunningUntilEnded(t0, start, run, id, a, b - 1);
      StepKeepsHolder(Exec(t0, run[..b - 1]), run[b - 1], id);
      assert Unended(t0, run, id, a, b) <==>
        Unended(t0, run, id, a, b - 1) && !EndsClaim(Exec(t0, run[..b - 1]), run[b - 1], id);
    } else {
      ClaimRuns(t0, start, run, id, a);
    }
  }

  lemma ClaimRuns(t0: Table, start: Time, run: seq<Tx>, id: int, a: nat)
    requires IsRun(t0, start, run) && a < |run| && ClaimsJob(run[a], id)
    ensures
      var t := Exec(t0, run[..a + 1]);
      id in t && t[id].status.Running? && t[id].claimedBy == Some(run[a].event.worker)
  {
    Unfold(t0, start, run, a + 1);
  }

  /** What a heartbeat answers before transaction `b`: whether the job is running. */
  predicate HeartbeatAnswer(t0: Table, run: seq<Tx>, id: int, b: nat)
    requires b <= |run|
  {
    var t := Exec(t0, run[..b]);
    id in t && t[id].status.Running?
  }

  /** What it should: whether the job is running on the caller's claim, made at `mine`, with nothing after it. */
  predicate HeartbeatDocumented(t0: Table, run: seq<Tx>, id: int, mine: nat, b: nat)
    requires mine < b <= |run|
  {
    Unended(t0, run, id, mine, b) && forall k :: mine < k < b ==> !ClaimsJob(run[k], id)
  }

  /** A worker gets the documented answer exactly if nobody took the job over, or that claim has ended too. */
  lemma HeartbeatAsDocumentedIff(t0: Table, start: Time, run: seq<Tx>, id: int, mine: nat, last: nat, b: nat)
    requires IsRun(t0, start, run) && mine <= last < b <= |run|
    requires ClaimsJob(run[mine], id) && ClaimsJob(run[last], id)
    requires forall k :: last < k < b ==> !ClaimsJob(run[k], id)
    ensures (HeartbeatAnswer(t0, run, id, b) <==> HeartbeatDocumented(t0, run, id, mine, b))
       <==> mine == last || !Unended(t0, run, id, last, b)
  {
    hide IsRun, Enabled, EndsClaim, Apply;
    RunningUntilEnded(t0, start, run, id, last, b);
  }

  /** The lease moved is the new owner's: the first worker's heartbeat at 150 prolongs the second's lease to 240. */
  lemma HeartbeatAfterTakeover(q: Request)
    ensures
      var claims := [Tx(0, Claim(1, "w1", 90)), Tx(100, Claim(1, "w2", 90))];
      var run := [Tx(0, Enqueue(1, q))] + claims + [Tx(150, Heartbeat(1, 90))];
      && IsRun(map[], 0, run) && HeartbeatAnswer(map[], run, 1, 3) && !HeartbeatDocumented(map[], run, 1, 1, 3)
      && 1 in Exec(map[], run) && Exec(map[], run)[1].claimedBy == Some("w2")
      && Exec(map[], run)[1].leaseUntil == Some(240)
  {
    var e, c1, c2, h :=
      Tx(0, Enqueue(1, q)), Tx(0, Claim(1, "w1", 90)), Tx(100, Claim(1, "w2", 90)), Tx(150, Heartbeat(1, 90));
    var r0: seq<Tx> := [];
    var r1, r2, r3, r4 := [e], [e, c1], [e, c1, c2], [e, c1, c2, h];
    assert IsRun(map[], 0, r0) && Exec(map[], r0) == map[];
    assert r1[..0] == r0 && r2[..1] == r1 && r3[..2] == r2 && r4[..3] == r3;
    assert IsRun(map[], 0, r1);
    assert IsRun(map[], 0, r2);
    assert IsRun(map[], 0, r3);
    assert IsRun(map[], 0, r4);
    assert r4 == [e] + [c1, c2] + [h] && ClaimsJob(r4[2], 1);
  }

  // ---- Backoff --------------------------------------------------------------------------------

  predicate BackingOff(t: Table, id: int, due: Time, clock: Time)
  {
    id in t && t[id].nextAttemptAt == Some(due) && (t[id].status.Running? ==> due <= clock)
  }

  lemma StepKeepsBackoff(t: Table, tx: Tx, id: int, due: Time, clock: Time)
    requires BackingOff(t, id, due, clock) && Enabled(t, tx) && !RetriesJob(tx, id)
    requires IsShort(tx.event) ==> clock <= tx.now
    ensures BackingOff(Apply(t, tx), id, due, NextClock(clock, tx))
  {
  }

  lemma {:induction false} AfterRetry(t0: Table, start: Time, run: seq<Tx>, id: int, a: nat, b: nat)
    requires IsRun(t0, start, run) && a < b <= |run| && RetriesJob(run[a], id)
    requires NoRetry(run, id, a + 1, b) && id in Exec(t0, run[..a])
    ensures BackingOff(Exec(t0, run[..b]), id, run[a].now + run[a].event.delay, Clock(start, run[..b]))
    decreases b
  {
    Unfold(t0, start, run, b);
    if b > a + 1 {
      AfterRetry(t0, start, run, id, a, b - 1);
      StepKeepsBackoff(Exec(t0, run[..b - 1]), run[b - 1], id, run[a].now + run[a].event.delay,
        Clock(start, run[..b - 1]));
    }
  }

  /** A job retried at t with delay d is not claimed before t + d, however many claims and resets follow. */
  lemma BackoffRespected(t0: Table, start: Time, run: seq<Tx>, id: int, a: nat, b: nat)
    requires IsRun(t0, start, run) && a < b < |run| && RetriesJob(run[a], id) && ClaimsJob(run[b], id)
    requires NoRetry(run, id, a + 1, b) && id in Exec(t0, run[..a])
    ensures run[a].now + run[a].event.delay <= run[b].now
  {
    AfterRetry(t0, start, run, id, a, b);
    Prefix(t0, start, run, b);
  }

  // ---- Attempts -------------------------------------------------------------------------------

  function Claims(run: seq<Tx>, id: int): nat
  {
    if run == [] then 0
    else Claims(run[..|run| - 1], id) + if ClaimsJob(run[|run| - 1], id) then 1 else 0
  }

  /** `attempts` is its initial value plus the number of claims, and ids are never handed out twice. */
  lemma {:induction false} AttemptsCountClaims(t0: Table, start: Time, run: seq<Tx>, id: int)
    requires IsRun(t0, start, run)
    ensures var t := Exec(t0, run);
            if id in t0 then id in t && t[id].attempts == t0[id].attempts + Claims(run, id)
              && t[id].request == t0[id].request
            else if id in t then t[id].attempts == Claims(run, id) else Claims(run, id) == 0
    decreases |run|
  {
    if run != [] {
      AttemptsCountClaims(t0, start, run[..|run| - 1], id);
    }
  }

  // ---- Orphan reset ---------------------------------------------------------------------------

  predicate Settled(r: Row, clock: Time)
  {
    r.status.Running? ==> r.leaseUntil.Some? && (r.nextAttemptAt.None? || r.nextAttemptAt.value <= clock)
  }

  /** The inductive invariant: a running row has a lease and its due date, if any, is past. */
  lemma {:induction false} RunningIsSettled(t0: Table, start: Time, run: seq<Tx>)
    requires IsRun(t0, start, run)
    requires forall id :: id in t0 ==> Settled(t0[id], start)
    ensures forall id :: id in Exec(t0, run) ==> Settled(Exec(t0, run)[id], Clock(start, run))
    decreases |run|
  {
    if run != [] {
      var before := run[..|run| - 1];
      RunningIsSettled(t0, start, before);
      var t, t' := Exec(t0, before), Exec(t0, run);
      forall id | id in t'
        ensures Settled(t'[id], Clock(start, run))
      {
        assert id in t ==> Settled(t[id], Clock(start, before));
      }
    }
  }

  /** For one row, the reset changes when it can be claimed exactly if it is expired with a due date still to come. */
  lemma ResetChangesRow(t: Table, now: Time, id: int)
    requires id in t
    ensures (forall at: Time :: now <= at ==> (Claimable(ResetTable(t, now)[id], at) <==> Claimable(t[id], at)))
        <==> !(Expired(t[id], now) && t[id].nextAttemptAt.Some? && now < t[id].nextAttemptAt.value)
  {
    var r, r' := t[id], ResetTable(t, now)[id];
    if Expired(r, now) && r.nextAttemptAt.Some? && now < r.nextAttemptAt.value {
      assert Claimable(r, now) && !Claimable(r', now);
    }
  }

  /** In every run from an empty table, resetting the orphans never changes what is claimable, now or later. */
  lemma ResetKeepsClaimable(start: Time, run: seq<Tx>, now: Time, at: Time, id: int)
    requires IsRun(map[], start, run) && Clock(start, run) <= now <= at
    requires id in Exec(map[], run)
    ensures Claimable(ResetTable(Exec(map[], run), now)[id], at) <==> Claimable(Exec(map[], run)[id], at)
  {
    RunningIsSettled(map[], start, run);
    var t := Exec(map[], run);
    assert Settled(t[id], Clock(start, run));
    ResetChangesRow(t, now, id);
  }

  // ---- Finished jobs --------------------------------------------------------------------------

  predicate Finished(t: Table, id: int)
  {
    id in t && (t[id].status.Done? || t[id].status.Failed?) && t[id].leaseUntil.None?
  }

  lemma StepKeepsFinished(t: Table, tx: Tx, id: int)
    requires Finished(t, id) && Enabled(t, tx) && !RetriesJob(tx, id)
    ensures Finished(Apply(t, tx), id)
  {
  }

  lemma {:induction false} StaysFinished(t0: Table, start: Time, run: seq<Tx>, id: int, a: nat, b: nat)
    requires IsRun(t0, start, run) && a < b <= |run| && FinishesJob(run[a], id)
    requires NoRetry(run, id, a, b) && id in Exec(t0, run[..a])
    ensures Finished(Exec(t0, run[..b]), id)
    decreases b
  {
    Unfold(t0, start, run, b);
    if b > a + 1 {
      StaysFinished(t0, start, run, id, a, b - 1);
      StepKeepsFinished(Exec(t0, run[..b - 1]), run[b - 1], id);
    }
  }

  /** A finished job stays finished throughout a run exactly if nobody retries it. */
  lemma FinishedForeverIff(t0: Table, start: Time, run: seq<Tx>, id: int, a: nat)
    requires IsRun(t0, start, run) && a < |run| && FinishesJob(run[a], id) && id in Exec(t0, run[..a])
    ensures (forall b :: a < b <= |run| ==> Finished(Exec(t0, run[..b]), id)) <==> NoRetry(run, id, a + 1, |run|)
  {
    hide Finished, IsRun, Exec;
    if NoRetry(run, id, a + 1, |run|) {
      forall b | a < b <= |run|
        ensures Finished(Exec(t0, run[..b]), id)
      {
        StaysFinished(t0, start, run, id, a, b);
      }
    } else {
      var k :| a + 1 <= k < |run| && RetriesJob(run[k], id);
      Unfold(t0, start, run, k + 1);
      if Finished(Exec(t0, run[..k]), id) {
        RetryUnfinishes(Exec(t0, run[..k]), run[k], id);
      }
    }
  }

  lemma RetryUnfinishes(t: Table, tx: Tx, id: int)
    requires Finished(t, id) && RetriesJob(tx, id)
    ensures !Finished(Apply(t, tx), id)
  {
  }

  /** A job someone finished is claimed again only if someone retried it in between. */
  lemma ClaimedAfterFinishNeedsRetry(t0: Table, start: Time, run: seq<Tx>, id: int, a: nat, b: nat)
    requires IsRun(t0, start, run) && a < b < |run| && FinishesJob(run[a], id) && ClaimsJob(run[b], id)
    requires id in Exec(t0, run[..a])
    ensures exists k :: a < k < b && RetriesJob(run[k], id)
  {
    if forall k :: a < k < b ==> !RetriesJob(run[k], id) {
      StaysFinished(t0, start, run, id, a, b);
      Prefix(t0, start, run, b);
      assert false;
    }
  }

  /** ... and that happens: a zombie's retry revives a job that its new owner has completed. */
  lemma ZombieRetryRevives(q: Request)
    ensures exists run: seq<Tx> ::
              && |run| == 5 && IsRun(map[], 0, run)
              && run[1] == Tx(0, Claim(1, "w1", 90)) && run[2] == Tx(100, Claim(1, "w2", 90))
              && FinishesJob(run[3], 1) && RetriesJob(run[4], 1)
              && 1 in Exec(map[], run) && Exec(map[], run)[1].status.Pending?
  {
    var e := Tx(0, Enqueue(1, q));
    var c1, c2 := Tx(0, Claim(1, "w1", 90)), Tx(100, Claim(1, "w2", 90));
    var d, z := Tx(100, Complete(1, 7, false)), Tx(0, Retry(1, "429", 60));
    var r0: seq<Tx> := [];
    var r1, r2, r3, r4, r5 := [e], [e, c1], [e, c1, c2], [e, c1, c2, d], [e, c1, c2, d, z];
    assert IsRun(map[], 0, r0) && Exec(map[], r0) == map[];
    assert r1[..0] == r0 && r2[..1] == r1 && r3[..2] == r2 && r4[..3] == r3 && r5[..4] == r4;
    assert IsRun(map[], 0, r1);
    assert IsRun(map[], 0, r2);
    assert IsRun(map[], 0, r3);
    assert IsRun(map[], 0, r4);
    assert IsRun(map[], 0, r5);
  }
}
