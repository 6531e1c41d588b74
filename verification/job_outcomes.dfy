/**
 What becomes of a job, over every run: how it was enqueued, how it ended, what its last retry left, and that nobody but
 the workers' answers ends it.
 */
module JobOutcomes {
  import opened Wrappers

  import opened JobQueue

  /** The text as far as the column holds it. */
  predicate HeldText(stored: Option<string>, text: string)
  {
    if text == "" then stored.None?
    else stored.Some? && stored.value <= text && |stored.value| == (if |text| < 2000 then |text| else 2000)
  }

  predicate Enqueues(tx: Tx, id: int)
  {
    tx.event.Enqueue? && tx.event.id == id
  }

  /** Nothing that ends, claims or retries the job. */
  predicate Idle(run: seq<Tx>, id: int, a: nat, b: nat)
  {
    forall k :: a <= k < b && k < |run| ==>
      !FinishesJob(run[k], id) && !RetriesJob(run[k], id) && !ClaimsJob(run[k], id)
  }

  // ---- How a job ends ---------------------------------------------------------------------------------

  /** The row says what the transaction that finished it said. */
  predicate EndedBy(r: Row, tx: Tx)
  {
    match tx.event
    case Complete(_, sourceId, reused) =>
      && r.status.Done? && r.videoSourceId == Some(sourceId) && r.reused == Some(reused)
      && r.completedAt == Some(tx.now) && r.errorMessage.None? && r.leaseUntil.None?
    case Fail(_, error) =>
      && r.status.Failed? && HeldText(r.errorMessage, error) && r.completedAt == Some(tx.now) && r.leaseUntil.None?
    case _ => false
  }

  lemma FinishEnds(t: Table, tx: Tx, id: int)
    requires id in t && FinishesJob(tx, id)
    ensures id in Apply(t, tx) && EndedBy(Apply(t, tx)[id], tx)
  {
  }

  lemma StepKeepsEnd(t: Table, tx: Tx, last: Tx, id: int)
    requires id in t && EndedBy(t[id], last) && Enabled(t, tx) && !RetriesJob(tx, id) && !FinishesJob(tx, id)
    ensures id in Apply(t, tx) && EndedBy(Apply(t, tx)[id], last)
  {
  }

  /**
   A job is done if it was completed, with that source, and failed if it was failed, with that error, over every run in
   which nobody retries or finishes it again.
   */
  lemma {:induction false} EndsAsFinished(t0: Table, start: Time, run: seq<Tx>, id: int, a: nat, b: nat)
    requires IsRun(t0, start, run) && a < b <= |run| && FinishesJob(run[a], id) && id in Exec(t0, run[..a])
    requires NoRetry(run, id, a, b) && forall k :: a < k < b ==> !FinishesJob(run[k], id)
    ensures
      var t := Exec(t0, run[..b]);
      && id in t && EndedBy(t[id], run[a])
      && (t[id].status.Done? <==> run[a].event.Complete?) && (t[id].status.Failed? <==> run[a].event.Fail?)
    decreases b
  {
    hide Apply, Enabled, IsRun;
    Unfold(t0, start, run, b);
    if b > a + 1 {
      hide EndedBy;
      EndsAsFinished(t0, start, run, id, a, b - 1);
      StepKeepsEnd(Exec(t0, run[..b - 1]), run[b - 1], run[a], id);
      EndTells(Exec(t0, run[..b])[id], run[a]);
    } else {
      FinishEnds(Exec(t0, run[..a]), run[a], id);
    }
  }

  lemma EndTells(r: Row, tx: Tx)
    requires EndedBy(r, tx)
    ensures (r.status.Done? <==> tx.event.Complete?) && (r.status.Failed? <==> tx.event.Fail?)
  {
  }

  /** Only workers' answers end jobs: over every run from an empty table, an ended job has been finished. */
  lemma {:induction false} EndedWasFinished(start: Time, run: seq<Tx>, id: int)
    requires IsRun(map[], start, run) && id in Exec(map[], run)
    requires Exec(map[], run)[id].status.Done? || Exec(map[], run)[id].status.Failed?
    ensures exists k :: 0 <= k < |run| && FinishesJob(run[k], id)
    decreases |run|
  {
    if run != [] {
      var before := run[..|run| - 1];
      if !FinishesJob(run[|run| - 1], id) {
        EndedWasFinished(start, before, id);
        var k :| 0 <= k < |before| && FinishesJob(before[k], id);
        assert FinishesJob(run[k], id);
      }
    }
  }

  // ---- What the last transaction on a job leaves ------------------------------------------------------

  /** New, unclaimed, and to be done as asked. */
  predicate New(r: Row, tx: Tx)
  {
    && tx.event.Enqueue? && r.request == tx.event.request && r.createdAt == tx.now && r.status.Pending?
    && r.attempts == 0 && r.claimedBy.None? && r.leaseUntil.None? && r.nextAttemptAt.None? && r.errorMessage.None?
    && r.videoSourceId.None? && r.reused.None? && r.completedAt.None?
  }

  /** Waiting for another try, with the error of the last one. */
  predicate Waiting(r: Row, tx: Tx)
  {
    && tx.event.Retry? && r.status.Pending? && r.claimedBy.None? && r.leaseUntil.None?
    && r.nextAttemptAt == Some(tx.now + tx.event.delay) && HeldText(r.errorMessage, tx.event.error)
  }

  lemma EnqueuedIsNew(t: Table, tx: Tx, id: int)
    requires Enabled(t, tx) && Enqueues(tx, id)
    ensures id in Apply(t, tx) && New(Apply(t, tx)[id], tx)
  {
  }

  lemma RetriedWaits(t: Table, tx: Tx, id: int)
    requires id in t && RetriesJob(tx, id)
    ensures id in Apply(t, tx) && Waiting(Apply(t, tx)[id], tx)
  {
  }

  lemma StepKeepsWaiting(t: Table, tx: Tx, last: Tx, id: int)
    requires id in t && (New(t[id], last) || Waiting(t[id], last)) && Enabled(t, tx)
    requires !RetriesJob(tx, id) && !FinishesJob(tx, id) && !ClaimsJob(tx, id)
    ensures id in Apply(t, tx) && Apply(t, tx)[id] == t[id]
  {
  }

  /** From its enqueuing or a retry on, a job waits as that left it until somebody claims, retries or finishes it. */
  lemma {:induction false} WaitsUntilClaimed(t0: Table, start: Time, run: seq<Tx>, id: int, a: nat, b: nat)
    requires IsRun(t0, start, run) && a < b <= |run| && Idle(run, id, a + 1, b)
    requires Enqueues(run[a], id) || (RetriesJob(run[a], id) && id in Exec(t0, run[..a]))
    ensures
      var t := Exec(t0, run[..b]);
      id in t && if run[a].event.Enqueue? then New(t[id], run[a]) else Waiting(t[id], run[a])
    decreases b
  {
    hide Apply, Enabled, IsRun, New, Waiting;
    Unfold(t0, start, run, b);
    if b > a + 1 {
      WaitsUntilClaimed(t0, start, run, id, a, b - 1);
      StepKeepsWaiting(Exec(t0, run[..b - 1]), run[b - 1], run[a], id);
    } else if Enqueues(run[a], id) {
      EnqueuedIsNew(Exec(t0, run[..a]), run[a], id);
    } else {
      RetriedWaits(Exec(t0, run[..a]), run[a], id);
    }
  }

  /** A job keeps its place in the queue and its request for good. */
  lemma {:induction false} KeepsItsPlace(t0: Table, start: Time, run: seq<Tx>, id: int, a: nat, b: nat)
    requires IsRun(t0, start, run) && a < b <= |run| && Enqueues(run[a], id)
    ensures
      var t := Exec(t0, run[..b]);
      id in t && t[id].createdAt == run[a].now && t[id].request == run[a].event.request
    decreases b
  {
    Unfold(t0, start, run, b);
    if b > a + 1 {
      KeepsItsPlace(t0, start, run, id, a, b - 1);
    }
  }

  /** A running job has a worker, a waiting one has none, and an ended one has an end. */
  lemma {:induction false} ClaimedIfRunning(start: Time, run: seq<Tx>, id: int)
    requires IsRun(map[], start, run) && id in Exec(map[], run)
    ensures
      var r := Exec(map[], run)[id];
      && (r.status.Running? ==> r.claimedBy.Some?) && (r.status.Pending? ==> r.claimedBy.None?)
      && (r.completedAt.Some? <== r.status.Done? || r.status.Failed?)
    decreases |run|
  {
    if run != [] && id in Exec(map[], run[..|run| - 1]) {
      ClaimedIfRunning(start, run[..|run| - 1], id);
    }
  }

  /** A transaction stamps the row it changes, and leaves the jobs it does not name alone. */
  lemma ChangeIsStamped(t: Table, tx: Tx, id: int)
    requires id in t && Enabled(t, tx)
    ensures id in Apply(t, tx) && (Apply(t, tx)[id] == t[id] || Apply(t, tx)[id].updatedAt == tx.now)
    ensures !tx.event.ResetOrphans? && tx.event.id != id ==> Apply(t, tx)[id] == t[id]
    ensures tx.event.ResetOrphans? && Apply(t, tx)[id] != t[id] ==>
              t[id].status.Running? && t[id].leaseUntil.Some? && t[id].leaseUntil.value < tx.now
  {
  }

  /** The queue is fair: whatever it claims, no unlocked job that was claimable then was enqueued earlier. */
  lemma ClaimIsOldest(
    start: Time, run: seq<Tx>, now: Time, locked: set<int>, id: int, other: int, a: nat, b: nat)
    requires IsRun(map[], start, run) && IsNext(Exec(map[], run), now, locked, id)
    requires a < |run| && b < |run| && Enqueues(run[a], id) && Enqueues(run[b], other)
    requires other !in locked && other in Exec(map[], run) && Claimable(Exec(map[], run)[other], now)
    ensures run[a].now <= run[b].now
  {
    KeepsItsPlace(map[], start, run, id, a, |run|);
    KeepsItsPlace(map[], start, run, other, b, |run|);
    assert run[..|run|] == run;
  }
}
