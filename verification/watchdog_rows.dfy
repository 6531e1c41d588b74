/**
 What the watchdog leaves in a row, written out: after a pass, after one resume among many pods, after the cap; and when
 the automatic scan may look at the row again.
 */
module WatchdogRows {
  import opened Wrappers

  import opened Watchdog

  /** The row is under way again since `at`: its status, its times, one more resume, and the rest as it was. */
  predicate StartedOver(r: Row, r': Row, at: Time)
  {
    && r'.status == McrImportPending && r'.lastActivityAt == Some(at) && r'.version == r.version + 1
    && r'.owner == r.owner && r'.createdAt == r.createdAt && r'.errorKind == r.errorKind
    && Remembers(r, r', at)
  }

  /** The last entry is the status and version left behind, and before it come the newest four of the old ones. */
  predicate Remembers(r: Row, r': Row, at: Time)
  {
    var n, n' := |r.history|, |r'.history|;
    && n' == (if n < 5 then n + 1 else 5)
    && r'.history[n' - 1] == HistoryEntry(r.version, at, r.status)
    && forall i :: 0 <= i < n' - 1 ==> r'.history[i] == r.history[n - (n' - 1) + i]
  }

  predicate ClaimedBy(r: Row, at: Time, pod: string)
  {
    r.claimAt == Some(at) && r.claimPod.Some? && r.claimPod.value <= pod
      && (|r.claimPod.value| == 128 || (r.claimPod.value == pod && |pod| < 128))
  }

  /** Only the claim was written. */
  predicate OnlyClaimed(r: Row, r': Row)
  {
    && r'.status == r.status && r'.lastActivityAt == r.lastActivityAt && r'.version == r.version
    && r'.owner == r.owner && r'.createdAt == r.createdAt && r'.errorKind == r.errorKind && r'.history == r.history
  }

  /** A pass claims each of its candidates, and starts over exactly those whose reset was committed. */
  lemma PassLeavesRow(t: Table, ids: seq<RowId>, pod: string, clock: nat -> Time, outcome: RowId -> ResumeOutcome,
      k: nat)
    requires Distinct(ids) && k < |ids| && ids[k] in t
    ensures
      var r, t' := t[ids[k]], Pass(t, ids, pod, clock, outcome);
      && ids[k] in t' && ClaimedBy(t'[ids[k]], clock(k), pod)
      && if outcome(ids[k]).DidReset? || outcome(ids[k]).PublishFailed?
         then StartedOver(r, t'[ids[k]], clock(k)) else OnlyClaimed(r, t'[ids[k]])
  {
    PassHandlesEach(t, ids, pod, clock, outcome, k);
    HandledRow(t[ids[k]], clock(k), pod, outcome(ids[k]));
  }

  lemma HandledRow(r: Row, at: Time, pod: string, o: ResumeOutcome)
    ensures
      var r' := Handled(r, at, pod, o);
      && ClaimedBy(r', at, pod)
      && if o.DidReset? || o.PublishFailed? then StartedOver(r, r', at) else OnlyClaimed(r, r')
  {
  }

  // ---- One step among many pods -----------------------------------------------------------------------

  /** The row a pod is at. */
  predicate At(s: System, p: nat, id: RowId)
  {
    p < |s.pods| && s.pods[p].todo != [] && s.pods[p].todo[0] == id
  }

  /** The step resumes the row and its reset is committed. */
  predicate Restarts(s: System, e: Timed, id: RowId)
  {
    e.step.Resume? && At(s, e.step.pod, id) && id in s.rows
      && (e.step.outcome.DidReset? || e.step.outcome.PublishFailed?)
  }

  predicate Claims(c: Settings, s: System, e: Timed, id: RowId)
  {
    e.step.TryClaim? && At(s, e.step.pod, id) && id in s.rows
      && (s.rows[id].claimAt.None? || s.rows[id].claimAt.value + c.lease < e.now)
  }

  /** The cap is enforced on the row: unfinished, out of resumes and idle for longer than `staleAfter`. */
  predicate Caps(c: Settings, s: System, e: Timed, id: RowId)
  {
    e.step.MarkCappedRows? && id in s.rows && c.maxRetries <= s.rows[id].version
      && !(s.rows[id].status in {KeventFailed, Failed, McrImportFailed, Completed, OtherTerminal})
      && (s.rows[id].lastActivityAt.None? || s.rows[id].lastActivityAt.value + c.staleAfter < e.now)
  }

  /** The row has just been failed for being out of resumes. */
  predicate CapRow(r: Row, r': Row, at: Time)
  {
    && r'.status == KeventFailed && r'.lastActivityAt == Some(at) && r'.claimAt.None? && r'.claimPod.None?
    && r'.errorKind == Some(CapExceeded)
    && r'.version == r.version && r'.history == r.history && r'.owner == r.owner && r'.createdAt == r.createdAt
  }

  /** What one step of the system does to a row: everything it can be. */
  lemma StepLeavesRow(c: Settings, s: System, e: Timed, id: RowId)
    requires Enabled(c, s, e) && id in s.rows
    ensures
      var r, s' := s.rows[id], Next(c, s, e);
      && id in s'.rows
      && if Restarts(s, e, id) then
           StartedOver(r, s'.rows[id], e.now) && s'.rows[id].claimAt == r.claimAt && s'.rows[id].claimPod == r.claimPod
         else if Claims(c, s, e, id) then
           ClaimedBy(s'.rows[id], e.now, PodName(e.step.pod)) && OnlyClaimed(r, s'.rows[id])
         else if Caps(c, s, e, id) then CapRow(r, s'.rows[id], e.now)
         else if (e.step.Elsewhere? || e.step.Reprocess?) && e.step.id == id then s'.rows[id] == e.step.row
         else s'.rows[id] == r
  {
    hide IsScan, PodName;
  }

  // ---- When the scan may look again --------------------------------------------------------------------

  /** What the automatic scan requires of a row, by its times and counts. */
  predicate Due(c: Settings, r: Row, now: Time)
  {
    && !(r.status in {KeventFailed, Failed, McrImportFailed, Completed, OtherTerminal})
    && (r.lastActivityAt.Some? ==> c.staleAfter < now - r.lastActivityAt.value)
    && now - r.createdAt < c.maxAge
    && (r.claimAt.Some? ==> c.lease < now - r.claimAt.value)
    && !(r.errorKind in {Some(McrUnavailableOnSource), Some(S3ObjectPurged), Some(S3NoAudioPath)})
    && r.version < c.maxRetries
  }

  /** ... and what a user's does: failed rows too, however often resumed and however recently active. */
  predicate Wanted(c: Settings, user: Option<string>, r: Row, now: Time)
  {
    && !(r.status in {Completed, OtherTerminal})
    && now - r.createdAt < c.maxAge
    && (r.claimAt.Some? ==> c.lease < now - r.claimAt.value)
    && !(r.errorKind in {Some(McrUnavailableOnSource), Some(S3ObjectPurged), Some(S3NoAudioPath)})
    && (user == None || user == Some(r.owner))
  }

  /** A scan with room to spare finds exactly the rows that are due; one that is full prefers none idle for less. */
  lemma ScanFindsDue(c: Settings, t: Table, now: Time, ids: seq<RowId>, id: RowId)
    requires IsScan(c, Automatic(c), t, now, ids) && id in t
    ensures id in ids ==> Due(c, t[id], now)
    ensures Due(c, t[id], now) && id !in ids ==>
              && |ids| == c.scanLimit
              && forall i :: 0 <= i < |ids| ==>
                   t[ids[i]].lastActivityAt.None?
                   || (t[id].lastActivityAt.Some? && t[ids[i]].lastActivityAt.value <= t[id].lastActivityAt.value)
  {
    if Due(c, t[id], now) && id !in ids {
      assert Candidate(c, Automatic(c), t[id], now);
    }
  }

  lemma ManualScanFindsWanted(c: Settings, q: Request, t: Table, now: Time, ids: seq<RowId>, id: RowId)
    requires q.includeFailed && IsScan(c, q, t, now, ids) && id in t
    ensures id in ids ==> Wanted(c, q.user, t[id], now)
    ensures Wanted(c, q.user, t[id], now) && id !in ids ==> |ids| == q.limit
  {
    if Wanted(c, q.user, t[id], now) && id !in ids {
      assert Candidate(c, q, t[id], now);
    }
  }

  /** Nobody but the watchdog writes the row between the two steps. */
  predicate Undisturbed(run: seq<Timed>, a: nat, b: nat, id: RowId)
    requires a <= b <= |run|
  {
    forall k :: a <= k < b ==> !((run[k].step.Elsewhere? || run[k].step.Reprocess?) && run[k].step.id == id)
  }

  /** The row has been active no earlier than `since`. */
  predicate ActiveSince(s: System, id: RowId, since: Time)
  {
    id in s.rows && s.rows[id].lastActivityAt.Some? && since <= s.rows[id].lastActivityAt.value && since <= s.clock
  }

  lemma StepKeepsActive(c: Settings, s: System, e: Timed, id: RowId, since: Time)
    requires Enabled(c, s, e) && ActiveSince(s, id, since)
    requires !((e.step.Elsewhere? || e.step.Reprocess?) && e.step.id == id)
    ensures ActiveSince(Next(c, s, e), id, since)
  {
    StepLeavesRow(c, s, e, id);
    ClockMoves(c, s, e);
    hide Next, Enabled;
  }

  lemma ClockMoves(c: Settings, s: System, e: Timed)
    requires Enabled(c, s, e)
    ensures s.clock <= e.now == Next(c, s, e).clock
  {
    hide IsScan, PodName, MarkCapped;
  }

  lemma {:induction false} StaysActive(c: Settings, s: System, run: seq<Timed>, a: nat, b: nat, id: RowId)
    requires IsRun(c, s, run) && a < b <= |run|
    requires Restarts(Exec(c, s, run[..a]), run[a], id) || Caps(c, Exec(c, s, run[..a]), run[a], id)
    requires Undisturbed(run, a, b, id)
    ensures ActiveSince(Exec(c, s, run[..b]), id, run[a].now)
    decreases b
  {
    hide Next, Enabled, Restarts, Caps;
    PrefixIsRun(c, s, run, b - 1);
    assert run[..b][..b - 1] == run[..b - 1] && run[..b][b - 1] == run[b - 1];
    if b > a + 1 {
      StaysActive(c, s, run, a, b - 1, id);
      StepKeepsActive(c, Exec(c, s, run[..b - 1]), run[b - 1], id, run[a].now);
    } else {
      StartsActive(c, Exec(c, s, run[..a]), run[a], id);
    }
  }

  lemma StartsActive(c: Settings, s: System, e: Timed, id: RowId)
    requires Enabled(c, s, e) && (Restarts(s, e, id) || Caps(c, s, e, id))
    ensures ActiveSince(Next(c, s, e), id, e.now)
  {
    StepLeavesRow(c, s, e, id);
    ClockMoves(c, s, e);
    hide Next, Enabled;
  }

  /** A resumed row rests: no automatic scan has it again before `staleAfter` is over, if nobody else writes it. */
  lemma ResumedRowRests(c: Settings, s: System, run: seq<Timed>, a: nat, b: nat, id: RowId)
    requires IsRun(c, s, run) && a < b < |run| && Restarts(Exec(c, s, run[..a]), run[a], id)
    requires run[b].step.Scan? && run[b].step.q == Automatic(c) && id in run[b].step.ids
    requires Undisturbed(run, a, b, id)
    ensures run[a].now + c.staleAfter < run[b].now
  {
    hide Exec, IsRun, Restarts;
    StaysActive(c, s, run, a, b, id);
    PrefixIsRun(c, s, run, b);
    var t := Exec(c, s, run[..b]);
    ScanFindsDue(c, t.rows, run[b].now, run[b].step.ids, id);
  }

  /** A failed row that a user has resumed is unfinished again, so the automatic pass looks after it from then on. */
  lemma RestartedIsUnfinished(c: Settings, s: System, e: Timed, id: RowId)
    requires Enabled(c, s, e) && Restarts(s, e, id)
    ensures NonTerminal(Next(c, s, e).rows[id].status)
  {
    StepLeavesRow(c, s, e, id);
    hide Next, Enabled;
  }

  predicate OutOfResumes(c: Settings, s: System, id: RowId)
  {
    id in s.rows && s.rows[id].status == KeventFailed && c.maxRetries <= s.rows[id].version
  }

  lemma StepKeepsOut(c: Settings, s: System, e: Timed, id: RowId)
    requires Enabled(c, s, e) && OutOfResumes(c, s, id) && !Restarts(s, e, id)
    requires !((e.step.Elsewhere? || e.step.Reprocess?) && e.step.id == id)
    ensures OutOfResumes(c, Next(c, s, e), id)
  {
    StepLeavesRow(c, s, e, id);
    hide Next, Enabled;
  }

  lemma {:induction false} StaysOut(c: Settings, s: System, run: seq<Timed>, a: nat, b: nat, id: RowId)
    requires IsRun(c, s, run) && a < b <= |run| && Caps(c, Exec(c, s, run[..a]), run[a], id)
    requires Undisturbed(run, a, b, id) && forall k :: a < k < b ==> !Restarts(Exec(c, s, run[..k]), run[k], id)
    ensures OutOfResumes(c, Exec(c, s, run[..b]), id)
    decreases b
  {
    hide Next, Enabled, Restarts, Caps;
    PrefixIsRun(c, s, run, b - 1);
    assert run[..b][..b - 1] == run[..b - 1] && run[..b][b - 1] == run[b - 1];
    if b > a + 1 {
      StaysOut(c, s, run, a, b - 1, id);
      StepKeepsOut(c, Exec(c, s, run[..b - 1]), run[b - 1], id);
    } else {
      CapsOut(c, Exec(c, s, run[..a]), run[a], id);
    }
  }

  lemma CapsOut(c: Settings, s: System, e: Timed, id: RowId)
    requires Enabled(c, s, e) && Caps(c, s, e, id)
    ensures OutOfResumes(c, Next(c, s, e), id)
  {
    StepLeavesRow(c, s, e, id);
    hide Next, Enabled;
  }

  /** A row failed for being out of resumes is seen by no automatic scan until somebody resumes or rewrites it. */
  lemma CappedRowIsLeft(c: Settings, s: System, run: seq<Timed>, a: nat, b: nat, id: RowId)
    requires IsRun(c, s, run) && a < b < |run| && Caps(c, Exec(c, s, run[..a]), run[a], id)
    requires Undisturbed(run, a, b, id) && forall k :: a < k < b ==> !Restarts(Exec(c, s, run[..k]), run[k], id)
    requires run[b].step.Scan? && !run[b].step.q.includeFailed
    ensures id !in run[b].step.ids
  {
    hide Exec, IsRun, Restarts, Caps;
    StaysOut(c, s, run, a, b, id);
    PrefixIsRun(c, s, run, b);
    FailedIsNoCandidate(c, run[b].step.q, Exec(c, s, run[..b]).rows[id], run[b].now);
  }

  lemma FailedIsNoCandidate(c: Settings, q: Request, r: Row, now: Time)
    requires r.status == KeventFailed && !q.includeFailed
    ensures !Candidate(c, q, r, now)
  {
  }

  /** ... but a user can have it resumed at once, while it is young enough. */
  lemma CappedRowCanBeWanted(c: Settings, s: System, e: Timed, id: RowId, now: Time)
    requires Enabled(c, s, e) && Caps(c, s, e, id)
    ensures
      var r := Next(c, s, e).rows[id];
      Wanted(c, None, r, now) <==> now - r.createdAt < c.maxAge
  {
    StepLeavesRow(c, s, e, id);
    hide Next, Enabled;
  }
}
