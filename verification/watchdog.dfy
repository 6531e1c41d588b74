/**
 The pipeline watchdog (`pipeline_watchdog.py`): every pod scans for stale rows, claims each candidate
 with a conditional UPDATE and resumes it, up to `maxRetries` times per row. A user may ask for
 a pass that ignores the cap.

 The scan tests the retry cap, the claim does not, and several pods may hold the same row from scans
 made before anyone resumed it. The theorems give the exact bound for any number of pods and any settings.
 */
module Watchdog {
  import opened Wrappers

  type Time = int // seconds
  type RowId = int

  /** The environment's settings, in seconds where they are durations. */
  datatype Settings = Settings(staleAfter: nat, lease: nat, scanLimit: nat, maxAge: nat, maxRetries: nat)

  const HISTORY_LIMIT := 5

  datatype Status =
    | Pending | Transferring | Transcoding | KeventQueued | KeventTranscribing | KeventProcessing | KeventReprocessing
    | McrImportPending | KeventFailed | Failed | McrImportFailed | Completed | OtherTerminal

  predicate NonTerminal(s: Status)
  {
    !RetryableTerminal(s) && !s.Completed? && !s.OtherTerminal?
  }

  /** The terminal statuses a user may ask to retry. */
  predicate RetryableTerminal(s: Status)
  {
    s.KeventFailed? || s.Failed? || s.McrImportFailed?
  }

  datatype ErrorKind = McrUnavailableOnSource | S3ObjectPurged | S3NoAudioPath | CapExceeded | OtherKind

  datatype HistoryEntry = HistoryEntry(version: int, at: Time, prevStatus: Status)

  datatype Row = Row(
    owner: string,
    status: Status,
    createdAt: Time,
    lastActivityAt: Option<Time>,
    claimAt: Option<Time>,
    claimPod: Option<string>,
    errorKind: Option<ErrorKind>,
    version: int,
    history: seq<HistoryEntry>)

  type Table = map<RowId, Row>

  // ---- The statements -----------------------------------------------------------------------------

  predicate Stale(c: Settings, r: Row, now: Time)
  {
    r.lastActivityAt.None? || r.lastActivityAt.value < now - c.staleAfter
  }

  predicate ClaimFree(c: Settings, r: Row, now: Time)
  {
    r.claimAt.None? || r.claimAt.value < now - c.lease
  }

  /** What a scan is asked for: a manual one, with `includeFailed`, knows neither the cap nor the stale delay. */
  datatype Request = Request(includeFailed: bool, user: Option<string>, limit: nat)

  /** The WHERE clause of the scan. */
  predicate Candidate(c: Settings, q: Request, r: Row, now: Time)
  {
    && (NonTerminal(r.status) || (q.includeFailed && RetryableTerminal(r.status)))
    && (q.includeFailed || Stale(c, r, now)) && now - c.maxAge < r.createdAt && ClaimFree(c, r, now)
    && (r.errorKind.None? || r.errorKind.value !in {McrUnavailableOnSource, S3ObjectPurged, S3NoAudioPath})
    && (q.includeFailed || r.version < c.maxRetries) && (q.user.None? || r.owner == q.user.value)
  }

  /** ORDER BY last_activity_at ASC NULLS FIRST */
  predicate Before(a: Row, b: Row)
  {
    a.lastActivityAt.None? || (b.lastActivityAt.Some? && a.lastActivityAt.value <= b.lastActivityAt.value)
  }

  /** A result the scan may return: distinct candidates in order, the first ones up to the limit. */
  ghost predicate IsScan(c: Settings, q: Request, t: Table, now: Time, ids: seq<RowId>)
  {
    && |ids| <= q.limit
    && (forall i :: 0 <= i < |ids| ==> ids[i] in t && Candidate(c, q, t[ids[i]], now))
    && (forall i, j :: 0 <= i < j < |ids| ==> ids[i] != ids[j] && Before(t[ids[i]], t[ids[j]]))
    && (forall id :: id in t && Candidate(c, q, t[id], now) && id !in ids ==>
          |ids| == q.limit && forall i :: 0 <= i < |ids| ==> Before(t[ids[i]], t[id]))
  }

  predicate Distinct(ids: seq<RowId>)
  {
    forall i, j :: 0 <= i < j < |ids| ==> ids[i] != ids[j]
  }

  /** Distinct rows whose claim is free, as every scan returns them. */
  predicate FreeRows(c: Settings, t: Table, now: Time, ids: seq<RowId>)
  {
    Distinct(ids) && forall i :: 0 <= i < |ids| ==> ids[i] in t && ClaimFree(c, t[ids[i]], now)
  }

  lemma ScanFindsFreeRows(c: Settings, q: Request, t: Table, now: Time, ids: seq<RowId>)
    requires IsScan(c, q, t, now, ids)
    ensures FreeRows(c, t, now, ids)
  {
  }

  function Claimed(r: Row, now: Time, pod: string): Row
  {
    r.(claimAt := Some(now), claimPod := Some(if |pod| <= 128 then pod else pod[..128]))
  }

  /** The history with one more entry, cut to the last five. */
  function Recorded(r: Row, now: Time): seq<HistoryEntry>
  {
    var history := r.history + [HistoryEntry(r.version, now, r.status)];
    if |history| > HISTORY_LIMIT then history[|history| - HISTORY_LIMIT..] else history
  }

  /** The reset that precedes the republication; the claim is kept. */
  function Resumed(r: Row, now: Time): Row
  {
    r.(status := McrImportPending, lastActivityAt := Some(now), version := r.version + 1, history := Recorded(r, now))
  }

  predicate Capped(c: Settings, r: Row, now: Time)
  {
    NonTerminal(r.status) && c.maxRetries <= r.version && Stale(c, r, now)
  }

  function MarkCapped(c: Settings, t: Table, now: Time): Table
  {
    map id | id in t ::
      if Capped(c, t[id], now)
      then t[id].(status := KeventFailed, lastActivityAt := Some(now), claimAt := None, claimPod := None,
        errorKind := Some(CapExceeded))
      else t[id]
  }

  // ---- One pod, undisturbed -----------------------------------------------------------------------

  /** What resuming a claimed row comes to: reset and published, reset but not published, not reset, or an exception. */
  datatype ResumeOutcome = DidReset | PublishFailed | ResetFailed | Raised

  /** The reset is committed before the publication, so it stands when that fails. */
  predicate Commits(o: ResumeOutcome)
  {
    o.DidReset? || o.PublishFailed?
  }

  /** The row after one candidate of a pass has been handled. */
  function Handled(r: Row, at: Time, pod: string, o: ResumeOutcome): Row
  {
    var claimed := Claimed(r, at, pod);
    if Commits(o) then Resumed(claimed, at) else claimed
  }

  /** The candidates whose resumption did not raise, in order. */
  function Survivors(ids: seq<RowId>, outcome: RowId -> ResumeOutcome): seq<RowId>
  {
    if ids == [] then []
    else Survivors(ids[..|ids| - 1], outcome) + if outcome(ids[|ids| - 1]).Raised? then [] else [ids[|ids| - 1]]
  }

  lemma {:induction false} SurvivorsExact(ids: seq<RowId>, outcome: RowId -> ResumeOutcome, id: RowId)
    ensures id in Survivors(ids, outcome) <==> id in ids && !outcome(id).Raised?
  {
    if ids != [] {
      SurvivorsExact(ids[..|ids| - 1], outcome, id);
      assert ids == ids[..|ids| - 1] + [ids[|ids| - 1]];
    }
  }

  class Store {
    const settings: Settings
    var rows: Table

    constructor (c: Settings, t: Table)
      ensures settings == c && rows == t
    {
      settings, rows := c, t;
    }

    method TryClaim(id: RowId, now: Time, pod: string) returns (won: bool)
      modifies this
      ensures won <==> id in old(rows) && ClaimFree(settings, old(rows)[id], now)
      ensures rows == if won then old(rows)[id := Claimed(old(rows)[id], now, pod)] else old(rows)
    {
      won := id in rows && ClaimFree(settings, rows[id], now);
      if won {
        rows := rows[id := Claimed(rows[id], now, pod)];
      }
    }

    method ResumeMcrImport(id: RowId, now: Time, outcome: ResumeOutcome) returns (httpCode: int)
      modifies this
      ensures rows == if id in old(rows) && Commits(outcome) then old(rows)[id := Resumed(old(rows)[id], now)]
              else old(rows)
      ensures id in old(rows) && Commits(outcome) ==>
                rows[id].status == McrImportPending && rows[id].lastActivityAt == Some(now)
      ensures httpCode == if id !in old(rows) then 404 else if outcome.DidReset? then 202 else 500
    {
      if id !in rows {
        return 404;
      }
      if !Commits(outcome) {
        return 500;
      }
      var r := rows[id];
      var history := r.history + [HistoryEntry(r.version, now, r.status)];
      if |history| > HISTORY_LIMIT {
        history := history[|history| - HISTORY_LIMIT..];
      }
      rows := rows[id := r.(status := McrImportPending, lastActivityAt := Some(now), version := r.version + 1,
        history := history)];
      return if outcome.PublishFailed? then 500 else 202;
    }

    method MarkCappedAsFailed(now: Time) returns (count: nat)
      modifies this
      ensures rows == MarkCapped(settings, old(rows), now)
      ensures count == |set id | id in old(rows) && Capped(settings, old(rows)[id], now)|
    {
      var hit := set id | id in rows && Capped(settings, rows[id], now);
      rows := map id | id in rows ::
        if id in hit
        then rows[id].(status := KeventFailed, lastActivityAt := Some(now), claimAt := None, claimPod := None,
          errorKind := Some(CapExceeded))
        else rows[id];
      count := |hit|;
    }

    /** The loop body of scan_and_resume: False if the row is skipped. */
    method ClaimAndResume(id: RowId, now: Time, pod: string, outcome: ResumeOutcome) returns (done: bool)
      modifies this
      ensures done <==> id in old(rows) && ClaimFree(settings, old(rows)[id], now) && !outcome.Raised?
      ensures rows == if id in old(rows) && ClaimFree(settings, old(rows)[id], now)
                      then old(rows)[id := Handled(old(rows)[id], now, pod, outcome)] else old(rows)
    {
      var won := TryClaim(id, now, pod);
      if !won || outcome.Raised? {
        return false;
      }
      var code := ResumeMcrImport(id, now, outcome);
      return true;
    }

    /**
     Claims and resumes the candidates of a scan made at `scannedAt`; `clock(k)` is the time of the k-th claim.
     With no other pod in between every claim is won, so the only rows skipped are those whose resumption raised.
     */
    method ScanAndResume(q: Request, scannedAt: Time, candidates: seq<RowId>, pod: string, clock: nat -> Time,
        outcome: RowId -> ResumeOutcome)
      returns (resumed: seq<RowId>, skipped: nat)
      requires IsScan(settings, q, rows, scannedAt, candidates)
      requires forall k: nat :: scannedAt <= clock(k)
      modifies this
      ensures resumed == Survivors(candidates, outcome) && |resumed| + skipped == |candidates|
      ensures rows == Pass(old(rows), candidates, pod, clock, outcome)
    {
      hide IsScan, Candidate, Handled;
      ScanFindsFreeRows(settings, q, rows, scannedAt, candidates);
      resumed, skipped := [], 0;
      for i := 0 to |candidates|
        invariant resumed == Survivors(candidates[..i], outcome) && |resumed| + skipped == i
        invariant rows == Pass(old(rows), candidates[..i], pod, clock, outcome)
      {
        var id := candidates[i];
        assert candidates[..i + 1][..i] == candidates[..i] && candidates[..i + 1][i] == id;
        assert id !in candidates[..i];
        PassLeaves(old(rows), candidates[..i], pod, clock, outcome, id);
        assert ClaimFree(settings, rows[id], scannedAt);
        var done := ClaimAndResume(id, clock(i), pod, outcome(id));
        if done {
          resumed := resumed + [id];
        } else {
          skipped := skipped + 1;
        }
      }
      assert candidates[..|candidates|] == candidates;
    }
  }

  /** The table after a pass, candidate by candidate. */
  function Pass(t: Table, ids: seq<RowId>, pod: string, clock: nat -> Time, outcome: RowId -> ResumeOutcome): Table
  {
    if ids == [] then t
    else
      var n := |ids| - 1;
      var before := Pass(t, ids[..n], pod, clock, outcome);
      if ids[n] in before then before[ids[n] := Handled(before[ids[n]], clock(n), pod, outcome(ids[n]))] else before
  }

  lemma {:induction false} PassLeaves(t: Table, ids: seq<RowId>, pod: string, clock: nat -> Time,
      outcome: RowId -> ResumeOutcome, id: RowId)
    requires id !in ids
    ensures var t' := Pass(t, ids, pod, clock, outcome); t'.Keys == t.Keys && (id in t ==> t'[id] == t[id])
    decreases |ids|
  {
    if ids != [] {
      PassLeaves(t, ids[..|ids| - 1], pod, clock, outcome, id);
    }
  }

  /** A pass handles every candidate once, each on the row the scan saw, and counts it at most one resume. */
  lemma {:induction false} PassHandlesEach(t: Table, ids: seq<RowId>, pod: string, clock: nat -> Time,
      outcome: RowId -> ResumeOutcome, k: nat)
    requires Distinct(ids) && k < |ids| && ids[k] in t
    ensures var t' := Pass(t, ids, pod, clock, outcome);
            && ids[k] in t' && t'[ids[k]] == Handled(t[ids[k]], clock(k), pod, outcome(ids[k]))
            && t'[ids[k]].version == t[ids[k]].version + (if Commits(outcome(ids[k])) then 1 else 0)
    decreases |ids|
  {
    var n := |ids| - 1;
    if k == n {
      PassLeaves(t, ids[..n], pod, clock, outcome, ids[k]);
    } else {
      PassHandlesEach(t, ids[..n], pod, clock, outcome, k);
    }
  }

  // ---- N pods -------------------------------------------------------------------------------------

  /** A pod in its pass: the candidates left, if the first is claimed, and whether the pass ignores the cap. */
  datatype Pod = Pod(todo: seq<RowId>, claimed: bool, manual: bool)

  /** `manual` counts the resumes that users asked for. */
  datatype System = System(rows: Table, pods: seq<Pod>, clock: Time, manual: multiset<RowId>)

  datatype Step =
    | Scan(pod: nat, q: Request, ids: seq<RowId>)
    | TryClaim(pod: nat)
    | Resume(pod: nat, outcome: ResumeOutcome)
    | Restart(pod: nat)               // the process dies, its candidates are forgotten
    | MarkCappedRows
    | Elsewhere(id: RowId, row: Row)  // any other component writes the row, without counting a resume
    | Reprocess(id: RowId, row: Row)  // a user has the file processed again, outside the watchdog
    | Created(id: RowId, row: Row)

  datatype Timed = Timed(now: Time, step: Step)

  const Idle := Pod([], false, false)

  ghost predicate Enabled(c: Settings, s: System, e: Timed)
  {
    s.clock <= e.now &&
    match e.step
    case Scan(p, q, ids) => p < |s.pods| && s.pods[p].todo == [] && IsScan(c, q, s.rows, e.now, ids)
    case TryClaim(p) => p < |s.pods| && s.pods[p].todo != [] && !s.pods[p].claimed
    case Resume(p, _) => p < |s.pods| && s.pods[p].todo != [] && s.pods[p].claimed
    case Restart(p) => p < |s.pods|
    case MarkCappedRows => true
    case Elsewhere(id, row) => id in s.rows && row.version == s.rows[id].version && row.history == s.rows[id].history
    case Reprocess(id, row) =>
      && id in s.rows && row.version == s.rows[id].version + 1 && row.history == Recorded(s.rows[id], e.now)
      && row.claimAt == s.rows[id].claimAt
    case Created(id, row) => id !in s.rows && row.version == 0 && row.history == []
  }

  function PodName(p: nat): string
  {
    if p == 0 then "pod" else PodName(p - 1) + "+"
  }

  function Next(c: Settings, s: System, e: Timed): System
  {
    var now := e.now;
    var s := s.(clock := now);
    match e.step
    case Scan(p, q, ids) =>
      if p < |s.pods| then s.(pods := s.pods[p := Pod(ids, false, q.includeFailed)]) else s
    case TryClaim(p) =>
      if p < |s.pods| && s.pods[p].todo != [] then
        var id := s.pods[p].todo[0];
        if id in s.rows && ClaimFree(c, s.rows[id], now)
        then s.(rows := s.rows[id := Claimed(s.rows[id], now, PodName(p))],
          pods := s.pods[p := s.pods[p].(claimed := true)])
        else s.(pods := s.pods[p := s.pods[p].(todo := s.pods[p].todo[1..], claimed := false)])
      else s
    case Resume(p, outcome) =>
      if p < |s.pods| && s.pods[p].todo != [] then
        var id := s.pods[p].todo[0];
        var s' := s.(pods := s.pods[p := s.pods[p].(todo := s.pods[p].todo[1..], claimed := false)]);
        if id in s.rows && Commits(outcome)
        then s'.(rows := s.rows[id := Resumed(s.rows[id], now)],
          manual := if s.pods[p].manual then s.manual + multiset{id} else s.manual)
        else s'
      else s
    case Restart(p) => if p < |s.pods| then s.(pods := s.pods[p := Idle]) else s
    case MarkCappedRows => s.(rows := MarkCapped(c, s.rows, now))
    case Elsewhere(id, row) => s.(rows := s.rows[id := row])
    case Reprocess(id, row) => s.(rows := s.rows[id := row], manual := s.manual + multiset{id})
    case Created(id, row) => s.(rows := s.rows[id := row])
  }

  function Exec(c: Settings, s: System, run: seq<Timed>): System
  {
    if run == [] then s else Next(c, Exec(c, s, run[..|run| - 1]), run[|run| - 1])
  }

  ghost predicate IsRun(c: Settings, s: System, run: seq<Timed>)
  {
    run == [] || (IsRun(c, s, run[..|run| - 1]) && Enabled(c, Exec(c, s, run[..|run| - 1]), run[|run| - 1]))
  }

  /** Everybody idle, and no row beyond the cap. */
  predicate Initial(c: Settings, s: System)
  {
    (forall p :: 0 <= p < |s.pods| ==> s.pods[p] == Idle)
      && (forall id :: id in s.rows ==> s.rows[id].version <= c.maxRetries)
  }

  predicate Holds(pod: Pod, id: RowId)
  {
    !pod.manual && id in pod.todo
  }

  /** The pods that still hold the row from an earlier scan under the cap. */
  function Holders(pods: seq<Pod>, id: RowId): (n: nat)
    ensures n <= |pods|
  {
    if pods == [] then 0 else (if Holds(pods[0], id) then 1 else 0) + Holders(pods[1..], id)
  }

  lemma {:induction false} HoldersUpdate(pods: seq<Pod>, p: nat, pod: Pod, id: RowId)
    requires p < |pods|
    ensures Holders(pods[p := pod], id)
         == Holders(pods, id) - (if Holds(pods[p], id) then 1 else 0) + (if Holds(pod, id) then 1 else 0)
  {
    if p > 0 {
      assert pods[p := pod][1..] == pods[1..][p - 1 := pod];
      HoldersUpdate(pods[1..], p - 1, pod, id);
    } else {
      assert pods[p := pod][1..] == pods[1..];
    }
  }

  /** Resumes made and resumes still in the making stay below the cap plus the pods and the resumes users asked for. */
  predicate RowBound(c: Settings, s: System, id: RowId)
  {
    id in s.rows ==> s.rows[id].version + Holders(s.pods, id) <= c.maxRetries - 1 + |s.pods| + s.manual[id]
  }

  ghost predicate Inv(c: Settings, s: System)
  {
    (forall p :: 0 <= p < |s.pods| ==> Distinct(s.pods[p].todo)) && (forall id :: RowBound(c, s, id))
    && forall p, id :: 0 <= p < |s.pods| && id in s.pods[p].todo ==> id in s.rows
  }

  lemma PodStepKeepsInv(c: Settings, s: System, e: Timed)
    requires Inv(c, s) && Enabled(c, s, e) && (e.step.Scan? || e.step.TryClaim? || e.step.Resume? || e.step.Restart?)
    ensures Inv(c, Next(c, s, e))
  {
    var s', p := Next(c, s, e), e.step.pod;
    var before, after := s.pods[p].todo, s'.pods[p].todo;
    assert e.step.Scan? || e.step.Restart? || after == before || after == before[1..];
    forall id
      ensures RowBound(c, s', id)
    {
      HoldersUpdate(s.pods, p, s'.pods[p], id);
      assert RowBound(c, s, id);
      if e.step.Scan? && id in e.step.ids {
        var i :| 0 <= i < |e.step.ids| && e.step.ids[i] == id;
        assert Candidate(c, e.step.q, s.rows[id], e.now);
      }
      if e.step.Resume? && id == before[0] {
        assert id in before && id !in after;
      }
    }
  }

  lemma StepKeepsInv(c: Settings, s: System, e: Timed)
    requires Inv(c, s) && Enabled(c, s, e) && |s.pods| > 0
    ensures Inv(c, Next(c, s, e)) && |Next(c, s, e).pods| == |s.pods|
  {
    var s' := Next(c, s, e);
    if e.step.Scan? || e.step.TryClaim? || e.step.Resume? || e.step.Restart? {
      PodStepKeepsInv(c, s, e);
    } else {
      forall id
        ensures RowBound(c, s', id)
      {
        assert RowBound(c, s, id);
        if e.step.Created? && id == e.step.id {
          NobodyHolds(id, s.pods);
        }
      }
    }
  }

  lemma {:induction false} NobodyHolds(id: RowId, pods: seq<Pod>)
    requires forall p :: 0 <= p < |pods| ==> id !in pods[p].todo
    ensures Holders(pods, id) == 0
  {
    if pods != [] {
      NobodyHolds(id, pods[1..]);
    }
  }

  lemma {:induction false} RunKeepsInv(c: Settings, s: System, run: seq<Timed>)
    requires Initial(c, s) && IsRun(c, s, run) && |s.pods| > 0
    ensures Inv(c, Exec(c, s, run)) && |Exec(c, s, run).pods| == |s.pods|
    decreases |run|
  {
    if run == [] {
      forall id
        ensures RowBound(c, s, id)
      {
        NobodyHolds(id, s.pods);
      }
    } else {
      RunKeepsInv(c, s, run[..|run| - 1]);
      StepKeepsInv(c, Exec(c, s, run[..|run| - 1]), run[|run| - 1]);
    }
  }

  /**
   Over every run of N pods: the resumes made plus the pods still holding the row are at most `maxRetries` - 1 + N plus
   the resumes of it that users asked for.
   */
  lemma ResumesAreBounded(c: Settings, s: System, run: seq<Timed>, id: RowId)
    requires Initial(c, s) && IsRun(c, s, run) && |s.pods| > 0 && id in Exec(c, s, run).rows
    ensures
      var t := Exec(c, s, run);
      t.rows[id].version + Holders(t.pods, id) <= c.maxRetries - 1 + |s.pods| + t.manual[id]
  {
    RunKeepsInv(c, s, run);
    assert RowBound(c, Exec(c, s, run), id);
  }

  /** One pod never passes the cap by itself. */
  lemma OnePodKeepsCap(c: Settings, s: System, run: seq<Timed>, id: RowId)
    requires Initial(c, s) && IsRun(c, s, run) && |s.pods| == 1 && id in Exec(c, s, run).rows
    ensures Exec(c, s, run).rows[id].version <= c.maxRetries + Exec(c, s, run).manual[id]
  {
    ResumesAreBounded(c, s, run, id);
  }

  // ---- The bound is reached -------------------------------------------------------------------------

  const T0: Time := 1000

  /** One row, resumed `maxRetries` - 1 times so far and stale. */
  function LastChance(c: Settings): Row
  {
    Row("", McrImportPending, T0, None, None, None, None, c.maxRetries - 1, [])
  }

  /** What the automatic pass asks for. */
  function Automatic(c: Settings): Request
  {
    Request(false, None, c.scanLimit)
  }

  /** A cap, a batch and an age that let the scan find a row at all. */
  predicate ScansFind(c: Settings)
  {
    c.maxRetries > 0 && c.scanLimit > 0 && c.maxAge > 0
  }

  function Race(c: Settings, n: nat): System
  {
    System(map[1 := LastChance(c)], seq(n, _ => Idle), T0, multiset{})
  }

  /**
   The race: every pod scans at once; then one after the other claims and resumes, each waiting out the lease of the one
   before. This is where it stands after that many scans and resumes.
   */
  ghost predicate RaceState(c: Settings, s: System, n: nat, scans: nat, resumes: nat)
  {
    && |s.pods| == n && resumes <= scans <= n
    && s.clock == T0 + resumes * (c.lease + 1)
    && (forall p :: 0 <= p < n ==> s.pods[p] == Pod(if resumes <= p < scans then [1] else [], false, false))
    && s.manual == multiset{} && s.rows.Keys == {1} && s.rows[1].version == c.maxRetries - 1 + resumes
    && (resumes == 0 ==> s.rows[1] == LastChance(c))
    && (resumes > 0 ==> s.rows[1].claimAt == Some(s.clock))
  }

  lemma Extend(c: Settings, s0: System, run: seq<Timed>, s: System, e: Timed) returns (run': seq<Timed>)
    requires IsRun(c, s0, run) && s == Exec(c, s0, run) && Enabled(c, s, e)
    ensures IsRun(c, s0, run') && Exec(c, s0, run') == Next(c, s, e)
  {
    run' := run + [e];
    assert run'[..|run|] == run;
  }

  lemma RaceScans(c: Settings, s: System, n: nat, scans: nat)
    requires ScansFind(c) && scans < n && RaceState(c, s, n, scans, 0)
    ensures var e := Timed(T0, Scan(scans, Automatic(c), [1]));
            Enabled(c, s, e) && RaceState(c, Next(c, s, e), n, scans + 1, 0)
  {
    assert Candidate(c, Automatic(c), LastChance(c), T0) && IsScan(c, Automatic(c), s.rows, T0, [1]);
  }

  lemma RaceClaims(c: Settings, s: System, n: nat, scans: nat, resumes: nat)
    requires resumes < scans && RaceState(c, s, n, scans, resumes)
    ensures
      var e := Timed(T0 + (resumes + 1) * (c.lease + 1), TryClaim(resumes));
      var s' := Next(c, s, e);
      && Enabled(c, s, e) && s'.clock == e.now && s'.manual == s.manual
      && s'.rows.Keys == {1} && s'.rows[1].version == s.rows[1].version && s'.rows[1].claimAt == Some(e.now)
      && s'.pods == s.pods[resumes := Pod([1], true, false)]
  {
    assert s.pods[resumes].todo == [1];
    assert ClaimFree(c, s.rows[1], T0 + (resumes + 1) * (c.lease + 1));
  }

  lemma RaceResumes(c: Settings, s: System, s': System, n: nat, scans: nat, resumes: nat)
    requires resumes < scans && RaceState(c, s, n, scans, resumes)
    requires s'.clock == T0 + (resumes + 1) * (c.lease + 1) && s'.manual == s.manual
    requires s'.rows.Keys == {1} && s'.rows[1].version == s.rows[1].version && s'.rows[1].claimAt == Some(s'.clock)
    requires s'.pods == s.pods[resumes := Pod([1], true, false)]
    ensures var e := Timed(s'.clock, Resume(resumes, DidReset));
            Enabled(c, s', e) && RaceState(c, Next(c, s', e), n, scans, resumes + 1)
  {
    var e := Timed(s'.clock, Resume(resumes, DidReset));
    assert s'.pods[resumes].todo[1..] == [];
    assert Next(c, s', e).rows == s'.rows[1 := Resumed(s'.rows[1], e.now)];
  }

  lemma {:induction false} Raced(c: Settings, n: nat, scans: nat, resumes: nat) returns (run: seq<Timed>, s: System)
    requires ScansFind(c) && resumes <= scans <= n
    ensures IsRun(c, Race(c, n), run) && s == Exec(c, Race(c, n), run) && RaceState(c, s, n, scans, resumes)
    decreases scans + resumes
  {
    if resumes > 0 {
      run, s := Raced(c, n, scans, resumes - 1);
      var at := T0 + resumes * (c.lease + 1);
      RaceClaims(c, s, n, scans, resumes - 1);
      var claimed := Next(c, s, Timed(at, TryClaim(resumes - 1)));
      RaceResumes(c, s, claimed, n, scans, resumes - 1);
      run := Extend(c, Race(c, n), run, s, Timed(at, TryClaim(resumes - 1)));
      run := Extend(c, Race(c, n), run, claimed, Timed(at, Resume(resumes - 1, DidReset)));
      s := Next(c, claimed, Timed(at, Resume(resumes - 1, DidReset)));
    } else if scans > 0 {
      run, s := Raced(c, n, scans - 1, 0);
      RaceScans(c, s, n, scans - 1);
      run := Extend(c, Race(c, n), run, s, Timed(T0, Scan(scans - 1, Automatic(c), [1])));
      s := Next(c, s, Timed(T0, Scan(scans - 1, Automatic(c), [1])));
    } else {
      run, s := [], Race(c, n);
    }
  }

  /** ... and after it, a user asks for the row to be processed again, `forced` times. */
  lemma {:induction false} Forced(c: Settings, n: nat, forced: nat) returns (run: seq<Timed>, s: System)
    requires ScansFind(c)
    ensures IsRun(c, Race(c, n), run) && s == Exec(c, Race(c, n), run)
    ensures 1 in s.rows && s.rows[1].version == c.maxRetries - 1 + n + forced && s.manual[1] == forced
  {
    if forced == 0 {
      run, s := Raced(c, n, n, n);
    } else {
      run, s := Forced(c, n, forced - 1);
      var row := s.rows[1].(version := s.rows[1].version + 1, history := Recorded(s.rows[1], s.clock));
      var e := Timed(s.clock, Reprocess(1, row));
      run := Extend(c, Race(c, n), run, s, e);
      s := Next(c, s, e);
    }
  }

  /**
   The bound is tight for every number of pods and of resumes users asked for, so "at most `maxRetries`" is false from
   two pods on.
   */
  lemma BoundIsTight(c: Settings, n: nat, forced: nat)
    requires n > 0 && ScansFind(c)
    ensures exists s: System, run ::
              && Initial(c, s) && |s.pods| == n && IsRun(c, s, run) && 1 in Exec(c, s, run).rows
              && Exec(c, s, run).manual[1] == forced
              && Exec(c, s, run).rows[1].version == c.maxRetries - 1 + n + forced
  {
    var run, s := Forced(c, n, forced);
    assert Initial(c, Race(c, n));
  }

  // ---- Claims ---------------------------------------------------------------------------------------

  /** The step at `k` is a claim of `id` that is won. */
  ghost predicate Wins(c: Settings, s: System, run: seq<Timed>, k: nat, id: RowId)
    requires k < |run|
  {
    var t := Exec(c, s, run[..k]);
    var e := run[k].step;
    && e.TryClaim? && e.pod < |t.pods| && t.pods[e.pod].todo != [] && t.pods[e.pod].todo[0] == id
    && id in t.rows && ClaimFree(c, t.rows[id], run[k].now)
  }

  /** Nobody but the watchdog claim writes the lease of `id` between the two steps. */
  predicate LeaseUntouched(run: seq<Timed>, a: nat, b: nat, id: RowId)
    requires a <= b <= |run|
  {
    forall k :: a <= k < b ==> !run[k].step.MarkCappedRows? && !(run[k].step.Elsewhere? && run[k].step.id == id)
  }

  lemma {:induction false} PrefixIsRun(c: Settings, s: System, run: seq<Timed>, k: nat)
    requires IsRun(c, s, run) && k <= |run|
    ensures IsRun(c, s, run[..k])
    ensures k < |run| ==> Enabled(c, Exec(c, s, run[..k]), run[k])
    decreases |run|
  {
    if k == |run| {
      assert run[..k] == run;
    } else {
      assert run[..|run| - 1][..k] == run[..k];
      PrefixIsRun(c, s, run[..|run| - 1], k);
    }
  }

  lemma StepKeepsLease(c: Settings, s: System, e: Timed, id: RowId, since: Time)
    requires Enabled(c, s, e) && id in s.rows && s.rows[id].claimAt.Some? && since <= s.rows[id].claimAt.value
    requires since <= s.clock
    requires !e.step.MarkCappedRows? && !(e.step.Elsewhere? && e.step.id == id)
    ensures var s' := Next(c, s, e);
            && id in s'.rows && s'.rows[id].claimAt.Some?
            && since <= s'.rows[id].claimAt.value && since <= s'.clock
  {
  }

  lemma {:induction false} LeaseSince(c: Settings, s: System, run: seq<Timed>, a: nat, b: nat, id: RowId)
    requires IsRun(c, s, run) && a < b <= |run| && Wins(c, s, run, a, id) && LeaseUntouched(run, a, b, id)
    ensures var t := Exec(c, s, run[..b]);
            id in t.rows && t.rows[id].claimAt.Some? && run[a].now <= t.rows[id].claimAt.value && run[a].now <= t.clock
    decreases b
  {
    PrefixIsRun(c, s, run, b - 1);
    assert run[..b][..b - 1] == run[..b - 1] && run[..b][b - 1] == run[b - 1];
    if b > a + 1 {
      LeaseSince(c, s, run, a, b - 1, id);
      StepKeepsLease(c, Exec(c, s, run[..b - 1]), run[b - 1], id, run[a].now);
    }
  }

  /** Two claims of one row are won more than a lease apart, whichever pods win them. */
  lemma ClaimsAreApart(c: Settings, s: System, run: seq<Timed>, a: nat, b: nat, id: RowId)
    requires IsRun(c, s, run) && a < b < |run| && Wins(c, s, run, a, id) && Wins(c, s, run, b, id)
    requires LeaseUntouched(run, a, b, id)
    ensures run[a].now + c.lease < run[b].now
  {
    LeaseSince(c, s, run, a, b, id);
  }

  // ---- History --------------------------------------------------------------------------------------

  /** At most five entries, and consecutive versions ending just below the current one. */
  predicate HistoryOk(r: Row)
  {
    && |r.history| <= HISTORY_LIMIT
    && forall i :: 0 <= i < |r.history| ==> r.history[i].version == r.version - |r.history| + i
  }

  lemma StepKeepsHistory(c: Settings, s: System, e: Timed, id: RowId)
    requires Enabled(c, s, e) && (id in s.rows ==> HistoryOk(s.rows[id])) && id in Next(c, s, e).rows
    ensures HistoryOk(Next(c, s, e).rows[id])
  {
    hide IsScan, ClaimFree, PodName, Capped;
  }

  /** Over every run the history of a row stays in step with its version. */
  lemma {:induction false} HistoryFollowsVersion(c: Settings, s: System, run: seq<Timed>)
    requires IsRun(c, s, run) && forall id :: id in s.rows ==> HistoryOk(s.rows[id])
    ensures forall id :: id in Exec(c, s, run).rows ==> HistoryOk(Exec(c, s, run).rows[id])
    decreases |run|
  {
    hide HistoryOk, Next, Enabled;
    if run != [] {
      var t, e := Exec(c, s, run[..|run| - 1]), run[|run| - 1];
      HistoryFollowsVersion(c, s, run[..|run| - 1]);
      forall id | id in Next(c, t, e).rows
        ensures HistoryOk(Next(c, t, e).rows[id])
      {
        StepKeepsHistory(c, t, e, id);
      }
    }
  }
}
