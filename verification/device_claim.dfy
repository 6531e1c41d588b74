/**
 The first-device-wins claim of an upload session (`_claim_device_for_session` in the mobile upload
 PWA): a read, a conditional UPDATE, a re-read if the update matched nothing, then a counter reset.
 Requests of several replicas interleave between these statements.

 What the re-read sees is a parameter. The code means the committed row; but the session factory sets
 expire_on_commit=False (libs/shared/app/database.py:19), with which an ORM session may hand back the
 instance its first read loaded. `ExclusiveExactlyIfFresh` says what hangs on it.
 */
module DeviceClaim {
  import opened Wrappers

  datatype Reread = Committed | Cached

  datatype Reason = NoDeviceId | NotFound | ClaimedByOther | Done | ErrorIgnored

  datatype Pc =
    | Start
    | SawFree                              // read claimed_by_device_id as NULL
    | Lost                                 // the UPDATE matched no row
    | Passed                               // on its way to the counter reset
    | Finished(ok: bool, reason: Reason)

  datatype Request = Request(device: string, pc: Pc)

  /** The session row (None if there is none) and the requests so far. */
  datatype Row = Row(claimedBy: Option<string>, failedAttempts: nat)

  datatype World = World(row: Option<Row>, requests: map<int, Request>)

  datatype Step =
    | Arrive(r: int, device: string)
    | Read(r: int)
    | Update(r: int)
    | ReadAgain(r: int)
    | Reset(r: int)
    | Error(r: int)          // an exception in any statement: logged, and the upload goes on
    | FailedAttempt          // another handler counts a failed code

  predicate Enabled(w: World, s: Step)
  {
    match s
    case Arrive(r, _) => r !in w.requests
    case Read(r) => r in w.requests && w.requests[r].pc.Start?
    case Update(r) => r in w.requests && w.requests[r].pc.SawFree?
    case ReadAgain(r) => r in w.requests && w.requests[r].pc.Lost?
    case Reset(r) => r in w.requests && w.requests[r].pc.Passed?
    case Error(r) => r in w.requests && !w.requests[r].pc.Finished?
    case FailedAttempt => w.row.Some?
  }

  function AfterRead(device: string, row: Option<Row>): Pc
  {
    if device == "" then Finished(true, NoDeviceId)
    else if row.None? then Finished(false, NotFound)
    else if row.value.claimedBy.None? then SawFree
    else if row.value.claimedBy.value != device then Finished(false, ClaimedByOther)
    else Passed
  }

  /** `seen` is the claim the re-read finds on the row, if the row is there. */
  function AfterReread(device: string, seen: Option<string>): Pc
  {
    if seen.Some? && seen.value != device then Finished(false, ClaimedByOther) else Passed
  }

  function Goto(w: World, r: int, pc: Pc): World
    requires r in w.requests
  {
    w.(requests := w.requests[r := w.requests[r].(pc := pc)])
  }

  function Next(w: World, s: Step, reread: Reread): World
  {
    if !Enabled(w, s) then w else
    match s
    case Arrive(r, device) => w.(requests := w.requests[r := Request(device, Start)])
    case Read(r) => Goto(w, r, AfterRead(w.requests[r].device, w.row))
    case Update(r) =>
      if w.row.Some? && w.row.value.claimedBy.None?
      then Goto(w, r, Passed).(row := Some(w.row.value.(claimedBy := Some(w.requests[r].device))))
      else Goto(w, r, Lost)
    case ReadAgain(r) =>
      // a cached instance still holds the NULL that led here
      var seen := if reread.Committed? && w.row.Some? then w.row.value.claimedBy else None;
      Goto(w, r, AfterReread(w.requests[r].device, seen))
    case Reset(r) =>
      Goto(w, r, Finished(true, Done)).(row := if w.row.Some? then Some(w.row.value.(failedAttempts := 0)) else None)
    case Error(r) => Goto(w, r, Finished(true, ErrorIgnored))
    case FailedAttempt => w.(row := Some(w.row.value.(failedAttempts := w.row.value.failedAttempts + 1)))
  }

  function Exec(w: World, run: seq<Step>, reread: Reread): World
  {
    if run == [] then w else Next(Exec(w, run[..|run| - 1], reread), run[|run| - 1], reread)
  }

  // ---- One request, undisturbed ---------------------------------------------------------------------

  class SessionStore {
    var row: Option<Row>

    constructor (row: Option<Row>)
      ensures this.row == row
    {
      this.row := row;
    }

    /** With nobody in between, the claim goes to the first device, stays there, and clears the failure counter. */
    method ClaimDevice(device: string) returns (ok: bool, reason: Reason)
      modifies this
      ensures device == "" ==> ok && reason == NoDeviceId && row == old(row)
      ensures device != "" && old(row).None? ==> !ok && reason == NotFound && row == old(row)
      ensures device != "" && old(row).Some? ==>
                if old(row).value.claimedBy in {None, Some(device)}
                then ok && reason == Done && row == Some(Row(Some(device), 0))
                else !ok && reason == ClaimedByOther && row == old(row)
    {
      if device == "" {
        return true, NoDeviceId;
      }
      if row.None? {
        return false, NotFound;
      }
      if row.value.claimedBy.Some? && row.value.claimedBy.value != device {
        return false, ClaimedByOther;
      }
      if row.value.claimedBy.None? {
        row := Some(row.value.(claimedBy := Some(device)));
      }
      row := Some(row.value.(failedAttempts := 0));
      return true, Done;
    }
  }

  // ---- All interleavings ----------------------------------------------------------------------------

  predicate EndedOk(w: World, r: int)
  {
    r in w.requests && w.requests[r].pc == Finished(true, Done)
  }

  predicate HoldsClaim(w: World, device: string)
  {
    w.row.Some? && w.row.value.claimedBy == Some(device)
  }

  /** Whoever is past the claim holds it; whoever lost the update lost it to somebody. */
  predicate Inv(w: World)
  {
    forall r :: r in w.requests ==>
      var q := w.requests[r];
      && (q.pc.Passed? || q.pc == Finished(true, Done) ==> HoldsClaim(w, q.device))
      && (q.pc.Lost? ==> w.row.Some? && w.row.value.claimedBy.Some?)
      && (q.pc.SawFree? ==> w.row.Some?)
  }

  lemma StepKeepsInv(w: World, s: Step)
    requires Inv(w)
    ensures Inv(Next(w, s, Committed))
  {
  }

  lemma {:induction false} RunKeepsInv(w: World, run: seq<Step>)
    requires Inv(w)
    ensures Inv(Exec(w, run, Committed))
    decreases |run|
  {
    if run != [] {
      RunKeepsInv(w, run[..|run| - 1]);
      StepKeepsInv(Exec(w, run[..|run| - 1], Committed), run[|run| - 1]);
    }
  }

  /** However the requests interleave, all those that end with "ok" carry one device id, the one on the row. */
  lemma OkMeansOneDevice(row: Option<Row>, run: seq<Step>, a: int, b: int)
    requires var w := Exec(World(row, map[]), run, Committed); EndedOk(w, a) && EndedOk(w, b)
    ensures var w := Exec(World(row, map[]), run, Committed);
            w.requests[a].device == w.requests[b].device && HoldsClaim(w, w.requests[a].device)
  {
    RunKeepsInv(World(row, map[]), run);
  }

  /** A claim, once on the row, never changes, whatever the re-read sees. */
  lemma {:induction false} ClaimNeverChanges(w: World, run: seq<Step>, reread: Reread, device: string)
    requires HoldsClaim(w, device)
    ensures HoldsClaim(Exec(w, run, reread), device)
    decreases |run|
  {
    if run != [] {
      ClaimNeverChanges(w, run[..|run| - 1], reread, device);
    }
  }

  /** Two requests of different devices that end with "ok". */
  ghost predicate Shared(row: Option<Row>, run: seq<Step>, reread: Reread)
  {
    var w := Exec(World(row, map[]), run, reread);
    exists a, b :: EndedOk(w, a) && EndedOk(w, b) && w.requests[a].device != w.requests[b].device
  }

  lemma ExecTwo(w: World, run: seq<Step>, s: Step, t: Step, reread: Reread)
    ensures Exec(w, run + [s] + [t], reread) == Next(Next(Exec(w, run, reread), s, reread), t, reread)
  {
    assert (run + [s])[..|run|] == run && (run + [s] + [t])[..|run| + 1] == run + [s];
  }

  /** Two devices read before either updates; the second loses the update. */
  lemma BothRead() returns (run: seq<Step>)
    ensures Exec(World(Some(Row(None, 0)), map[]), run, Cached)
         == World(Some(Row(Some("d1"), 0)), map[1 := Request("d1", Passed), 2 := Request("d2", Lost)])
  {
    var w := World(Some(Row(None, 0)), map[]);
    run := [];
    ExecTwo(w, run, Arrive(1, "d1"), Arrive(2, "d2"), Cached);
    run := run + [Arrive(1, "d1")] + [Arrive(2, "d2")];
    ExecTwo(w, run, Read(1), Read(2), Cached);
    run := run + [Read(1)] + [Read(2)];
    ExecTwo(w, run, Update(1), Update(2), Cached);
    run := run + [Update(1)] + [Update(2)];
  }

  /** With a cached re-read both of them end with "ok". */
  lemma CachedRereadShares()
    ensures exists row, run :: Shared(row, run, Cached)
  {
    var row := Some(Row(None, 0));
    var w := World(row, map[]);
    var before := BothRead();
    var reset := before + [ReadAgain(2)] + [Reset(1)];
    ExecTwo(w, before, ReadAgain(2), Reset(1), Cached);
    var run := reset + [Reset(2)];
    assert run[..|reset|] == reset;
    var end := Exec(w, run, Cached);
    assert EndedOk(end, 1) && EndedOk(end, 2) && end.requests[1].device != end.requests[2].device;
    assert Shared(row, run, Cached);
  }

  /** One device per session in every run: exactly if the re-read sees the committed row. */
  lemma ExclusiveExactlyIfFresh(reread: Reread)
    ensures reread.Committed? <==> !exists row, run :: Shared(row, run, reread)
  {
    if reread.Committed? {
      forall row, run | Shared(row, run, reread)
        ensures false
      {
        var w := Exec(World(row, map[]), run, reread);
        var a, b :| EndedOk(w, a) && EndedOk(w, b) && w.requests[a].device != w.requests[b].device;
        OkMeansOneDevice(row, run, a, b);
      }
    } else {
      CachedRereadShares();
    }
  }

  // ---- The counter, and exceptions --------------------------------------------------------------------

  /** The failed codes counted from step a on. */
  function FailedCodes(run: seq<Step>, a: nat): nat
    requires a <= |run|
  {
    if |run| == a then 0
    else FailedCodes(run[..|run| - 1], a) + if run[|run| - 1].FailedAttempt? then 1 else 0
  }

  /** From a reset on, the counter counts the failed codes, until the next reset. */
  lemma {:induction false} CounterCountsFromReset(w: World, run: seq<Step>, reread: Reread, a: nat)
    requires a < |run| && run[a].Reset? && Enabled(Exec(w, run[..a], reread), run[a])
    requires Exec(w, run[..a], reread).row.Some? && forall k :: a < k < |run| ==> !run[k].Reset?
    ensures Exec(w, run, reread).row.Some?
    ensures Exec(w, run, reread).row.value.failedAttempts == FailedCodes(run, a + 1)
    decreases |run|
  {
    var before := run[..|run| - 1];
    if |run| > a + 1 {
      assert before[..a] == run[..a];
      CounterCountsFromReset(w, before, reread, a);
    } else {
      assert before == run[..a];
    }
  }

  /** An exception lets the upload through, with the claim as it is and nothing counted. */
  lemma ErrorLetsThrough(w: World, r: int, reread: Reread)
    requires r in w.requests && !w.requests[r].pc.Finished?
    ensures var w' := Next(w, Error(r), reread);
            w'.row == w.row && w'.requests == w.requests[r := w.requests[r].(pc := Finished(true, ErrorIgnored))]
  {
  }

  // ---- What a cached re-read still gives --------------------------------------------------------------

  /** Request `r` read the session before anybody had claimed it. */
  ghost predicate ReadFree(row: Option<Row>, run: seq<Step>, reread: Reread, r: int)
  {
    exists i :: 0 <= i < |run| && ReadsFree(Exec(World(row, map[]), run[..i], reread), run[i], r)
  }

  predicate ReadsFree(w: World, s: Step, r: int)
  {
    && s == Read(r) && Enabled(w, s) && w.requests[r].device != ""
    && w.row.Some? && w.row.value.claimedBy.None?
  }

  lemma ReadFreeSnoc(row: Option<Row>, run: seq<Step>, reread: Reread, r: int)
    requires run != []
    ensures var before := run[..|run| - 1];
            var w := Exec(World(row, map[]), before, reread);
            ReadFree(row, run, reread, r) <==> ReadFree(row, before, reread, r) || ReadsFree(w, run[|run| - 1], r)
  {
    hide ReadsFree, Exec;
    var n := |run| - 1;
    var before := run[..n];
    forall i | 0 <= i < n
      ensures before[..i] == run[..i]
    {
    }
    if i :| 0 <= i < n && ReadsFree(Exec(World(row, map[]), before[..i], reread), before[i], r) {
      assert ReadsFree(Exec(World(row, map[]), run[..i], reread), run[i], r);
    }
  }

  /** Where a request is, given whether it read the session free; `mayPass` says that a lost update does not stop it. */
  predicate Placed(w: World, q: Request, readFree: bool, mayPass: bool)
  {
    match q.pc
    case Start => !readFree
    case SawFree => readFree && w.row.Some?
    case Lost => readFree && w.row.Some? && w.row.value.claimedBy.Some?
    case Passed => w.row.Some? && w.row.value.claimedBy.Some? && (HoldsClaim(w, q.device) || (readFree && mayPass))
    case Finished(_, Done) => w.row.Some? && w.row.value.claimedBy.Some?
      && (HoldsClaim(w, q.device) || (readFree && mayPass))
    case Finished(_, ClaimedByOther) =>
      w.row.Some? && w.row.value.claimedBy.Some? && !HoldsClaim(w, q.device) && (readFree ==> !mayPass)
    case Finished(_, ErrorIgnored) => true
    case Finished(_, _) => !readFree
  }

  lemma StepPlaces(w: World, s: Step, reread: Reread, r: int, readFree: bool)
    requires r in w.requests ==> Placed(w, w.requests[r], readFree, reread.Cached?)
    requires r !in w.requests ==> !readFree
    ensures var w' := Next(w, s, reread);
            r in w'.requests ==> Placed(w', w'.requests[r], readFree || ReadsFree(w, s, r), reread.Cached?)
  {
  }

  lemma {:induction false} RunPlaces(row: Option<Row>, run: seq<Step>, reread: Reread, r: int)
    ensures var w := Exec(World(row, map[]), run, reread);
            && (r in w.requests ==> Placed(w, w.requests[r], ReadFree(row, run, reread, r), reread.Cached?))
            && (r !in w.requests ==> !ReadFree(row, run, reread, r))
    decreases |run|
  {
    hide Placed, ReadFree;
    if run == [] {
      NothingRead(row, reread, r);
    } else {
      var before := run[..|run| - 1];
      RunPlaces(row, before, reread, r);
      ReadFreeSnoc(row, run, reread, r);
      StepPlaces(Exec(World(row, map[]), before, reread), run[|run| - 1], reread, r, ReadFree(row, before, reread, r));
    }
  }

  lemma NothingRead(row: Option<Row>, reread: Reread, r: int)
    ensures !ReadFree(row, [], reread, r)
  {
  }

  /**
   The damage of a cached re-read is bounded: a request of a device that does not hold the claim, once it has ended
   without an exception, ended with "ok" exactly if it had read the session while it was free, before the claim.
   */
  lemma CachedPassesIff(row: Option<Row>, run: seq<Step>, r: int)
    requires var w := Exec(World(row, map[]), run, Cached);
             r in w.requests && w.requests[r].pc.Finished? && w.requests[r].pc.reason in {Done, ClaimedByOther}
             && !HoldsClaim(w, w.requests[r].device)
    ensures EndedOk(Exec(World(row, map[]), run, Cached), r) <==> ReadFree(row, run, Cached, r)
  {
    RunPlaces(row, run, Cached, r);
    RunFinishes(row, run, Cached, r);
  }

  /** Only a refusal ends with a false answer. */
  lemma {:induction false} RunFinishes(row: Option<Row>, run: seq<Step>, reread: Reread, r: int)
    ensures var w := Exec(World(row, map[]), run, reread);
            r in w.requests && w.requests[r].pc.Finished? ==>
              (w.requests[r].pc.ok <==> !w.requests[r].pc.reason.ClaimedByOther? && !w.requests[r].pc.reason.NotFound?)
    decreases |run|
  {
    if run != [] {
      RunFinishes(row, run[..|run| - 1], reread, r);
    }
  }
}
