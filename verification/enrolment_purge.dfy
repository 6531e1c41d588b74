/**
 What the daily purge of the internal zone (`run_internal_purge_once` in `puller.py`) does to the authority's sessions:
 it deletes QR tokens long expired, the devices enrolled with them stay, and their short codes can be issued again. Then
 two promises about the tokens of devices that the handlers do not keep.
 */
module EnrolmentPurge {
  import opened Wrappers

  import opened Enrolment

  /** The purge changes no later answer of the validation: what it deletes had expired. */
  lemma PurgeChangesNoAnswer(c: Settings, db: Db, now: Time, p: Payload, later: Time)
    requires now <= later
    ensures var purged := Next(c, db, Timed(now, PurgeTokens));
            purged.devices == db.devices && Validate(purged, p, later).1 == Validate(db, p, later).1
  {
  }

  // ---- Deleting a session -----------------------------------------------------------------------------

  /** The user may delete the session: the code is on a token of theirs. */
  predicate MayDelete(db: Db, code: string, user: string)
  {
    exists qr :: qr in db.tokens && HasCode(db, qr, code) && db.tokens[qr].userSub == user
  }

  /** Deleting the session deletes the devices of no other user. */
  predicate SparesOthers(c: Settings, db: Db, code: string, user: string, now: Time)
  {
    forall id :: id in db.devices && id !in Next(c, db, Timed(now, DeleteSession(code, user))).devices ==>
      db.devices[id].userSub == user
  }

  /** A device of another user bears the code, and the purge deleted its token. */
  ghost predicate StrangerHasCode(c: Settings, run: seq<Timed>, db: Db, code: string, user: string, id: DeviceId)
  {
    && id in db.devices && db.devices[id].simpleCode == code && db.devices[id].userSub != user
    && Orphaned(c, run, db.devices[id])
  }

  /** A device that bears a live code matches the token of the code's owner, or is a stranger to it. */
  lemma CodeHasOneUser(db: Db, code: string, user: string, id: DeviceId)
    requires CodesDiffer(db) && MayDelete(db, code, user)
    requires id in db.devices && db.devices[id].simpleCode == code && MatchesToken(db, db.devices[id])
    ensures db.devices[id].userSub == user
  {
    var qr :| qr in db.tokens && HasCode(db, qr, code) && db.tokens[qr].userSub == user;
    assert db.tokens[qr].simpleCode == db.tokens[db.devices[id].qrToken].simpleCode;
  }

  lemma DeletedBears(c: Settings, db: Db, code: string, user: string, now: Time, id: DeviceId)
    requires MayDelete(db, code, user) && id in db.devices
    ensures id !in Next(c, db, Timed(now, DeleteSession(code, user))).devices <==> db.devices[id].simpleCode == code
  {
  }

  /**
   After any run, a user who deletes a session deletes only devices of their own exactly if no device of another user,
   its token purged, still bears the code.
   */
  lemma DeleteSparesOthersIff(c: Settings, run: seq<Timed>, code: string, user: string, now: Time)
    requires IsRun(c, Empty, run) && MayDelete(Exec(c, Empty, run), code, user)
    ensures var db := Exec(c, Empty, run);
            SparesOthers(c, db, code, user, now) <==> !exists id :: StrangerHasCode(c, run, db, code, user, id)
  {
    hide Next, Exec, IsRun, Orphaned, MatchesToken, MayDelete;
    var db := Exec(c, Empty, run);
    RunKeepsInv(c, run);
    forall id | id in db.devices
      ensures id !in Next(c, db, Timed(now, DeleteSession(code, user))).devices <==> db.devices[id].simpleCode == code
      ensures db.devices[id].simpleCode == code && db.devices[id].userSub != user ==> Orphaned(c, run, db.devices[id])
    {
      DeletedBears(c, db, code, user, now, id);
      DeviceHasTokenOrIsOrphaned(c, run, id);
      if MatchesToken(db, db.devices[id]) && db.devices[id].simpleCode == code {
        CodeHasOneUser(db, code, user, id);
      }
    }
    if id :| id in db.devices && db.devices[id].simpleCode == code && db.devices[id].userSub != user {
      assert StrangerHasCode(c, run, db, code, user, id);
    }
  }

  /** Running one more event. */
  lemma Extend(c: Settings, run: seq<Timed>, db: Db, e: Timed) returns (longer: seq<Timed>)
    requires IsRun(c, Empty, run) && Exec(c, Empty, run) == db && Enabled(c, db, e)
    ensures IsRun(c, Empty, longer) && Exec(c, Empty, longer) == Next(c, db, e)
  {
    longer := run + [e];
    assert longer[..|run|] == run;
  }

  /**
   It happens: a device is enrolled and confirmed, its QR token is purged, the code is issued to another user, and that
   user's deletion of the new session takes the device with it.
   */
  lemma ReissuedCodeTakesStranger(c: Settings)
    ensures exists run: seq<Timed>, now: Time ::
              && IsRun(c, Empty, run) && MayDelete(Exec(c, Empty, run), "CODE", "u2")
              && !SparesOthers(c, Exec(c, Empty, run), "CODE", "u2", now)
  {
    hide IsRun, Exec, Enabled;
    var late: Time := USED_TOKEN_GRACE_S + 1;
    var run := Confirmed(c);
    var db := Exec(c, Empty, run);
    var purge := Timed(late, PurgeTokens);
    assert Enabled(c, db, purge) by {
      AlwaysEnabled(c, db, purge);
    }
    run := Extend(c, run, db, purge);
    var purged := Next(c, db, purge);
    assert purged == Db(db.devices, map[]);
    var issue := Timed(late, IssueToken("q2", Issued("u2", "CODE", late)));
    assert Enabled(c, purged, issue) by {
      AlwaysEnabled(c, purged, issue);
    }
    run := Extend(c, run, purged, issue);
    var last := Exec(c, Empty, run);
    assert last.tokens["q2"] == Issued("u2", "CODE", late) && HasCode(last, "q2", "CODE");
    assert 1 in last.devices && last.devices[1].userSub == "u1";
    assert 1 !in Next(c, last, Timed(late, DeleteSession("CODE", "u2"))).devices;
    assert MayDelete(last, "CODE", "u2") && !SparesOthers(c, last, "CODE", "u2", late);
  }

  lemma AlwaysEnabled(c: Settings, db: Db, e: Timed)
    requires e.event.PurgeTokens? || e.event.ValidateDevice? || (e.event.IssueToken? && db.tokens == map[])
    ensures Enabled(c, db, e)
  {
  }

  /** User u1's device 1 on QR token q1, enrolled and confirmed at 0, when the token expires. */
  lemma Confirmed(c: Settings) returns (run: seq<Timed>)
    ensures IsRun(c, Empty, run)
    ensures var db := Exec(c, Empty, run);
            && db.devices.Keys == {1} && db.tokens == map["q1" := Issued("u1", "CODE", 0)]
            && db.devices[1].userSub == "u1" && db.devices[1].qrToken == "q1" && db.devices[1].simpleCode == "CODE"
            && db.devices[1].status.Active?
  {
    var issued := Issued("u1", "CODE", 0);
    var q := EnrolRequest("q1", "key", "", "");
    var d := FreshDevice(c, issued, q, 0);
    var e1, e2 := Timed(0, IssueToken("q1", issued)), Timed(0, EnrolDevice(q, Nothing, 1));
    var e3 := Timed(0, ValidateDevice(PayloadOf(1, d)));
    assert IsRun(c, Empty, []) && Exec(c, Empty, []) == Empty;
    run := Extend(c, [], Empty, e1);
    var db1 := Db(map[], map["q1" := issued]);
    assert Next(c, Empty, e1) == db1;
    assert Purged(db1, 0) == db1 && Enabled(c, db1, e2);
    run := Extend(c, run, db1, e2);
    var db2 := Db(map[1 := d], map["q1" := issued]);
    assert Next(c, db1, e2) == db2;
    run := Extend(c, run, db2, e3);
  }

  // ---- Rebinding and renewal --------------------------------------------------------------------------

  /**
   Rotating the key of a device does not take its token from the old holder, against the comment: the token names the
   row, not the key, so after a rebind it passes wherever the new one does, as long as its own date has not passed.
   */
  lemma OldTokenSurvivesRebind(
    c: Settings, db: Db, q: EnrolRequest, now: Time, f: Found, newId: DeviceId,
    held: Payload, run: seq<Timed>, later: Time)
    requires Finds(c, db, q, now, f) && f.Rebound? && Enrol(c, db, q, now, f, newId).1.Enrolled?
    requires held.deviceId == f.id && held.qrToken == q.qrToken
    requires later <= now + c.retention && (held.retentionUntil == 0 || later <= held.retentionUntil)
    ensures var (db', answer) := Enrol(c, db, q, now, f, newId);
            var db'' := Exec(c, db', run);
            Validate(db'', held, later).1.Valid? <==> Validate(db'', answer.payload, later).1.Valid?
  {
    var (db', answer) := Enrol(c, db, q, now, f, newId);
    assert answer.payload.deviceId == f.id && answer.payload.retentionUntil == now + c.retention;
    assert answer.payload.qrToken == q.qrToken;
    hide Enrol, Finds, Exec;
    SameRowSameAnswer(Exec(c, db', run), held, answer.payload, later);
  }

  /** Two tokens of one row, neither past its date, get the same answer but for the refresh. */
  lemma SameRowSameAnswer(db: Db, a: Payload, b: Payload, later: Time)
    requires a.deviceId == b.deviceId && a.qrToken == b.qrToken
    requires a.retentionUntil == 0 || later <= a.retentionUntil
    requires b.retentionUntil == 0 || later <= b.retentionUntil
    ensures Validate(db, a, later).0 == Validate(db, b, later).0
    ensures Validate(db, a, later).1.Valid? <==> Validate(db, b, later).1.Valid?
  {
  }

  /** ... and it does pass, if nothing has touched the row or its QR token since. */
  lemma OldTokenValidates(
    c: Settings, db: Db, q: EnrolRequest, now: Time, f: Found, newId: DeviceId,
    held: Payload, run: seq<Timed>, later: Time)
    requires Inv(db) && Finds(c, db, q, now, f) && f.Rebound? && newId !in db.devices && q.qrToken != ""
    requires Enrol(c, db, q, now, f, newId).1.Enrolled?
    requires held.deviceId == f.id && held.qrToken == q.qrToken
    requires later <= now + c.retention && (held.retentionUntil == 0 || later <= held.retentionUntil)
    requires later <= db.tokens[q.qrToken].expiresAt
    requires var db' := Enrol(c, db, q, now, f, newId).0; IsRun(c, db', run) && NeverTouched(c, db', run, f.id)
    ensures Validate(Exec(c, Enrol(c, db, q, now, f, newId).0, run), held, later).1.Valid?
  {
    var (db', answer) := Enrol(c, db, q, now, f, newId);
    assert answer.payload.deviceId == f.id && db'.devices[f.id].status.Active?;
    hide Finds, Exec, IsRun, NeverTouched, Validate;
    EnrolledDeviceValidates(c, db, q, now, f, newId, run, later);
    OldTokenSurvivesRebind(c, db, q, now, f, newId, held, run, later);
  }

  /** A QR token renewed for a day, a device that is active, and a client whose own date was yesterday: refused. */
  lemma RenewalComesTooLate(c: Settings, d: Device)
    requires d.qrToken == "q1" && d.status.Active? && d.retentionExpiresAt == 10
    ensures var db := Db(map[1 := d], map["q1" := Issued("u1", "CODE", 10)]);
            var renewed := Next(c, db, Timed(20, ExtendToken("q1", "u1", 24 * 3600)));
            && renewed.devices[1].retentionExpiresAt == 20 + c.retention
            && renewed.tokens["q1"].expiresAt == 20 + 24 * 3600
            && Validate(renewed, PayloadOf(1, d), 20).1.RetentionExpired?
  {
  }
}
