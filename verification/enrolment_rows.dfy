/**
 The life of a device row, written out: which events create it, confirm it, revoke it, delete it and change it, and what
 they leave; what enrolment and validation answer; and that a revocation holds for good.
 */
module EnrolmentRows {
  import opened Wrappers

  import opened Enrolment
  import EnrolmentPurge

  /** The first 255 characters, which the column holds. */
  predicate Held(stored: string, s: string)
  {
    stored <= s && |stored| == (if |s| < 255 then |s| else 255)
  }

  /** The QR token exists and its date has not passed. */
  predicate Live(db: Db, qr: string, now: Time)
  {
    qr in db.tokens && now <= db.tokens[qr].expiresAt
  }

  // ---- Revocation -------------------------------------------------------------------------------------

  /** The event revokes the device: asked for by its user, or by the administrator or its user for all active ones. */
  predicate Revokes(db: Db, e: Timed, id: DeviceId)
    requires id in db.devices
  {
    var d := db.devices[id];
    || e.event == RevokeDevice(id, d.userSub)
    || (d.status.Active? && e.event in {RevokeAll(None), RevokeAll(Some(d.userSub))})
  }

  /** From any database, a step revokes exactly the rows it is asked to. */
  lemma RevokedByIff(c: Settings, db: Db, e: Timed, id: DeviceId)
    requires Enabled(c, db, e) && id in db.devices && !db.devices[id].status.Revoked?
    ensures IsRevoked(Next(c, db, e), id) <==> Revokes(db, e, id)
    ensures Revokes(db, e, id) ==>
              Next(c, db, e).devices[id] == db.devices[id].(status := Revoked, revokedAt := Some(e.now))
  {
    hide Finds;
    if e.event.EnrolDevice? && !e.event.found.Nothing? {
      FoundIsThere(c, Purged(db, e.now), e.event.request, e.now, e.event.found);
    }
  }

  lemma FoundIsThere(c: Settings, db: Db, q: EnrolRequest, now: Time, f: Found)
    requires Finds(c, db, q, now, f) && !f.Nothing?
    ensures f.id in db.devices && db.devices[f.id].qrToken == q.qrToken
    ensures db.devices[f.id].status.Revoked? ==> f.Same?
  {
  }

  /** A revoked device is refused, whatever token of it is shown and when. */
  lemma RevokedIsRefused(db: Db, id: DeviceId, p: Payload, now: Time)
    requires IsRevoked(db, id) && p.deviceId == id
    ensures Validate(db, p, now).0 == db && !Validate(db, p, now).1.Valid?
    ensures Validate(db, p, now).1.WasRevoked? <==>
              p.qrToken != "" && (p.retentionUntil == 0 || now <= p.retentionUntil)
  {
  }

  /** ... and cannot enrol again with its key on its token, if no other row has both. */
  lemma RevokedCannotReturn(c: Settings, db: Db, id: DeviceId, q: EnrolRequest, now: Time, f: Found, newId: DeviceId)
    requires KeysDiffer(db) && IsRevoked(db, id) && HasKey(db.devices[id], q) && Live(db, q.qrToken, now)
    requires Finds(c, db, q, now, f)
    ensures Enrol(c, db, q, now, f, newId) == (db, DeviceRevoked)
  {
    assert SameIdentity(db.devices[f.id], db.devices[id]);
  }

  lemma PurgeKeepsKeys(db: Db, now: Time, id: DeviceId)
    requires KeysDiffer(db) && IsRevoked(db, id)
    ensures KeysDiffer(Purged(db, now)) && IsRevoked(Purged(db, now), id)
    ensures Purged(db, now).devices[id] == db.devices[id]
  {
  }

  /**
   A revocation holds over every run until the row is deleted: every validation with a token of the device is refused,
   and enrolling again with its key and a live QR token answers that it is revoked.
   */
  lemma RevocationHolds(
    c: Settings, run: seq<Timed>, a: nat, id: DeviceId,
    p: Payload, q: EnrolRequest, now: Time, f: Found, newId: DeviceId)
    requires IsRun(c, Empty, run) && a < |run| && id in Exec(c, Empty, run[..a]).devices
    requires Revokes(Exec(c, Empty, run[..a]), run[a], id)
    requires forall k :: a < k <= |run| ==> id in Exec(c, Empty, run[..k]).devices
    requires forall k :: 0 <= k < |run| && run[k].event.EnrolDevice? ==> |run[k].event.request.deviceKey| <= KEY_LIMIT
    requires p.deviceId == id
    requires HasKey(Exec(c, Empty, run[..|run|]).devices[id], q)
    requires Finds(c, Purged(Exec(c, Empty, run), now), q, now, f) && Live(Exec(c, Empty, run), q.qrToken, now)
    ensures !Validate(Exec(c, Empty, run), p, now).1.Valid?
    ensures Enrol(c, Purged(Exec(c, Empty, run), now), q, now, f, newId).1.DeviceRevoked?
  {
    hide Finds, Enrol, Validate, Next, Enabled, HasKey;
    var db := Exec(c, Empty, run);
    StaysRevoked(c, Empty, run, a, |run|, id);
    assert run[..|run|] == run;
    KeysStayUnique(c, run);
    RevokedIsRefused(db, id, p, now);
    PurgeKeepsKeys(db, now, id);
    RevokedCannotReturn(c, Purged(db, now), id, q, now, f, newId);
  }

  lemma {:induction false} PrefixIsRun(c: Settings, db: Db, run: seq<Timed>, k: nat)
    requires IsRun(c, db, run) && k < |run|
    ensures IsRun(c, db, run[..k]) && Enabled(c, Exec(c, db, run[..k]), run[k])
    decreases |run|
  {
    hide Next, Enabled;
    if k < |run| - 1 {
      PrefixIsRun(c, db, run[..|run| - 1], k);
      assert run[..|run| - 1][..k] == run[..k];
    }
  }

  lemma {:induction false} StaysRevoked(c: Settings, db: Db, run: seq<Timed>, a: nat, b: nat, id: DeviceId)
    requires IsRun(c, db, run) && a < b <= |run| && id in Exec(c, db, run[..a]).devices
    requires Revokes(Exec(c, db, run[..a]), run[a], id)
    requires forall k :: a < k <= b ==> id in Exec(c, db, run[..k]).devices
    ensures IsRevoked(Exec(c, db, run[..b]), id)
    decreases b
  {
    hide Next, Enabled, Revokes;
    PrefixIsRun(c, db, run, b - 1);
    assert run[..b][..b - 1] == run[..b - 1] && run[..b][b - 1] == run[b - 1];
    if b > a + 1 {
      StaysRevoked(c, db, run, a, b - 1, id);
      StepKeepsRevoked(c, Exec(c, db, run[..b - 1]), run[b - 1], id);
    } else if IsRevoked(Exec(c, db, run[..a]), id) {
      StepKeepsRevoked(c, Exec(c, db, run[..a]), run[a], id);
    } else {
      RevokedByIff(c, Exec(c, db, run[..a]), run[a], id);
    }
  }

  // ---- Confirmation -----------------------------------------------------------------------------------

  /** The token may be shown for the device now: its own date and the device's are not past, the QR token lives. */
  predicate Passes(db: Db, p: Payload, now: Time)
  {
    && p.qrToken != "" && (p.retentionUntil == 0 || now <= p.retentionUntil)
    && p.deviceId in db.devices && db.devices[p.deviceId].qrToken == p.qrToken
    && now <= db.devices[p.deviceId].retentionExpiresAt && Live(db, p.qrToken, now)
  }

  /** A pending device becomes active exactly by showing its token when it passes and nobody else is the owner. */
  lemma ConfirmedByIff(c: Settings, db: Db, e: Timed, id: DeviceId)
    requires Enabled(c, db, e) && id in db.devices && db.devices[id].status.Pending?
    ensures id in Next(c, db, e).devices && Next(c, db, e).devices[id].status.Active? <==>
              && e.event.ValidateDevice? && e.event.payload.deviceId == id && Passes(db, e.event.payload, e.now)
              && !exists o :: o in db.devices && o != id && Owns(db.devices[o], db.devices[id].qrToken)
    ensures id in Next(c, db, e).devices && Next(c, db, e).devices[id].status.Active? ==>
              && Next(c, db, e).devices[id]
                == db.devices[id].(status := Active, confirmedAt := Some(e.now), purgeAt := None, lastSeenAt := e.now)
  {
    hide Finds;
    if e.event.EnrolDevice? && !e.event.found.Nothing? {
      FoundIsThere(c, Purged(db, e.now), e.event.request, e.now, e.event.found);
    }
  }

  /** An active device is accepted exactly when its token passes; a pending one, if besides nobody owns the session. */
  lemma ValidIff(db: Db, p: Payload, now: Time)
    ensures Validate(db, p, now).1.Valid? <==>
              && Passes(db, p, now) && !db.devices[p.deviceId].status.Revoked?
              && (db.devices[p.deviceId].status.Pending? ==> !OwnedByAnother(db, p.qrToken, p.deviceId))
    ensures !Validate(db, p, now).1.Valid? ==> Validate(db, p, now).0 == db
    ensures Validate(db, p, now).1.Valid? ==>
              && Validate(db, p, now).0.tokens == db.tokens
              && Validate(db, p, now).0.devices == db.devices[p.deviceId := Validate(db, p, now).0.devices[p.deviceId]]
              && Validate(db, p, now).0.devices[p.deviceId].lastSeenAt == now
              && (db.devices[p.deviceId].status.Active? ==>
                    Validate(db, p, now).0.devices[p.deviceId] == db.devices[p.deviceId].(lastSeenAt := now))
              && Validate(db, p, now).1.deviceId == p.deviceId
              && (Validate(db, p, now).1.refreshed.None? <==>
                    p.retentionUntil == db.devices[p.deviceId].retentionExpiresAt)
  {
  }

  /** Which refusal it is: each names something wrong, and the earlier checks had nothing to object to. */
  lemma RefusalTells(db: Db, p: Payload, now: Time)
    ensures Validate(db, p, now).1.InvalidPayload? <==> p.qrToken == ""
    ensures Validate(db, p, now).1.NotFound? ==> p.deviceId !in db.devices
    ensures Validate(db, p, now).1.TokenMismatch? ==>
              p.deviceId in db.devices && db.devices[p.deviceId].qrToken != p.qrToken
    ensures Validate(db, p, now).1.RetentionExpired? ==>
              || (p.retentionUntil != 0 && p.retentionUntil < now)
              || (p.deviceId in db.devices && db.devices[p.deviceId].retentionExpiresAt < now)
    ensures Validate(db, p, now).1.QrTokenExpired? ==> !Live(db, p.qrToken, now)
    ensures Validate(db, p, now).1.WasRevoked? ==> IsRevoked(db, p.deviceId)
    ensures Validate(db, p, now).1.SessionAlreadyBound? ==>
              p.deviceId in db.devices && db.devices[p.deviceId].status.Pending?
              && OwnedByAnother(db, p.qrToken, p.deviceId)
  {
  }

  // ---- Enrolment --------------------------------------------------------------------------------------

  /** What enrolment answers, and when: no QR token, one that is over, a revoked device, a session taken, or a token. */
  lemma EnrolAnswers(c: Settings, db: Db, q: EnrolRequest, now: Time, f: Found, newId: DeviceId)
    requires Finds(c, db, q, now, f)
    ensures
      var a := Enrol(c, db, q, now, f, newId).1;
      && (a.InvalidQr? <==> q.qrToken !in db.tokens)
      && (a.QrExpired? <==> q.qrToken in db.tokens && !Live(db, q.qrToken, now))
      && (a.DeviceRevoked? <==> Live(db, q.qrToken, now) && f.Same? && IsRevoked(db, f.id))
      && (a.AlreadyBound? <==>
            && Live(db, q.qrToken, now) && Owned(db, q.qrToken)
            && !exists id :: id in db.devices && db.devices[id].qrToken == q.qrToken
                  && (db.devices[id].deviceKey == q.deviceKey || Fusible(c, db.devices[id], q, now)
                      || Rebindable(db.devices[id], q)))
      && (!a.Enrolled? ==> Enrol(c, db, q, now, f, newId).0 == db)
      && !a.BadRequest?
  {
    if f.Nothing? {
      assert forall id :: id in db.devices ==> !HasKey(db.devices[id], q);
    } else {
      FoundIsThere(c, db, q, now, f);
    }
  }

  /** The row a device that enrols for the first time gets. */
  predicate Fresh(c: Settings, d: Device, issued: Issued, q: EnrolRequest, now: Time)
  {
    && d.userSub == issued.userSub && d.qrToken == q.qrToken && d.simpleCode == issued.simpleCode
    && Held(d.deviceKey, q.deviceKey) && d.status.Pending? && d.confirmedAt.None? && d.revokedAt.None?
    && d.fpHash == (if q.fpHash == "" then None else Some(q.fpHash))
    && (if q.name == "" then d.name.None? else d.name.Some? && Held(d.name.value, q.name))
    && d.purgeAt == Some(now + c.pendingPurge) && d.retentionExpiresAt == now + c.retention
    && d.lastSeenAt == now && d.createdAt == now
  }

  /** Enrolling again writes dates, a name if one is given, a fingerprint if it had none, and on a rebind the key. */
  predicate EnrolledAgain(c: Settings, d: Device, d': Device, q: EnrolRequest, now: Time, rebound: bool)
  {
    && d'.userSub == d.userSub && d'.qrToken == d.qrToken && d'.simpleCode == d.simpleCode
    && d'.status == d.status && d'.confirmedAt == d.confirmedAt && d'.revokedAt == d.revokedAt
    && d'.createdAt == d.createdAt
    && (if rebound then Held(d'.deviceKey, q.deviceKey) else d'.deviceKey == d.deviceKey)
    && (if q.name == "" then d'.name == d.name else d'.name.Some? && Held(d'.name.value, q.name))
    && d'.fpHash == (if d.fpHash in {None, Some("")} && q.fpHash != "" then Some(q.fpHash) else d.fpHash)
    && d'.lastSeenAt == now && d'.retentionExpiresAt == now + c.retention
    && d'.purgeAt == (if d.status.Pending? then Some(now + c.pendingPurge) else d.purgeAt)
  }

  lemma EnrolWrites(c: Settings, db: Db, q: EnrolRequest, now: Time, f: Found, newId: DeviceId)
    requires Finds(c, db, q, now, f) && Enrol(c, db, q, now, f, newId).1.Enrolled? && newId !in db.devices
    ensures
      var (db', a) := Enrol(c, db, q, now, f, newId);
      var id := a.payload.deviceId;
      && id in db'.devices && db'.tokens == db.tokens && db'.devices == db.devices[id := db'.devices[id]]
      && Live(db, q.qrToken, now) && id == (if f.Nothing? then newId else f.id)
      && (if f.Nothing? then Fresh(c, db'.devices[id], db.tokens[q.qrToken], q, now)
          else id in db.devices && EnrolledAgain(c, db.devices[id], db'.devices[id], q, now, f.Rebound?))
      && a.payload.userSub == db'.devices[id].userSub && a.payload.qrToken == q.qrToken
      && a.payload.simpleCode == db'.devices[id].simpleCode && a.payload.retentionUntil == now + c.retention
  {
    if !f.Nothing? {
      FoundIsThere(c, db, q, now, f);
    }
  }

  /**
   Which row an enrolment takes up: one with its key first; else the newest with its fingerprint within the window;
   else a confirmed one with its fingerprint.
   */
  lemma FoundIs(c: Settings, db: Db, q: EnrolRequest, now: Time, f: Found, id: DeviceId)
    requires Finds(c, db, q, now, f) && id in db.devices && db.devices[id].qrToken == q.qrToken
    ensures db.devices[id].deviceKey == q.deviceKey ==> f.Same? && db.devices[f.id].deviceKey == q.deviceKey
    ensures
      (!f.Same? && q.fpHash != "" && db.devices[id].fpHash == Some(q.fpHash) && !db.devices[id].status.Revoked?
       && now < db.devices[id].createdAt + c.fusionWindow) ==>
        f.Fused? && db.devices[id].createdAt <= db.devices[f.id].createdAt
    ensures
      (!f.Same? && !f.Fused? && q.fpHash != "" && db.devices[id].fpHash == Some(q.fpHash)
       && db.devices[id].status.Active? && db.devices[id].confirmedAt.Some?) ==> f.Rebound?
    ensures f.Fused? || f.Rebound? ==>
              q.fpHash != "" && db.devices[f.id].fpHash == Some(q.fpHash) && !db.devices[f.id].status.Revoked?
    ensures f.Fused? ==> now < db.devices[f.id].createdAt + c.fusionWindow
    ensures f.Rebound? ==> db.devices[f.id].status.Active? && db.devices[f.id].confirmedAt.Some?
  {
    assert db.devices[id].deviceKey == q.deviceKey ==> HasKey(db.devices[id], q);
  }

  // ---- Every other event ------------------------------------------------------------------------------

  /** The event deletes the row: by its user, with its session by the code's owner, or unconfirmed in time. */
  predicate Deletes(db: Db, e: Timed, id: DeviceId)
    requires id in db.devices
  {
    var d := db.devices[id];
    match e.event
    case DeleteDevice(other, user) => other == id && user == d.userSub
    case DeleteSession(code, user) =>
      code == d.simpleCode && EnrolmentPurge.MayDelete(db, code, user)
    case PurgePending => d.status.Pending? && d.purgeAt.Some? && d.purgeAt.value < e.now
    case EnrolDevice(q, _, _) =>
      q.qrToken != "" && q.deviceKey != "" && d.status.Pending? && d.purgeAt.Some? && d.purgeAt.value < e.now
    case _ => false
  }

  lemma DeletedByIff(c: Settings, db: Db, e: Timed, id: DeviceId)
    requires Enabled(c, db, e) && id in db.devices
    ensures id !in Next(c, db, e).devices <==> Deletes(db, e, id)
  {
    hide Finds;
    match e.event
    case EnrolDevice(q, f, newId) =>
      if !f.Nothing? {
        FoundIsThere(c, Purged(db, e.now), q, e.now, f);
      }
    case _ =>
  }

  /** What the events beside enrolment, validation, revocation and deletion leave of a row. */
  lemma OthersWrite(c: Settings, db: Db, e: Timed, id: DeviceId)
    requires Enabled(c, db, e) && id in db.devices && id in Next(c, db, e).devices
    requires !e.event.EnrolDevice? && !e.event.ValidateDevice? && !Revokes(db, e, id)
    ensures
      var d, d' := db.devices[id], Next(c, db, e).devices[id];
      if e.event.ExtendToken? && e.event.qr == d.qrToken && d.status.Active? && d.qrToken in db.tokens
         && e.event.userSub == db.tokens[d.qrToken].userSub
      then d' == d.(retentionExpiresAt := e.now + c.retention)
      else if e.event.RenameDevice? && e.event.id == id && e.event.userSub == d.userSub && e.event.name != ""
      then d'.name.Some? && Held(d'.name.value, e.event.name) && d' == d.(name := d'.name)
      else d' == d
  {
    hide Finds;
  }

  /** The tokens after an event: issued, prolonged, deleted with their session, or purged. */
  lemma TokensAfter(c: Settings, db: Db, e: Timed, qr: string)
    requires Enabled(c, db, e)
    ensures qr !in db.tokens ==>
              && (qr in Next(c, db, e).tokens <==> e.event.IssueToken? && e.event.qr == qr)
              && (qr in Next(c, db, e).tokens ==> Next(c, db, e).tokens[qr] == e.event.issued)
    ensures
      qr in db.tokens ==>
        var t := db.tokens[qr];
        && (qr !in Next(c, db, e).tokens <==>
              || (e.event.DeleteSession? && t.simpleCode == e.event.code
                  && EnrolmentPurge.MayDelete(db, t.simpleCode, e.event.userSub))
              || (e.event.PurgeTokens?
                  && (t.expiresAt + 90 * 86400 < e.now
                      || (t.expiresAt + 86400 < e.now
                          && forall id :: id in db.devices ==> db.devices[id].simpleCode != t.simpleCode))))
        && (qr in Next(c, db, e).tokens ==>
              Next(c, db, e).tokens[qr] ==
              if e.event.ExtendToken? && e.event.qr == qr && e.event.userSub == t.userSub
              then t.(expiresAt := (if e.now < t.expiresAt then t.expiresAt else e.now) + e.event.seconds) else t)
  {
    hide Finds;
  }
}
