/**
 Device enrolment in the trust authority (`device-token-authority/app/main.py`): rows go from pending to
 active on the first heartbeat and to revoked on demand, one confirmed device per QR token.

 Every handler is one atomic step. `Next` gives the database it leaves; the methods of `Authority` are
 proved against it. Where a query ends in `.first()`, any row that may come first is allowed.
 */
module Enrolment {
  import opened Wrappers

  type Time = int // seconds
  type DeviceId = int

  const KEY_LIMIT := 255

  /** DEVICE_TOKEN_RETENTION_HOURS, DEVICE_FUSION_WINDOW_MINUTES and DEVICE_PENDING_PURGE_SECONDS, all in seconds. */
  datatype Settings = Settings(retention: nat, fusionWindow: nat, pendingPurge: nat)

  /** After expiry a token without devices is kept for a day, and any other for 90. */
  const UNUSED_TOKEN_GRACE_S := 24 * 3600
  const USED_TOKEN_GRACE_S := 90 * 24 * 3600

  datatype Status = Pending | Active | Revoked

  datatype Device = Device(
    userSub: string, qrToken: string, simpleCode: string,
    deviceKey: string, fpHash: Option<string>, name: Option<string>,
    status: Status, confirmedAt: Option<Time>, purgeAt: Option<Time>,
    retentionExpiresAt: Time, lastSeenAt: Time, createdAt: Time, revokedAt: Option<Time>)

  datatype Issued = Issued(userSub: string, simpleCode: string, expiresAt: Time)

  datatype Db = Db(devices: map<DeviceId, Device>, tokens: map<string, Issued>)

  /** The payload of a signed device token; a missing retention reads as 0. */
  datatype Payload = Payload(deviceId: DeviceId, userSub: string, qrToken: string, simpleCode: string,
      retentionUntil: int)

  datatype EnrolRequest = EnrolRequest(qrToken: string, deviceKey: string, fpHash: string, name: string)

  datatype EnrolAnswer = Enrolled(payload: Payload) | BadRequest | InvalidQr | QrExpired | DeviceRevoked | AlreadyBound

  datatype ValidateAnswer =
    | Valid(deviceId: DeviceId, refreshed: Option<Payload>)
    | InvalidPayload | NotFound | TokenMismatch | RetentionExpired | QrTokenExpired | WasRevoked | SessionAlreadyBound

  function Cut(s: string): string
  {
    if |s| <= KEY_LIMIT then s else s[..KEY_LIMIT]
  }

  // ---- Queries ------------------------------------------------------------------------------------

  predicate Owns(d: Device, qr: string)
  {
    d.qrToken == qr && d.status.Active? && d.confirmedAt.Some?
  }

  predicate PurgeDue(d: Device, now: Time)
  {
    d.status.Pending? && d.purgeAt.Some? && d.purgeAt.value < now
  }

  function Purged(db: Db, now: Time): Db
  {
    db.(devices := map id | id in db.devices && !PurgeDue(db.devices[id], now) :: db.devices[id])
  }

  predicate HasKey(d: Device, q: EnrolRequest)
  {
    d.qrToken == q.qrToken && d.deviceKey == q.deviceKey
  }

  predicate Fusible(c: Settings, d: Device, q: EnrolRequest, now: Time)
  {
    && q.fpHash != "" && d.qrToken == q.qrToken && d.fpHash == Some(q.fpHash)
    && !d.status.Revoked? && now - c.fusionWindow < d.createdAt
  }

  predicate Rebindable(d: Device, q: EnrolRequest)
  {
    q.fpHash != "" && Owns(d, q.qrToken) && d.fpHash == Some(q.fpHash)
  }

  predicate Owned(db: Db, qr: string)
  {
    exists id :: id in db.devices && Owns(db.devices[id], qr)
  }

  predicate OwnedByAnother(db: Db, qr: string, id: DeviceId)
  {
    exists o :: o in db.devices && o != id && Owns(db.devices[o], qr)
  }

  predicate IsLatestFusible(c: Settings, db: Db, q: EnrolRequest, now: Time, id: DeviceId)
  {
    && id in db.devices && Fusible(c, db.devices[id], q, now)
    && forall o :: o in db.devices && Fusible(c, db.devices[o], q, now) ==>
         db.devices[o].createdAt <= db.devices[id].createdAt
  }

  /**
   How enrolment finds its row: the same key, else the latest fusible one, else a confirmed one to rebind, else none.
   */
  datatype Found = Same(id: DeviceId) | Fused(id: DeviceId) | Rebound(id: DeviceId) | Nothing

  predicate Finds(c: Settings, db: Db, q: EnrolRequest, now: Time, f: Found)
  {
    if exists id :: id in db.devices && HasKey(db.devices[id], q)
      then f.Same? && f.id in db.devices && HasKey(db.devices[f.id], q)
    else if exists id :: id in db.devices && Fusible(c, db.devices[id], q, now)
      then f.Fused? && IsLatestFusible(c, db, q, now, f.id)
    else if exists id :: id in db.devices && Rebindable(db.devices[id], q)
    then f.Rebound? && f.id in db.devices && Rebindable(db.devices[f.id], q)
    else f.Nothing?
  }

  // ---- Handlers -----------------------------------------------------------------------------------

  function Refreshed(c: Settings, d: Device, q: EnrolRequest, now: Time): Device
  {
    d.(fpHash := if (d.fpHash.None? || d.fpHash.value == "") && q.fpHash != "" then Some(q.fpHash) else d.fpHash,
       name := if q.name != "" then Some(Cut(q.name)) else d.name,
       lastSeenAt := now,
       retentionExpiresAt := now + c.retention,
       purgeAt := if d.status.Pending? then Some(now + c.pendingPurge) else d.purgeAt)
  }

  function FreshDevice(c: Settings, issued: Issued, q: EnrolRequest, now: Time): Device
  {
    Device(issued.userSub, q.qrToken, issued.simpleCode, Cut(q.deviceKey),
           if q.fpHash != "" then Some(q.fpHash) else None,
           if q.name != "" then Some(Cut(q.name)) else None, Pending, None, Some(now + c.pendingPurge),
           now + c.retention, now, now, None)
  }

  function PayloadOf(id: DeviceId, d: Device): Payload
  {
    Payload(id, d.userSub, d.qrToken, d.simpleCode, d.retentionExpiresAt)
  }

  /** The row written for a found device, a rebind rotating its key first. */
  function Written(c: Settings, db: Db, q: EnrolRequest, now: Time, f: Found): Device
    requires !f.Nothing? && f.id in db.devices
  {
    var d := db.devices[f.id];
    Refreshed(c, if f.Rebound? then d.(deviceKey := Cut(q.deviceKey)) else d, q, now)
  }

  /** enroll_device after its opening purge, `newId` being the id a new row would get. */
  function Enrol(c: Settings, db: Db, q: EnrolRequest, now: Time, f: Found, newId: DeviceId): (Db, EnrolAnswer)
    requires Finds(c, db, q, now, f)
  {
    if q.qrToken !in db.tokens then (db, InvalidQr)
    else if db.tokens[q.qrToken].expiresAt < now then (db, QrExpired)
    else if f.Same? && db.devices[f.id].status.Revoked? then (db, DeviceRevoked)
    else if !f.Nothing? then
      var d := Written(c, db, q, now, f);
      (db.(devices := db.devices[f.id := d]), Enrolled(PayloadOf(f.id, d)))
    else if Owned(db, q.qrToken) then (db, AlreadyBound)
    else
      var d := FreshDevice(c, db.tokens[q.qrToken], q, now);
      (db.(devices := db.devices[newId := d]), Enrolled(PayloadOf(newId, d)))
  }

  /** validate_device, once the signature of the token has been checked. */
  function Validate(db: Db, p: Payload, now: Time): (Db, ValidateAnswer)
  {
    if p.qrToken == "" then (db, InvalidPayload)
    else if p.retentionUntil != 0 && p.retentionUntil < now then (db, RetentionExpired)
    else if p.deviceId !in db.devices then (db, NotFound)
    else
      var d := db.devices[p.deviceId];
      if d.status.Revoked? then (db, WasRevoked)
      else if d.qrToken != p.qrToken then (db, TokenMismatch)
      else if d.retentionExpiresAt < now then (db, RetentionExpired)
      else if p.qrToken !in db.tokens || db.tokens[p.qrToken].expiresAt < now then (db, QrTokenExpired)
      else if d.status.Pending? && OwnedByAnother(db, p.qrToken, p.deviceId) then (db, SessionAlreadyBound)
      else
        var d' := (if d.status.Pending? then d.(status := Active, confirmedAt := Some(now), purgeAt := None)
          else d).(lastSeenAt := now);
        (db.(devices := db.devices[p.deviceId := d']),
         Valid(p.deviceId, if p.retentionUntil != d.retentionExpiresAt
           then Some(p.(retentionUntil := d.retentionExpiresAt)) else None))
  }

  function RevokeRow(d: Device, now: Time): Device
  {
    d.(status := Revoked, revokedAt := Some(now))
  }

  function RevokeWhere(db: Db, hit: set<DeviceId>, now: Time): Db
  {
    db.(devices := map id | id in db.devices :: if id in hit then RevokeRow(db.devices[id], now) else db.devices[id])
  }

  function ActiveOf(db: Db, userSub: Option<string>): set<DeviceId>
  {
    set id | id in db.devices && db.devices[id].status.Active?
      && (userSub.None? || db.devices[id].userSub == userSub.value)
  }

  datatype Event =
    | IssueToken(qr: string, issued: Issued)
    | ExtendToken(qr: string, userSub: string, seconds: nat)
    | EnrolDevice(request: EnrolRequest, found: Found, newId: DeviceId)
    | ValidateDevice(payload: Payload)
    | RenameDevice(id: DeviceId, userSub: string, name: string)
    | RevokeDevice(id: DeviceId, userSub: string)
    | RevokeAll(owner: Option<string>)   // None: the administrator's variant
    | DeleteDevice(id: DeviceId, userSub: string)
    | DeleteSession(code: string, userSub: string)
    | PurgePending
    | PurgeTokens   // the daily purge of the internal zone

  datatype Timed = Timed(now: Time, event: Event)

  predicate HasCode(db: Db, qr: string, code: string)
  {
    qr in db.tokens && db.tokens[qr].simpleCode == code
  }

  /** The purge deletes the token; it keeps every device that has been seen, as all of them have since enrolment. */
  predicate TokenDue(db: Db, qr: string, now: Time)
  {
    && qr in db.tokens
    && var t := db.tokens[qr];
    || t.expiresAt < now - USED_TOKEN_GRACE_S
    || (t.expiresAt < now - UNUSED_TOKEN_GRACE_S
        && forall id :: id in db.devices ==> db.devices[id].simpleCode != t.simpleCode)
  }

  predicate Enabled(c: Settings, db: Db, e: Timed)
  {
    match e.event
    case IssueToken(qr, issued) =>
      qr !in db.tokens && forall q :: q in db.tokens ==> db.tokens[q].simpleCode != issued.simpleCode
    case EnrolDevice(q, f, newId) => Finds(c, Purged(db, e.now), q, e.now, f) && newId !in db.devices
    case _ => true
  }

  function Next(c: Settings, db: Db, e: Timed): Db
  {
    var now := e.now;
    match e.event
    case IssueToken(qr, issued) => db.(tokens := db.tokens[qr := issued])
    case ExtendToken(qr, userSub, seconds) =>
      if qr in db.tokens && db.tokens[qr].userSub == userSub then
        var t := db.tokens[qr];
        Db(map id | id in db.devices ::
             if db.devices[id].qrToken == qr && db.devices[id].status.Active?
             then db.devices[id].(retentionExpiresAt := now + c.retention) else db.devices[id],
           db.tokens[qr := t.(expiresAt := (if t.expiresAt < now then now else t.expiresAt) + seconds)])
      else db
    case EnrolDevice(q, f, newId) =>
      if q.qrToken == "" || q.deviceKey == "" || !Enabled(c, db, e) then db
      else Enrol(c, Purged(db, now), q, now, f, newId).0
    case ValidateDevice(p) => Validate(db, p, now).0
    case RenameDevice(id, userSub, name) =>
      if id in db.devices && db.devices[id].userSub == userSub && name != ""
      then db.(devices := db.devices[id := db.devices[id].(name := Some(Cut(name)))]) else db
    case RevokeDevice(id, userSub) =>
      if id in db.devices && db.devices[id].userSub == userSub then RevokeWhere(db, {id}, now) else db
    case RevokeAll(owner) => RevokeWhere(db, ActiveOf(db, owner), now)
    case DeleteDevice(id, userSub) =>
      if id in db.devices && db.devices[id].userSub == userSub then db.(devices := db.devices - {id}) else db
    case DeleteSession(code, userSub) =>
      if exists qr :: qr in db.tokens && HasCode(db, qr, code) && db.tokens[qr].userSub == userSub then
        Db(map id | id in db.devices && db.devices[id].simpleCode != code :: db.devices[id],
           map qr | qr in db.tokens && !HasCode(db, qr, code) :: db.tokens[qr])
      else db
    case PurgePending => Purged(db, now)
    case PurgeTokens => db.(tokens := map qr | qr in db.tokens && !TokenDue(db, qr, now) :: db.tokens[qr])
  }

  // ---- The service --------------------------------------------------------------------------------

  class Authority {
    const settings: Settings
    var devices: map<DeviceId, Device>
    var tokens: map<string, Issued>
    var nextId: DeviceId

    ghost function View(): Db
      reads this
    {
      Db(devices, tokens)
    }

    ghost predicate WellNumbered()
      reads this
    {
      forall id :: id in devices ==> id < nextId
    }

    constructor (settings: Settings)
      ensures View() == Db(map[], map[]) && WellNumbered() && this.settings == settings
    {
      this.settings := settings;
      devices, tokens, nextId := map[], map[], 0;
    }

    method PurgeExpiredPending(now: Time)
      requires WellNumbered()
      modifies this`devices
      ensures WellNumbered() && View() == Next(settings, old(View()), Timed(now, PurgePending))
    {
      devices := map id | id in devices && !PurgeDue(devices[id], now) :: devices[id];
    }

    /** The three lookups of enroll_device. */
    method FindRow(q: EnrolRequest, now: Time) returns (f: Found)
      ensures Finds(settings, View(), q, now, f)
    {
      if id :| id in devices && HasKey(devices[id], q) {
        return Same(id);
      }
      var db := Db(devices, tokens);
      LatestExists(settings, db, q, now, db.devices.Keys);
      if id :| id in devices && IsLatestFusible(settings, db, q, now, id) {
        return Fused(id);
      }
      if id :| id in devices && Rebindable(devices[id], q) {
        return Rebound(id);
      }
      return Nothing;
    }

    method EnrollDevice(q: EnrolRequest, now: Time) returns (answer: EnrolAnswer, found: Found, newId: DeviceId)
      requires WellNumbered()
      modifies this
      ensures WellNumbered()
      ensures answer.BadRequest? <==> q.qrToken == "" || q.deviceKey == ""
      ensures answer.BadRequest? ==> View() == old(View())
      ensures !answer.BadRequest? ==>
                var purged := Purged(old(View()), now);
                Finds(settings, purged, q, now, found) && newId !in old(devices)
                  && (View(), answer) == Enrol(settings, purged, q, now, found, newId)
      ensures !answer.BadRequest? ==> View() == Next(settings, old(View()), Timed(now, EnrolDevice(q, found, newId)))
    {
      found, newId := Nothing, nextId;
      if q.qrToken == "" || q.deviceKey == "" {
        return BadRequest, found, newId;
      }
      PurgeExpiredPending(now);
      found := FindRow(q, now);
      if q.qrToken !in tokens {
        return InvalidQr, found, newId;
      }
      var issued := tokens[q.qrToken];
      if issued.expiresAt < now {
        return QrExpired, found, newId;
      }
      if found.Same? && devices[found.id].status.Revoked? {
        return DeviceRevoked, found, newId;
      }
      if !found.Nothing? {
        var d := devices[found.id];
        if found.Rebound? {
          d := d.(deviceKey := Cut(q.deviceKey));
        }
        d := Refreshed(settings, d, q, now);
        devices := devices[found.id := d];
        return Enrolled(PayloadOf(found.id, d)), found, newId;
      }
      if Owned(Db(devices, tokens), q.qrToken) {
        return AlreadyBound, found, newId;
      }
      var d := FreshDevice(settings, issued, q, now);
      devices := devices[newId := d];
      nextId := nextId + 1;
      return Enrolled(PayloadOf(newId, d)), found, newId;
    }

    method ValidateDeviceToken(p: Payload, now: Time) returns (answer: ValidateAnswer)
      requires WellNumbered()
      modifies this`devices
      ensures WellNumbered() && (View(), answer) == Validate(old(View()), p, now)
    {
      if p.qrToken == "" {
        return InvalidPayload;
      }
      if p.retentionUntil != 0 && p.retentionUntil < now {
        return RetentionExpired;
      }
      if p.deviceId !in devices {
        return NotFound;
      }
      var rec := devices[p.deviceId];
      if rec.status.Revoked? {
        return WasRevoked;
      }
      if rec.qrToken != p.qrToken {
        return TokenMismatch;
      }
      if rec.retentionExpiresAt < now {
        return RetentionExpired;
      }
      if p.qrToken !in tokens || tokens[p.qrToken].expiresAt < now {
        return QrTokenExpired;
      }
      if rec.status.Pending? {
        if OwnedByAnother(Db(devices, tokens), p.qrToken, p.deviceId) {
          return SessionAlreadyBound;
        }
        rec := rec.(status := Active, confirmedAt := Some(now), purgeAt := None);
      }
      rec := rec.(lastSeenAt := now);
      devices := devices[p.deviceId := rec];
      var refreshed := None;
      if p.retentionUntil != rec.retentionExpiresAt {
        refreshed := Some(p.(retentionUntil := rec.retentionExpiresAt));
      }
      return Valid(p.deviceId, refreshed);
    }

    method Revoke(id: DeviceId, userSub: string, now: Time) returns (found: bool)
      requires WellNumbered()
      modifies this`devices
      ensures WellNumbered() && View() == Next(settings, old(View()), Timed(now, RevokeDevice(id, userSub)))
      ensures found <==> id in old(devices) && old(devices)[id].userSub == userSub
      ensures found ==> devices[id].status.Revoked? && devices[id].revokedAt == Some(now)
    {
      found := id in devices && devices[id].userSub == userSub;
      if found {
        devices := devices[id := RevokeRow(devices[id], now)];
      }
    }

    method RevokeAllOf(userSub: Option<string>, now: Time) returns (count: nat)
      requires WellNumbered()
      modifies this`devices
      ensures WellNumbered() && View() == Next(settings, old(View()), Timed(now, RevokeAll(userSub)))
      ensures count == |ActiveOf(old(View()), userSub)|
      ensures forall id :: id in ActiveOf(old(View()), userSub) ==> id in devices && devices[id].status.Revoked?
    {
      var hit := ActiveOf(Db(devices, tokens), userSub);
      devices := map id | id in devices :: if id in hit then RevokeRow(devices[id], now) else devices[id];
      count := |hit|;
    }

    /** `seconds` is the validity asked for, after the defaults and bounds of the handler. */
    method ExtendToken(qr: string, userSub: string, seconds: nat, now: Time) returns (extended: bool)
      requires WellNumbered()
      modifies this`devices, this`tokens
      ensures WellNumbered()
      ensures View() == Next(settings, old(View()), Timed(now, Event.ExtendToken(qr, userSub, seconds)))
      ensures extended <==> qr in old(tokens) && old(tokens)[qr].userSub == userSub
    {
      extended := qr in tokens && tokens[qr].userSub == userSub;
      if extended {
        var base := tokens[qr].expiresAt;
        if base < now {
          base := now;
        }
        tokens := tokens[qr := tokens[qr].(expiresAt := base + seconds)];
        var retention := now + settings.retention;
        devices := map id | id in devices ::
          if devices[id].qrToken == qr && devices[id].status.Active? then devices[id].(retentionExpiresAt := retention)
            else devices[id];
      }
    }

    method RenameDevice(id: DeviceId, userSub: string, name: string, now: Time) returns (renamed: bool)
      requires WellNumbered()
      modifies this`devices
      ensures WellNumbered() && View() == Next(settings, old(View()), Timed(now, Event.RenameDevice(id, userSub, name)))
      ensures renamed <==> name != "" && id in old(devices) && old(devices)[id].userSub == userSub
    {
      renamed := name != "" && id in devices && devices[id].userSub == userSub;
      if renamed {
        devices := devices[id := devices[id].(name := Some(Cut(name)))];
      }
    }

    method DeleteDevice(id: DeviceId, userSub: string, now: Time) returns (deleted: bool)
      requires WellNumbered()
      modifies this`devices
      ensures WellNumbered() && View() == Next(settings, old(View()), Timed(now, Event.DeleteDevice(id, userSub)))
      ensures deleted <==> id in old(devices) && old(devices)[id].userSub == userSub
    {
      deleted := id in devices && devices[id].userSub == userSub;
      if deleted {
        devices := devices - {id};
      }
    }

    /** The purge of expired tokens, which the internal bridge makes on the same tables. */
    method PurgeTokenRows(now: Time) returns (count: nat)
      requires WellNumbered()
      modifies this`tokens
      ensures WellNumbered() && View() == Next(settings, old(View()), Timed(now, PurgeTokens))
      ensures count == |set qr | qr in old(tokens) && TokenDue(old(View()), qr, now)|
    {
      var db := Db(devices, tokens);
      var due := set qr | qr in tokens && TokenDue(db, qr, now);
      tokens := map qr | qr in tokens && qr !in due :: tokens[qr];
      count := |due|;
    }

    method DeleteSessionByCode(code: string, userSub: string, now: Time) returns (deleted: bool)
      requires WellNumbered()
      modifies this`devices, this`tokens
      ensures WellNumbered() && View() == Next(settings, old(View()), Timed(now, DeleteSession(code, userSub)))
      ensures deleted <==> exists qr ::
              qr in old(tokens) && HasCode(old(View()), qr, code) && old(tokens)[qr].userSub == userSub
    {
      var db := Db(devices, tokens);
      deleted := exists qr :: qr in tokens && HasCode(db, qr, code) && tokens[qr].userSub == userSub;
      if deleted {
        devices := map id | id in devices && devices[id].simpleCode != code :: devices[id];
        tokens := map qr | qr in tokens && !HasCode(db, qr, code) :: tokens[qr];
      }
    }
  }

  /** If some of these rows is fusible, one of them is the latest. */
  lemma {:induction false} LatestExists(c: Settings, db: Db, q: EnrolRequest, now: Time, ids: set<DeviceId>)
    requires ids <= db.devices.Keys
    ensures (exists id :: id in ids && Fusible(c, db.devices[id], q, now)) ==>
              exists id :: id in ids && Fusible(c, db.devices[id], q, now)
                && forall o :: o in ids && Fusible(c, db.devices[o], q, now) ==>
                     db.devices[o].createdAt <= db.devices[id].createdAt
    decreases ids
  {
    if x :| x in ids && Fusible(c, db.devices[x], q, now) {
      var rest := ids - {x};
      LatestExists(c, db, q, now, rest);
      assert forall o :: o in ids ==> o == x || o in rest;
      if y :| y in rest && Fusible(c, db.devices[y], q, now)
              && (forall o :: o in rest && Fusible(c, db.devices[o], q, now) ==>
                    db.devices[o].createdAt <= db.devices[y].createdAt) {
        var z := if db.devices[x].createdAt <= db.devices[y].createdAt then y else x;
        assert z in ids && Fusible(c, db.devices[z], q, now);
      }
    }
  }

  // ---- Invariant ----------------------------------------------------------------------------------

  /** Active rows are confirmed, and pending ones are not and will be purged. */
  predicate StatusOk(d: Device)
  {
    (d.status.Active? ==> d.confirmedAt.Some?) && (d.status.Pending? ==> d.confirmedAt.None? && d.purgeAt.Some?)
  }

  predicate MatchesToken(db: Db, d: Device)
  {
    d.qrToken in db.tokens && db.tokens[d.qrToken].userSub == d.userSub
      && db.tokens[d.qrToken].simpleCode == d.simpleCode
  }

  predicate Rivals(a: Device, b: Device)
  {
    a.qrToken == b.qrToken && a.status.Active? && b.status.Active?
  }

  predicate OneOwner(db: Db)
  {
    forall a, b :: a in db.devices && b in db.devices && Rivals(db.devices[a], db.devices[b]) ==> a == b
  }

  predicate CodesDiffer(db: Db)
  {
    forall p, q :: p in db.tokens && q in db.tokens && db.tokens[p].simpleCode == db.tokens[q].simpleCode ==> p == q
  }

  predicate Inv(db: Db)
  {
    (forall id :: id in db.devices ==> StatusOk(db.devices[id])) && OneOwner(db) && CodesDiffer(db)
  }

  lemma PurgeKeepsInv(db: Db, now: Time)
    requires Inv(db)
    ensures Inv(Purged(db, now))
  {
  }

  lemma EnrolKeepsInv(c: Settings, db: Db, q: EnrolRequest, now: Time, f: Found, newId: DeviceId)
    requires Inv(db) && Finds(c, db, q, now, f) && newId !in db.devices
    ensures Inv(Enrol(c, db, q, now, f, newId).0)
  {
    if !f.Nothing? {
      assert f.id in db.devices;
      var d := Written(c, db, q, now, f);
      assert d.status == db.devices[f.id].status && d.qrToken == db.devices[f.id].qrToken;
    }
  }

  /** The heart of it: a pending device becomes the owner only when there is none. */
  lemma ValidateKeepsInv(db: Db, p: Payload, now: Time)
    requires Inv(db)
    ensures Inv(Validate(db, p, now).0)
  {
    var id := p.deviceId;
    if Validate(db, p, now).1.Valid? && db.devices[id].status.Pending? {
      forall o | o in db.devices && o != id && StatusOk(db.devices[o])
        ensures !(db.devices[o].qrToken == p.qrToken && db.devices[o].status.Active?)
      {
        assert !Owns(db.devices[o], p.qrToken);
      }
    }
  }

  /** An event other than an enrolment or a validation. */
  predicate IsOther(c: Settings, db: Db, e: Timed)
  {
    Enabled(c, db, e) && !e.event.EnrolDevice? && !e.event.ValidateDevice?
  }

  /** The row still belongs to its user, token and code, and has not become active. */
  predicate Descends(d: Device, before: Device)
  {
    && d.qrToken == before.qrToken && d.userSub == before.userSub && d.simpleCode == before.simpleCode
    && (d.status.Active? ==> before.status.Active?) && (StatusOk(before) ==> StatusOk(d))
  }

  lemma OtherStepDescends(c: Settings, db: Db, e: Timed, id: DeviceId)
    requires IsOther(c, db, e) && id in Next(c, db, e).devices
    ensures id in db.devices && Descends(Next(c, db, e).devices[id], db.devices[id])
  {
    hide Enrol, Finds, Validate;
  }

  lemma OtherStepKeepsCodes(c: Settings, db: Db, e: Timed)
    requires CodesDiffer(db) && IsOther(c, db, e)
    ensures CodesDiffer(Next(c, db, e))
  {
    hide Enrol, Finds, Validate;
  }

  lemma OtherStepKeepsInv(c: Settings, db: Db, e: Timed)
    requires Inv(db) && IsOther(c, db, e)
    ensures Inv(Next(c, db, e))
  {
    hide Next, StatusOk, CodesDiffer, IsOther;
    OtherStepKeepsCodes(c, db, e);
    forall id | id in Next(c, db, e).devices
      ensures id in db.devices && Descends(Next(c, db, e).devices[id], db.devices[id])
    {
      OtherStepDescends(c, db, e, id);
    }
    forall a, b | a in Next(c, db, e).devices && b in Next(c, db, e).devices
      && Rivals(Next(c, db, e).devices[a], Next(c, db, e).devices[b])
      ensures a == b
    {
      assert Rivals(db.devices[a], db.devices[b]);
    }
  }

  lemma StepKeepsInv(c: Settings, db: Db, e: Timed)
    requires Inv(db) && Enabled(c, db, e)
    ensures Inv(Next(c, db, e))
  {
    hide Inv, Enrol, Validate, Finds;
    match e.event {
      case EnrolDevice(q, f, newId) =>
        PurgeKeepsInv(db, e.now);
        if q.qrToken != "" && q.deviceKey != "" {
          EnrolKeepsInv(c, Purged(db, e.now), q, e.now, f, newId);
        }
      case ValidateDevice(p) => ValidateKeepsInv(db, p, e.now);
      case _ => OtherStepKeepsInv(c, db, e);
    }
  }

  function Exec(c: Settings, db: Db, run: seq<Timed>): Db
  {
    if run == [] then db else Next(c, Exec(c, db, run[..|run| - 1]), run[|run| - 1])
  }

  predicate IsRun(c: Settings, db: Db, run: seq<Timed>)
  {
    run == [] || (IsRun(c, db, run[..|run| - 1]) && Enabled(c, Exec(c, db, run[..|run| - 1]), run[|run| - 1]))
  }

  const Empty := Db(map[], map[])

  lemma {:induction false} RunKeepsInv(c: Settings, run: seq<Timed>)
    requires IsRun(c, Empty, run)
    ensures Inv(Exec(c, Empty, run))
    decreases |run|
  {
    if run != [] {
      RunKeepsInv(c, run[..|run| - 1]);
      StepKeepsInv(c, Exec(c, Empty, run[..|run| - 1]), run[|run| - 1]);
    }
  }

  // ---- Theorems -----------------------------------------------------------------------------------

  /** The purge deletes the token of the row, which expired more than 90 days ago. */
  predicate PurgesTokenOf(db: Db, e: Timed, d: Device)
  {
    e.event.PurgeTokens? && MatchesToken(db, d) && db.tokens[d.qrToken].expiresAt < e.now - USED_TOKEN_GRACE_S
  }

  predicate SameSession(a: Device, b: Device)
  {
    a.qrToken == b.qrToken && a.userSub == b.userSub && a.simpleCode == b.simpleCode
  }

  /** A row keeps its user, QR token and code, and only enrolment adds one, with a token. */
  lemma StepKeepsSession(c: Settings, db: Db, e: Timed, id: DeviceId)
    requires Enabled(c, db, e) && id in Next(c, db, e).devices
    ensures id in db.devices ==> SameSession(Next(c, db, e).devices[id], db.devices[id])
    ensures id !in db.devices ==> e.event.EnrolDevice? && MatchesToken(Next(c, db, e), Next(c, db, e).devices[id])
  {
    if IsOther(c, db, e) {
      hide Next, Enabled, IsOther;
      OtherStepDescends(c, db, e, id);
    } else {
      hide Fusible;
    }
  }

  /** A surviving row keeps its token, unless the purge deletes that. */
  lemma StepKeepsToken(c: Settings, db: Db, e: Timed, id: DeviceId)
    requires Enabled(c, db, e) && id in db.devices && id in Next(c, db, e).devices && MatchesToken(db, db.devices[id])
    ensures MatchesToken(Next(c, db, e), db.devices[id]) || PurgesTokenOf(db, e, db.devices[id])
  {
    hide Finds;
  }

  /** Some purge of the run deleted the token of the row. */
  ghost predicate Orphaned(c: Settings, run: seq<Timed>, d: Device)
  {
    exists k :: 0 <= k < |run| && PurgesTokenOf(Exec(c, Empty, run[..k]), run[k], d)
  }

  lemma OrphanedGrows(c: Settings, run: seq<Timed>, d: Device)
    requires run != []
    requires Orphaned(c, run[..|run| - 1], d) || PurgesTokenOf(Exec(c, Empty, run[..|run| - 1]), run[|run| - 1], d)
    ensures Orphaned(c, run, d)
  {
    hide Exec, PurgesTokenOf;
    var before := run[..|run| - 1];
    if k :| 0 <= k < |before| && PurgesTokenOf(Exec(c, Empty, before[..k]), before[k], d) {
      assert before[..k] == run[..k];
      assert PurgesTokenOf(Exec(c, Empty, run[..k]), run[k], d);
    } else {
      assert PurgesTokenOf(Exec(c, Empty, run[..|run| - 1]), run[|run| - 1], d);
    }
  }

  lemma OrphanedTogether(c: Settings, run: seq<Timed>, a: Device, b: Device)
    requires SameSession(a, b) && Orphaned(c, run, a)
    ensures Orphaned(c, run, b)
  {
    hide Exec;
    var k :| 0 <= k < |run| && PurgesTokenOf(Exec(c, Empty, run[..k]), run[k], a);
    assert PurgesTokenOf(Exec(c, Empty, run[..k]), run[k], b);
  }

  /** Over every run a device matches a live token's user and code, or the purge has deleted its token. */
  lemma {:induction false} DeviceHasTokenOrIsOrphaned(c: Settings, run: seq<Timed>, id: DeviceId)
    requires IsRun(c, Empty, run) && id in Exec(c, Empty, run).devices
    ensures var db := Exec(c, Empty, run); MatchesToken(db, db.devices[id]) || Orphaned(c, run, db.devices[id])
    decreases |run|
  {
    hide Next, Enabled, MatchesToken, Orphaned, PurgesTokenOf;
    if run != [] {
      var before, e := run[..|run| - 1], run[|run| - 1];
      var db := Exec(c, Empty, before);
      var d := Next(c, db, e).devices[id];
      StepKeepsSession(c, db, e, id);
      if id in db.devices {
        DeviceHasTokenOrIsOrphaned(c, before, id);
        if MatchesToken(db, db.devices[id]) {
          StepKeepsToken(c, db, e, id);
        }
        TokenFollowsSession(db, d, db.devices[id], e);
        TokenFollowsSession(Next(c, db, e), d, db.devices[id], e);
        if Orphaned(c, before, db.devices[id]) {
          OrphanedTogether(c, before, db.devices[id], d);
        }
        if Orphaned(c, before, d) || PurgesTokenOf(db, e, d) {
          OrphanedGrows(c, run, d);
        }
      }
    }
  }

  lemma TokenFollowsSession(db: Db, a: Device, b: Device, e: Timed)
    requires SameSession(a, b)
    ensures MatchesToken(db, a) <==> MatchesToken(db, b)
    ensures PurgesTokenOf(db, e, a) <==> PurgesTokenOf(db, e, b)
  {
  }

  /**
   Over every run each QR token has at most one confirmed device, and every device matches a live token's user and
   code, or a purge deleted its token more than 90 days after it expired.
   */
  lemma OneDevicePerToken(c: Settings, run: seq<Timed>)
    requires IsRun(c, Empty, run)
    ensures var db := Exec(c, Empty, run);
            && (forall qr, a, b ::
                  a in db.devices && b in db.devices && Owns(db.devices[a], qr) && Owns(db.devices[b], qr) ==> a == b)
            && (forall id :: id in db.devices ==> MatchesToken(db, db.devices[id]) || Orphaned(c, run, db.devices[id]))
  {
    RunKeepsInv(c, run);
    forall id | id in Exec(c, Empty, run).devices
      ensures var db := Exec(c, Empty, run); MatchesToken(db, db.devices[id]) || Orphaned(c, run, db.devices[id])
    {
      DeviceHasTokenOrIsOrphaned(c, run, id);
    }
  }

  lemma PurgeKeepsOwners(db: Db, now: Time, qr: string)
    ensures Owned(Purged(db, now), qr) <==> Owned(db, qr)
  {
    if o :| o in db.devices && Owns(db.devices[o], qr) {
      assert o in Purged(db, now).devices && Owns(Purged(db, now).devices[o], qr);
    }
  }

  /** No handler adds a row to a token that has a confirmed device, and only enrolment adds any. */
  lemma OwnedTokenGetsNoRow(c: Settings, db: Db, e: Timed, id: DeviceId)
    requires Enabled(c, db, e) && id in Next(c, db, e).devices && id !in db.devices
    ensures e.event.EnrolDevice? && id == e.event.newId
    ensures Next(c, db, e).devices[id].qrToken == e.event.request.qrToken && !Owned(db, e.event.request.qrToken)
  {
    match e.event {
      case EnrolDevice(q, f, newId) => PurgeKeepsOwners(db, e.now, q.qrToken);
      case _ =>
    }
  }

  predicate IsRevoked(db: Db, id: DeviceId)
  {
    id in db.devices && db.devices[id].status.Revoked?
  }

  lemma StepKeepsRevoked(c: Settings, db: Db, e: Timed, id: DeviceId)
    requires Enabled(c, db, e) && IsRevoked(db, id)
    ensures var db' := Next(c, db, e);
            id in db'.devices ==>
              && IsRevoked(db', id) && db'.devices[id].deviceKey == db.devices[id].deviceKey
              && db'.devices[id].retentionExpiresAt == db.devices[id].retentionExpiresAt
  {
    if e.event.EnrolDevice? && !e.event.found.Nothing? {
      assert e.event.found.id in Purged(db, e.now).devices;
      assert !IsRevoked(db, e.event.found.id) || e.event.found.Same?;
    }
  }

  /**
   Revoked is absorbing: a revoked row that has not been deleted is still revoked, with its key and dates, after any
   run.
   */
  lemma {:induction false} RevokedIsAbsorbing(c: Settings, db: Db, run: seq<Timed>, id: DeviceId)
    requires IsRun(c, db, run) && IsRevoked(db, id)
    requires forall k :: 0 <= k <= |run| ==> id in Exec(c, db, run[..k]).devices
    ensures var db' := Exec(c, db, run);
            && IsRevoked(db', id) && db'.devices[id].deviceKey == db.devices[id].deviceKey
            && db'.devices[id].retentionExpiresAt == db.devices[id].retentionExpiresAt
    decreases |run|
  {
    hide Next, Enabled;
    if run != [] {
      var before := run[..|run| - 1];
      assert forall k :: 0 <= k <= |before| ==> before[..k] == run[..k];
      assert run[..|run|] == run;
      RevokedIsAbsorbing(c, db, before, id);
      StepKeepsRevoked(c, Exec(c, db, before), run[|run| - 1], id);
    }
  }

  /**
   After a successful validation the client's token, refreshed or not, carries the stored retention and its own
   identity.
   */
  lemma ValidateRefreshesRetention(db: Db, p: Payload, now: Time)
    ensures var (db', answer) := Validate(db, p, now);
            answer.Valid? ==>
              var held := if answer.refreshed.Some? then answer.refreshed.value else p;
              && p.deviceId in db'.devices && db'.devices[p.deviceId].status.Active?
              && held == p.(retentionUntil := db'.devices[p.deviceId].retentionExpiresAt)
  {
  }

  /**
   Renewing a QR token gives its active devices until the new dates, but a client gets through exactly while the
   date in the token it holds has not passed: the handler looks at that date first.
   */
  lemma RenewalReachesClientIff(
    c: Settings, db: Db, qr: string, userSub: string, seconds: nat, now: Time, p: Payload, later: Time)
    requires qr != "" && qr in db.tokens && db.tokens[qr].userSub == userSub
    requires p.qrToken == qr && p.deviceId in db.devices && db.devices[p.deviceId].qrToken == qr
    requires db.devices[p.deviceId].status.Active?
    requires now <= later <= now + seconds && later <= now + c.retention
    ensures Validate(Next(c, db, Timed(now, ExtendToken(qr, userSub, seconds))), p, later).1.Valid? <==>
            p.retentionUntil == 0 || later <= p.retentionUntil
  {
  }

  /** The event writes or deletes the row, or deletes its QR token. */
  predicate Touches(db: Db, e: Timed, id: DeviceId)
    requires id in db.devices
  {
    var d := db.devices[id];
    match e.event
    case IssueToken(_, _) => false
    case ExtendToken(qr, _, _) => d.qrToken == qr && d.status.Active?
    case EnrolDevice(_, f, _) => PurgeDue(d, e.now) || (!f.Nothing? && f.id == id)
    case ValidateDevice(p) => p.deviceId == id
    case RenameDevice(other, _, _) => other == id
    case RevokeDevice(other, _) => other == id
    case RevokeAll(owner) => id in ActiveOf(db, owner)
    case DeleteDevice(other, _) => other == id
    case DeleteSession(code, _) => d.simpleCode == code || HasCode(db, d.qrToken, code)
    case PurgePending => PurgeDue(d, e.now)
    case PurgeTokens => TokenDue(db, d.qrToken, e.now)
  }

  lemma StepLeavesRow(c: Settings, db: Db, e: Timed, id: DeviceId)
    requires Enabled(c, db, e) && id in db.devices && !Touches(db, e, id) && db.devices[id].qrToken in db.tokens
    ensures var db', qr := Next(c, db, e), db.devices[id].qrToken;
            && id in db'.devices && db'.devices[id] == db.devices[id]
            && qr in db'.tokens && db.tokens[qr].expiresAt <= db'.tokens[qr].expiresAt
  {
    hide Finds;
  }

  ghost predicate NeverTouched(c: Settings, db: Db, run: seq<Timed>, id: DeviceId)
  {
    forall k :: 0 <= k < |run| && id in Exec(c, db, run[..k]).devices ==> !Touches(Exec(c, db, run[..k]), run[k], id)
  }

  /** A run that does not touch a row or purge its token leaves it, and the token lives at least as long. */
  lemma {:induction false} UntouchedStays(c: Settings, db: Db, run: seq<Timed>, id: DeviceId)
    requires IsRun(c, db, run) && id in db.devices && NeverTouched(c, db, run, id)
    requires db.devices[id].qrToken in db.tokens
    ensures var db', qr := Exec(c, db, run), db.devices[id].qrToken;
            && id in db'.devices && db'.devices[id] == db.devices[id]
            && qr in db'.tokens && db.tokens[qr].expiresAt <= db'.tokens[qr].expiresAt
    decreases |run|
  {
    hide Next, Enabled, Touches;
    if run != [] {
      var before, e := run[..|run| - 1], run[|run| - 1];
      forall k | 0 <= k < |before| && id in Exec(c, db, before[..k]).devices
        ensures !Touches(Exec(c, db, before[..k]), before[k], id)
      {
        assert before[..k] == run[..k];
      }
      UntouchedStays(c, db, before, id);
      StepLeavesRow(c, Exec(c, db, before), e, id);
    }
  }

  lemma ValidateUntouched(db: Db, id: DeviceId, later: Time)
    requires id in db.devices && db.devices[id].qrToken != "" && !db.devices[id].status.Revoked?
    requires StatusOk(db.devices[id]) && db.devices[id].qrToken in db.tokens
    requires later <= db.devices[id].retentionExpiresAt && later <= db.tokens[db.devices[id].qrToken].expiresAt
    ensures var d := db.devices[id];
            Validate(db, PayloadOf(id, d), later).1
            == if d.status.Pending? && Owned(db, d.qrToken) then SessionAlreadyBound else Valid(id, None)
  {
  }

  lemma EnrolledRow(c: Settings, db: Db, q: EnrolRequest, now: Time, f: Found, newId: DeviceId)
    requires Finds(c, db, q, now, f) && newId !in db.devices && Enrol(c, db, q, now, f, newId).1.Enrolled?
    ensures var (db', answer) := Enrol(c, db, q, now, f, newId);
            var id := answer.payload.deviceId;
            && id in db'.devices && answer.payload == PayloadOf(id, db'.devices[id])
            && db'.devices[id].qrToken == q.qrToken && !db'.devices[id].status.Revoked?
            && q.qrToken in db'.tokens && db'.devices[id].retentionExpiresAt == now + c.retention
  {
  }

  /**
   The token an enrolment hands out passes validation any time within the retention and the life of the QR token,
   whatever other handlers have run, if none touched the row; unless it was pending and another device has been
   confirmed since.
   */
  lemma EnrolledDeviceValidates(
    c: Settings, db: Db, q: EnrolRequest, now: Time, f: Found, newId: DeviceId, run: seq<Timed>, later: Time)
    requires Inv(db) && Finds(c, db, q, now, f) && newId !in db.devices && q.qrToken != ""
    requires Enrol(c, db, q, now, f, newId).1.Enrolled?
    requires var (db', answer) := Enrol(c, db, q, now, f, newId);
             IsRun(c, db', run) && NeverTouched(c, db', run, answer.payload.deviceId)
    requires later <= now + c.retention && later <= db.tokens[q.qrToken].expiresAt
    ensures var (db', answer) := Enrol(c, db, q, now, f, newId);
            var id := answer.payload.deviceId;
            id in db'.devices &&
            Validate(Exec(c, db', run), answer.payload, later).1
            == if db'.devices[id].status.Pending? && Owned(Exec(c, db', run), q.qrToken) then SessionAlreadyBound
              else Valid(id, None)
  {
    var (db', answer) := Enrol(c, db, q, now, f, newId);
    EnrolKeepsInv(c, db, q, now, f, newId);
    EnrolledRow(c, db, q, now, f, newId);
    assert db'.tokens == db.tokens;
    hide Enrol, Validate, Finds, Next;
    UntouchedStays(c, db', run, answer.payload.deviceId);
    ValidateUntouched(Exec(c, db', run), answer.payload.deviceId, later);
  }

  // ---- Keys ---------------------------------------------------------------------------------------

  predicate SameIdentity(a: Device, b: Device)
  {
    a.qrToken == b.qrToken && a.deviceKey == b.deviceKey
  }

  /** (qr_token, device_key) identifies a row. */
  predicate KeysDiffer(db: Db)
  {
    forall a, b :: a in db.devices && b in db.devices && SameIdentity(db.devices[a], db.devices[b]) ==> a == b
  }

  lemma EnrolKeepsKeys(c: Settings, db: Db, q: EnrolRequest, now: Time, f: Found, newId: DeviceId)
    requires KeysDiffer(db) && Finds(c, db, q, now, f) && newId !in db.devices && |q.deviceKey| <= KEY_LIMIT
    ensures KeysDiffer(Enrol(c, db, q, now, f, newId).0)
  {
    if !f.Same? {
      forall id | id in db.devices && db.devices[id].qrToken == q.qrToken
        ensures db.devices[id].deviceKey != q.deviceKey
      {
        assert !HasKey(db.devices[id], q);
      }
    }
  }

  lemma {:induction false} KeysStayUnique(c: Settings, run: seq<Timed>)
    requires IsRun(c, Empty, run)
    requires forall k :: 0 <= k < |run| && run[k].event.EnrolDevice? ==> |run[k].event.request.deviceKey| <= KEY_LIMIT
    ensures KeysDiffer(Exec(c, Empty, run))
    decreases |run|
  {
    if run != [] {
      KeysStayUnique(c, run[..|run| - 1]);
      var db, e := Exec(c, Empty, run[..|run| - 1]), run[|run| - 1];
      match e.event {
        case EnrolDevice(q, f, newId) =>
          if q.qrToken != "" && q.deviceKey != "" {
            EnrolKeepsKeys(c, Purged(db, e.now), q, e.now, f, newId);
          }
        case _ =>
      }
    }
  }

  /** An enrolment that makes two rows with one key, from a database that had none. */
  ghost predicate Repeats(c: Settings, db: Db, q: EnrolRequest, now: Time, f: Found, newId: DeviceId)
  {
    Inv(db) && KeysDiffer(db) && Finds(c, db, q, now, f) && newId !in db.devices
      && !KeysDiffer(Enrol(c, db, q, now, f, newId).0)
  }

  lemma LongKeyRepeats(c: Settings, key: string)
    requires |key| > KEY_LIMIT
    ensures exists db: Db, q: EnrolRequest, now: Time, f: Found, newId: DeviceId ::
            Repeats(c, db, q, now, f, newId) && q.deviceKey == key
  {
    var issued := Issued("user", "CODE", 1000);
    var q := EnrolRequest("qr", key, "", "");
    var db := Db(map[1 := FreshDevice(c, issued, q, 0)], map["qr" := issued]);
    var db' := Enrol(c, db, q, 0, Nothing, 2).0;
    assert SameIdentity(db'.devices[1], db'.devices[2]);
    assert Repeats(c, db, q, 0, Nothing, 2);
  }

  /**
   Whatever the database, enrolling with a key keeps (qr_token, device_key) unique exactly if the key fits the column.
   */
  lemma KeyLimitIsExact(c: Settings, key: string)
    ensures |key| <= KEY_LIMIT <==>
            !exists db: Db, q: EnrolRequest, now: Time, f: Found, newId: DeviceId ::
              Repeats(c, db, q, now, f, newId) && q.deviceKey == key
  {
    if |key| <= KEY_LIMIT {
      forall db: Db, q: EnrolRequest, now: Time, f: Found, newId: DeviceId | Repeats(c, db, q, now, f, newId)
        && q.deviceKey == key
        ensures false
      {
        EnrolKeepsKeys(c, db, q, now, f, newId);
      }
    } else {
      LongKeyRepeats(c, key);
    }
  }
}
