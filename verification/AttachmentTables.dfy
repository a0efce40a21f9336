/** The attachment, reservation and quota tables, and what each statement or transaction does to them.

    Every function here is one atomic database action. An action that throws, and so rolls its
    transaction back, returns `None`. */
module AttachmentTables {
  import opened Sums

  type AttId = nat
  type ResId = nat
  type Nonce = nat

  datatype Owner = Customer(id: nat) | Guest(identity: nat)

  /** The SHA-256 of an owner id or of a nonce, taken as injective. */
  datatype OwnerKey = OwnerHash(owner: Owner)
  datatype NonceHash = NonceHash(nonce: Nonce)

  /** An owner's storage path. `PathFromKey` is the path the reconciler rebuilds from an attachment row. */
  datatype OwnerPath = PathOf(owner: Owner) | PathFromKey(isCustomer: bool, key: OwnerKey)

  datatype FilePath = StagedFile(path: OwnerPath, id: AttId) | FinalFile(path: OwnerPath, id: AttId)

  datatype Counter = Counter(used: int, reserved: int)

  datatype AttachmentState = Issued | Uploading | Staged | Finalizing | Committed | Failed | Expired

  datatype Attachment = Attachment(
    isCustomer: bool,
    key: OwnerKey,
    state: AttachmentState,
    bytes: int,
    reservation: ResId,
    nonce: NonceHash,
    expiresAt: int,
    updatedAt: int,
    stagedPath: Option<FilePath>,
    finalPath: Option<FilePath>)

  datatype ReservationState = Active | Settled | Released | Lapsed

  datatype Reservation = Reservation(
    attachment: AttId,
    path: OwnerPath,
    bytes: int,
    state: ReservationState,
    expiresAt: int)

  datatype Tables = Tables(
    owners: map<OwnerPath, Counter>,
    global: Option<Counter>,
    attachments: map<AttId, Attachment>,
    reservations: map<ResId, Reservation>)

  const LEASE_SECONDS := 30
  const STALE_FINALIZING_SECONDS := 60
  const REVIVE_SECONDS := 300
  const EXPIRY_GRACE_SECONDS := 600

  // ---------------------------------------------------------------- quota counters

  function UpsertOwner(t: Tables, path: OwnerPath, used: int): Tables {
    if path in t.owners then t else t.(owners := t.owners[path := Counter(Clamp(used), 0)])
  }

  function UpsertGlobal(t: Tables, used: int): Tables {
    if t.global.Some? then t else t.(global := Some(Counter(Clamp(used), 0)))
  }

  function OwnerRow(t: Tables, path: OwnerPath): Counter {
    if path in t.owners then t.owners[path] else Counter(0, 0)
  }

  function GlobalRow(t: Tables): Counter {
    if t.global.Some? then t.global.value else Counter(0, 0)
  }

  /** Room for a reservation of `bytes > 0` on each level; without it the call throws. */
  predicate HasOwnerRoom(t: Tables, path: OwnerPath, maximum: int, bytes: int) {
    OwnerRow(t, path).used + OwnerRow(t, path).reserved + bytes <= Clamp(maximum)
  }

  predicate HasGlobalRoom(t: Tables, maximum: int, bytes: int) {
    GlobalRow(t).used + GlobalRow(t).reserved + bytes <= Clamp(maximum)
  }

  predicate HasRoom(t: Tables, path: OwnerPath, maximum: int, bytes: int, maximumGlobal: int) {
    HasGlobalRoom(t, maximumGlobal, bytes) && HasOwnerRoom(t, path, maximum, bytes)
  }

  predicate HasLimitedRoom(t: Tables, path: OwnerPath, maximum: int, bytes: int, maximumGlobal: Option<int>) {
    (maximumGlobal.Some? ==> HasGlobalRoom(t, maximumGlobal.value, bytes)) && HasOwnerRoom(t, path, maximum, bytes)
  }

  function Held(c: Counter, bytes: int): Counter {
    Counter(c.used, c.reserved + bytes)
  }

  /** A reservation with room, creating absent rows. */
  function Reserve(t: Tables, path: OwnerPath, bytes: int, globally: bool): Tables {
    if bytes <= 0 then
      t
    else
      t.(owners := t.owners[path := Held(OwnerRow(t, path), bytes)],
         global := if globally then Some(Held(GlobalRow(t), bytes)) else t.global)
  }

  function Moved(c: Counter, release: int, charge: int): Counter {
    Counter(c.used + charge, Clamp(c.reserved - release))
  }

  /** Releases `bytes` of reserved storage, charging them as used when `toUsed`. */
  function MoveReserved(t: Tables, path: OwnerPath, bytes: int, toUsed: bool): Tables {
    if bytes <= 0 || path !in t.owners then
      t
    else
      var charge := if toUsed then bytes else 0;
      t.(owners := t.owners[path := Moved(t.owners[path], bytes, charge)],
         global := if t.global.Some? then Some(Moved(t.global.value, bytes, charge)) else None)
  }

  function Freed(c: Counter, bytes: int): Counter {
    Counter(Clamp(c.used - bytes), c.reserved)
  }

  function ReleaseUsed(t: Tables, path: OwnerPath, bytes: int): Tables {
    if bytes <= 0 || path !in t.owners then
      t
    else
      t.(owners := t.owners[path := Freed(t.owners[path], bytes)],
         global := if t.global.Some? then Some(Freed(t.global.value, bytes)) else None)
  }

  /** The disk guard's first use of a scope, counted from a file scan. */
  function Initialized(t: Tables, path: OwnerPath, scannedOwner: int, globally: bool, scannedAll: int): Tables {
    var t := UpsertOwner(t, path, scannedOwner);
    if globally then UpsertGlobal(t, scannedAll) else t
  }

  /** Settlement through the counters alone; `None` when the extra bytes find no room. */
  function CounterSettlement(t: Tables, path: OwnerPath, reserved: int, size: int, maximum: int,
      maximumGlobal: int): Option<Tables> {
    if size > reserved then
      if HasRoom(t, path, maximum, size - reserved, maximumGlobal)
      then Some(MoveReserved(Reserve(t, path, size - reserved, true), path, size, true))
      else None
    else if size < reserved then
      Some(MoveReserved(MoveReserved(t, path, reserved - size, false), path, size, true))
    else
      Some(MoveReserved(t, path, size, true))
  }

  // ---------------------------------------------------------------- attachment rows

  predicate Claimable(row: Attachment, key: OwnerKey, nonce: Nonce, now: int) {
    row.key == key && row.nonce == NonceHash(nonce) && row.state == Issued && row.expiresAt >= now
  }

  function SetAttachment(t: Tables, id: AttId, row: Attachment): Tables {
    t.(attachments := t.attachments[id := row])
  }

  function SetReservation(t: Tables, id: ResId, row: Reservation): Tables {
    t.(reservations := t.reservations[id := row])
  }

  function ClaimForUpload(t: Tables, id: AttId, key: OwnerKey, nonce: Nonce, now: int): Tables {
    if id in t.attachments && Claimable(t.attachments[id], key, nonce, now)
    then SetAttachment(t, id, t.attachments[id].(state := Uploading, updatedAt := now))
    else t
  }

  function ReleaseUploadClaim(t: Tables, id: AttId, now: int): Tables {
    if id in t.attachments && t.attachments[id].state == Uploading
    then SetAttachment(t, id, t.attachments[id].(state := Issued, updatedAt := now))
    else t
  }

  function RecordStaged(t: Tables, id: AttId, path: FilePath, bytes: int, now: int): Tables {
    if id in t.attachments && t.attachments[id].state == Uploading
    then
      var row := t.attachments[id].(state := Staged, stagedPath := Some(path), bytes := bytes, updatedAt := now);
      SetAttachment(t, id, row)
    else t
  }

  /** Issued and staged rows are free to take; a finalizing row only once its lease has run out. */
  predicate CanFinalize(row: Attachment, now: int) {
    row.state in {Issued, Staged} || (row.state == Finalizing && row.updatedAt < now - LEASE_SECONDS)
  }

  function TryMarkFinalizing(t: Tables, id: AttId, now: int): Tables {
    if id in t.attachments && CanFinalize(t.attachments[id], now)
    then SetAttachment(t, id, t.attachments[id].(state := Finalizing, updatedAt := now))
    else t
  }

  // ---------------------------------------------------------------- the final commit

  predicate ReservationUsable(t: Tables, res: ResId, id: AttId, path: OwnerPath, now: int) {
    && res in t.reservations
    && t.reservations[res].attachment == id
    && t.reservations[res].path == path
    && t.reservations[res].state == Active
    && t.reservations[res].expiresAt >= now
  }

  predicate Finalizable(t: Tables, id: AttId, key: Option<OwnerKey>) {
    && id in t.attachments
    && t.attachments[id].state == Finalizing
    && (key.Some? ==> t.attachments[id].key == key.value)
  }

  /** The quota part of the final commit: an absent row is left absent. */
  function SettleQuota(t: Tables, path: OwnerPath, release: int, charge: int): Tables {
    t.(owners := if path in t.owners then t.owners[path := Moved(t.owners[path], release, charge)] else t.owners,
       global := if t.global.Some? then Some(Moved(t.global.value, release, charge)) else None)
  }

  /** The unified commit transaction; `None` is any of its exceptions. */
  function CommitFinal(
    t: Tables, id: AttId, finalPath: FilePath, path: OwnerPath, size: int, res: Option<ResId>, key: Option<OwnerKey>,
        now: int
  ): Option<Tables> {
    if res.Some? && !ReservationUsable(t, res.value, id, path, now) then
      None
    else
      var release := if res.Some? then t.reservations[res.value].bytes else size;
      var settled :=
        if res.Some? then SetReservation(t, res.value, t.reservations[res.value].(state := Settled)) else t;
      if Finalizable(t, id, key) then
        var row :=
          t.attachments[id].(state := Committed, finalPath := Some(finalPath), bytes := size, updatedAt := now);
        Some(SettleQuota(SetAttachment(settled, id, row), path, release, size))
      else if id in t.attachments && t.attachments[id].state == Committed then
        Some(settled)
      else
        None
  }

  // ---------------------------------------------------------------- reconciler rows

  predicate StaleFinalizing(row: Attachment, now: int) {
    row.state == Finalizing && row.updatedAt < now - STALE_FINALIZING_SECONDS
  }

  /** Returns a lost finalization to staged. */
  function ReturnToStaged(t: Tables, id: AttId, now: int): Tables {
    if id in t.attachments && t.attachments[id].state == Finalizing
    then SetAttachment(t, id, t.attachments[id].(state := Staged, updatedAt := now))
    else t
  }

  /** The lost-file branch: the reservation is released, the counters are left alone. */
  function FailLost(t: Tables, id: AttId, now: int): Tables {
    if id !in t.attachments then
      t
    else
      var row := t.attachments[id];
      var t := if row.reservation in t.reservations && t.reservations[row.reservation].state == Active
               then SetReservation(t, row.reservation, t.reservations[row.reservation].(state := Released))
               else t;
      if row.state == Finalizing then SetAttachment(t, id, row.(state := Failed, updatedAt := now)) else t
  }

  /** The grace window for a recovered finalization. */
  function Revive(t: Tables, id: AttId, res: ResId, now: int): Tables {
    if res in t.reservations && t.reservations[res].attachment == id && t.reservations[res].state in {Active, Lapsed}
    then SetReservation(t, res, t.reservations[res].(state := Active, expiresAt := now + REVIVE_SECONDS))
    else t
  }

  predicate OnDisk(path: Option<FilePath>, files: map<FilePath, nat>) {
    path.Some? && path.value in files
  }

  /** One row of the stale-finalizing pass. */
  function RecoverRow(t: Tables, id: AttId, files: map<FilePath, nat>, now: int): Tables {
    if id !in t.attachments then
      t
    else
      var row := t.attachments[id];
      if OnDisk(row.finalPath, files) then
        var revived := Revive(t, id, row.reservation, now);
        var committed := CommitFinal(revived, id, row.finalPath.value, PathFromKey(row.isCustomer, row.key),
                                     files[row.finalPath.value], Some(row.reservation), Some(row.key), now);
        if committed.Some? then committed.value else revived
      else if OnDisk(row.stagedPath, files) then
        ReturnToStaged(t, id, now)
      else
        FailLost(t, id, now)
  }

  predicate Expirable(t: Tables, res: ResId, now: int) {
    && res in t.reservations
    && t.reservations[res].state == Active
    && t.reservations[res].expiresAt < now - EXPIRY_GRACE_SECONDS
    && (t.reservations[res].attachment in t.attachments ==>
          t.attachments[t.reservations[res].attachment].state != Finalizing)
  }

  /** One row of the expiry pass: the conditional transition and, if it took place, its refunds. */
  function ExpireRow(t: Tables, res: ResId, now: int): Tables {
    if res !in t.reservations || t.reservations[res].state != Active then
      t
    else
      var row := t.reservations[res];
      var t := SettleQuota(SetReservation(t, res, row.(state := Lapsed)), row.path, row.bytes, 0);
      if row.attachment in t.attachments && t.attachments[row.attachment].state in {Issued, Staged}
      then SetAttachment(t, row.attachment, t.attachments[row.attachment].(state := Expired, updatedAt := now))
      else t
  }

  // ---------------------------------------------------------------- the two settlements

  /** With both quota rows present, settling through the counters changes them exactly as the atomic
      commit does; it fails only where the bytes beyond the reservation find no room. */
  lemma SettlementsAgree(t: Tables, path: OwnerPath, reserved: nat, size: nat, maximum: int, maximumGlobal: int)
    requires path in t.owners && t.global.Some?
    requires t.owners[path].reserved >= 0 && t.global.value.reserved >= 0
    ensures CounterSettlement(t, path, reserved, size, maximum, maximumGlobal)
            == if size > reserved && !HasRoom(t, path, maximum, size - reserved, maximumGlobal)
               then None else Some(SettleQuota(t, path, reserved, size))
  {
    var result := CounterSettlement(t, path, reserved, size, maximum, maximumGlobal);
    if result.Some? {
      assert result.value.owners == SettleQuota(t, path, reserved, size).owners;
      assert result.value.global == SettleQuota(t, path, reserved, size).global;
    }
  }
}
