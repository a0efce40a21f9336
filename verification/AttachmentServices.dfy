/** The services as written: statements against mutable tables, transactions that roll back.

    Each method is proved to do exactly what the function of the same name in `AttachmentTables` says,
    and those functions are what the protocol is built from. */
module AttachmentServices {
  import opened Sums
  import T = AttachmentTables

  class Connection {
    var owners: map<T.OwnerPath, T.Counter>
    var global: Option<T.Counter>
    var attachments: map<T.AttId, T.Attachment>
    var reservations: map<T.ResId, T.Reservation>

    function View(): T.Tables
      reads this
    {
      T.Tables(owners, global, attachments, reservations)
    }

    constructor ()
      ensures View() == T.Tables(map[], None, map[], map[])
    {
      owners, global, attachments, reservations := map[], None, map[], map[];
    }

    method RollBack(snapshot: T.Tables)
      modifies this
      ensures View() == snapshot
    {
      owners, global := snapshot.owners, snapshot.global;
      attachments, reservations := snapshot.attachments, snapshot.reservations;
    }
  }

  class AttachmentQuotaCounter {
    const db: Connection

    constructor (db: Connection)
      ensures this.db == db
    {
      this.db := db;
    }

    method UpsertOwner(path: T.OwnerPath, used: int)
      modifies db
      ensures db.View() == T.UpsertOwner(old(db.View()), path, used)
    {
      if path !in db.owners {
        db.owners := db.owners[path := T.Counter(Clamp(used), 0)];
      }
    }

    method UpsertGlobal(used: int)
      modifies db
      ensures db.View() == T.UpsertGlobal(old(db.View()), used)
    {
      if db.global.None? {
        db.global := Some(T.Counter(Clamp(used), 0));
      }
    }

    method Reserve(path: T.OwnerPath, maximum: int, bytes: int, maximumGlobal: Option<int>) returns (ok: bool)
      modifies db
      ensures ok <==> bytes <= 0 || T.HasLimitedRoom(old(db.View()), path, maximum, bytes, maximumGlobal)
      ensures db.View() == if ok then T.Reserve(old(db.View()), path, bytes, maximumGlobal.Some?) else old(db.View())
    {
      if bytes <= 0 {
        return true;
      }
      var snapshot := db.View();
      UpsertOwner(path, 0);
      if maximumGlobal.Some? {
        UpsertGlobal(0);
      }
      var row := db.owners[path];
      if maximumGlobal.Some? && db.global.value.used + db.global.value.reserved + bytes > Clamp(maximumGlobal.value) {
        db.RollBack(snapshot);
        return false;
      }
      if row.used + row.reserved + bytes > Clamp(maximum) {
        db.RollBack(snapshot);
        return false;
      }
      db.owners := db.owners[path := row.(reserved := row.reserved + bytes)];
      if maximumGlobal.Some? {
        db.global := Some(db.global.value.(reserved := db.global.value.reserved + bytes));
      }
      return true;
    }

    method MoveReserved(path: T.OwnerPath, bytes: int, toUsed: bool)
      modifies db
      ensures db.View() == T.MoveReserved(old(db.View()), path, bytes, toUsed)
    {
      if bytes <= 0 {
        return;
      }
      if path in db.owners {
        var row := db.owners[path];
        var values := row.(reserved := Clamp(row.reserved - bytes));
        if toUsed {
          values := values.(used := row.used + bytes);
        }
        db.owners := db.owners[path := values];
        if db.global.Some? {
          var global := db.global.value;
          var globalValues := global.(reserved := Clamp(global.reserved - bytes));
          if toUsed {
            globalValues := globalValues.(used := global.used + bytes);
          }
          db.global := Some(globalValues);
        }
      }
    }

    method ReleaseUsed(path: T.OwnerPath, bytes: int)
      modifies db
      ensures db.View() == T.ReleaseUsed(old(db.View()), path, bytes)
    {
      if bytes > 0 && path in db.owners {
        db.owners := db.owners[path := db.owners[path].(used := Clamp(db.owners[path].used - bytes))];
        if db.global.Some? {
          db.global := Some(db.global.value.(used := Clamp(db.global.value.used - bytes)));
        }
      }
    }
  }

  class AttachmentDiskGuard {
    const quotaCounter: AttachmentQuotaCounter

    constructor (quotaCounter: AttachmentQuotaCounter)
      ensures this.quotaCounter == quotaCounter
    {
      this.quotaCounter := quotaCounter;
    }

    /** `locked`, `hasSpace`, the scans and `writes` stand for the lock, the free-space probe, the file scans
        and the write callback.  A write that throws, like every refusal, leaves the sums as they were. */
    method ReserveAndWrite(
      path: T.OwnerPath, maximum: int, bytes: int, maximumGlobal: Option<int>,
      locked: bool, hasSpace: bool, scannedOwner: int, scannedAll: int, writes: bool
    ) returns (ok: bool)
      modifies quotaCounter.db
      ensures ok ==> locked && hasSpace && writes
      ensures !locked || !hasSpace ==> quotaCounter.db.View() == old(quotaCounter.db.View())
      ensures locked && hasSpace ==>
          var start := T.Initialized(old(quotaCounter.db.View()), path, scannedOwner, maximumGlobal.Some?, scannedAll);
          var room := bytes <= 0 || T.HasLimitedRoom(start, path, maximum, bytes, maximumGlobal);
          && (ok <==> room && writes)
          && quotaCounter.db.View()
             == if room then T.MoveReserved(T.Reserve(start, path, bytes, maximumGlobal.Some?), path, bytes, writes)
                 else start
    {
      if !locked || !hasSpace {
        return false;
      }
      var db := quotaCounter.db;
      if path !in db.owners {
        quotaCounter.UpsertOwner(path, scannedOwner);
      }
      if maximumGlobal.Some? && db.global.None? {
        quotaCounter.UpsertGlobal(scannedAll);
      }
      var reserved := quotaCounter.Reserve(path, maximum, bytes, maximumGlobal);
      if !reserved {
        return false;
      }
      quotaCounter.MoveReserved(path, bytes, writes);
      return writes;
    }
  }

  class AttachmentRepository {
    const db: Connection

    constructor (db: Connection)
      ensures this.db == db
    {
      this.db := db;
    }

    method ClaimForUpload(id: T.AttId, key: T.OwnerKey, nonce: T.Nonce, now: int) returns (claimed: bool)
      modifies db
      ensures claimed <==> id in old(db.attachments) && T.Claimable(old(db.attachments)[id], key, nonce, now)
      ensures db.View() == T.ClaimForUpload(old(db.View()), id, key, nonce, now)
    {
      claimed := false;
      if id in db.attachments {
        var row := db.attachments[id];
        if row.key == key && row.nonce == T.NonceHash(nonce) && row.state == T.Issued && row.expiresAt >= now {
          db.attachments := db.attachments[id := row.(state := T.Uploading, updatedAt := now)];
          claimed := true;
        }
      }
    }

    method ReleaseUploadClaim(id: T.AttId, now: int)
      modifies db
      ensures db.View() == T.ReleaseUploadClaim(old(db.View()), id, now)
    {
      if id in db.attachments && db.attachments[id].state == T.Uploading {
        db.attachments := db.attachments[id := db.attachments[id].(state := T.Issued, updatedAt := now)];
      }
    }

    method RecordStaged(id: T.AttId, path: T.FilePath, bytes: int, now: int) returns (staged: bool)
      modifies db
      ensures staged <==> id in old(db.attachments) && old(db.attachments)[id].state == T.Uploading
      ensures db.View() == T.RecordStaged(old(db.View()), id, path, bytes, now)
    {
      staged := id in db.attachments && db.attachments[id].state == T.Uploading;
      if staged {
        var row := db.attachments[id];
        row := row.(state := T.Staged, stagedPath := Some(path), bytes := bytes, updatedAt := now);
        db.attachments := db.attachments[id := row];
      }
    }

    method TryMarkFinalizing(id: T.AttId, now: int) returns (marked: bool)
      modifies db
      ensures marked <==> id in old(db.attachments) && T.CanFinalize(old(db.attachments)[id], now)
      ensures db.View() == T.TryMarkFinalizing(old(db.View()), id, now)
    {
      marked := false;
      if id in db.attachments {
        var row := db.attachments[id];
        if row.state in {T.Issued, T.Staged} || (row.state == T.Finalizing && row.updatedAt < now - T.LEASE_SECONDS) {
          db.attachments := db.attachments[id := row.(state := T.Finalizing, updatedAt := now)];
          marked := true;
        }
      }
    }

    method CommitFinalAttachmentAtomic(
      id: T.AttId, finalPath: T.FilePath, path: T.OwnerPath, size: int, res: Option<T.ResId>, key: Option<T.OwnerKey>,
          now: int
    ) returns (ok: bool)
      modifies db
      ensures ok <==> T.CommitFinal(old(db.View()), id, finalPath, path, size, res, key, now).Some?
      ensures db.View() == if ok then T.CommitFinal(old(db.View()), id, finalPath, path, size, res, key, now).value
          else old(db.View())
    {
      var snapshot := db.View();
      var release := size;
      if res.Some? {
        if !T.ReservationUsable(snapshot, res.value, id, path, now) {
          db.RollBack(snapshot);
          return false;
        }
        release := db.reservations[res.value].bytes;
        db.reservations := db.reservations[res.value := db.reservations[res.value].(state := T.Settled)];
      }
      var matches := id in db.attachments && db.attachments[id].state == T.Finalizing
        && (key.Some? ==> db.attachments[id].key == key.value);
      if !matches {
        if id in db.attachments && db.attachments[id].state == T.Committed {
          return true;
        }
        db.RollBack(snapshot);
        return false;
      }
      var row := db.attachments[id];
      row := row.(state := T.Committed, finalPath := Some(finalPath), bytes := size, updatedAt := now);
      db.attachments := db.attachments[id := row];
      if path in db.owners {
        var owner := db.owners[path];
        db.owners := db.owners[path := T.Counter(owner.used + size, Clamp(owner.reserved - release))];
      }
      if db.global.Some? {
        var global := db.global.value;
        db.global := Some(T.Counter(global.used + size, Clamp(global.reserved - release)));
      }
      return true;
    }
  }

  class AttachmentUploadManagement {
    const quotaCounter: AttachmentQuotaCounter

    constructor (quotaCounter: AttachmentQuotaCounter)
      ensures this.quotaCounter == quotaCounter
    {
      this.quotaCounter := quotaCounter;
    }

    /** Settlement without a repository: reserve the extra, or release the excess, then commit the file. */
    method SettleByCounter(path: T.OwnerPath, reserved: int, size: int, maximum: int, maximumGlobal: int)
        returns (ok: bool)
      modifies quotaCounter.db
      ensures ok
        <==> T.CounterSettlement(old(quotaCounter.db.View()), path, reserved, size, maximum, maximumGlobal).Some?
      ensures ok ==>
                var view := old(quotaCounter.db.View());
                var settled := T.CounterSettlement(view, path, reserved, size, maximum, maximumGlobal);
                quotaCounter.db.View() == settled.value
      ensures !ok ==> quotaCounter.db.View() == old(quotaCounter.db.View())
    {
      ok := true;
      if size > reserved {
        ok := quotaCounter.Reserve(path, maximum, size - reserved, Some(maximumGlobal));
        if ok {
          quotaCounter.MoveReserved(path, size, true);
        }
      } else if size < reserved {
        quotaCounter.MoveReserved(path, reserved - size, false);
        quotaCounter.MoveReserved(path, size, true);
      } else {
        quotaCounter.MoveReserved(path, size, true);
      }
    }
  }
}
