/** The reconciler's two passes over the attachment and reservation tables, and why they add nothing
    to the protocol: a pass is a run of its row steps. */
module AttachmentReconciler {
  import opened Sums
  import T = AttachmentTables
  import opened AttachmentServices
  import opened AttachmentProtocol
  import opened AttachmentLinks

  function RecoverRows(t: T.Tables, rows: seq<T.AttId>, files: map<T.FilePath, nat>, now: int): T.Tables {
    if rows == [] then t else T.RecoverRow(RecoverRows(t, rows[..|rows| - 1], files, now), rows[|rows| - 1], files, now)
  }

  function ExpireRows(t: T.Tables, rows: seq<T.ResId>, now: int): T.Tables {
    if rows == [] then t else T.ExpireRow(ExpireRows(t, rows[..|rows| - 1], now), rows[|rows| - 1], now)
  }

  ghost predicate Distinct<K>(rows: seq<K>) {
    forall i, j :: 0 <= i < j < |rows| ==> rows[i] != rows[j]
  }

  /** `rows` is a listing of exactly the stale finalizing attachments. */
  ghost predicate ListsStale(t: T.Tables, rows: seq<T.AttId>, now: int) {
    && Distinct(rows)
    && (forall id :: id in rows <==> id in t.attachments && T.StaleFinalizing(t.attachments[id], now))
  }

  ghost predicate ListsExpirable(t: T.Tables, rows: seq<T.ResId>, now: int) {
    && Distinct(rows)
    && (forall res :: res in rows <==> T.Expirable(t, res, now))
  }

  /** No finalizing row records a final path, as in every reachable state. */
  ghost predicate NoFinalPaths(t: T.Tables) {
    forall id :: id in t.attachments && t.attachments[id].state == T.Finalizing ==> t.attachments[id].finalPath.None?
  }

  class AttachmentQuotaReconciler {
    const repository: AttachmentRepository

    constructor (repository: AttachmentRepository)
      ensures this.repository == repository
    {
      this.repository := repository;
    }

    method FetchStale(now: int) returns (rows: seq<T.AttId>)
      ensures ListsStale(repository.db.View(), rows, now)
    {
      var db := repository.db;
      rows := [];
      var left := db.attachments.Keys;
      while left != {}
        invariant left <= db.attachments.Keys && Distinct(rows)
        invariant forall id ::
                    id in rows <==> id in db.attachments && id !in left && T.StaleFinalizing(db.attachments[id], now)
        decreases left
      {
        var id :| id in left;
        if T.StaleFinalizing(db.attachments[id], now) {
          rows := rows + [id];
        }
        left := left - {id};
      }
    }

    method FetchExpirable(now: int) returns (rows: seq<T.ResId>)
      ensures ListsExpirable(repository.db.View(), rows, now)
    {
      var db := repository.db;
      rows := [];
      var left := db.reservations.Keys;
      while left != {}
        invariant left <= db.reservations.Keys && Distinct(rows)
        invariant forall res :: res in rows <==> res !in left && T.Expirable(db.View(), res, now)
        decreases left
      {
        var res :| res in left;
        if T.Expirable(db.View(), res, now) {
          rows := rows + [res];
        }
        left := left - {res};
      }
    }

    method Recover(id: T.AttId, files: map<T.FilePath, nat>, now: int) returns (corrected: nat)
      modifies repository.db
      ensures repository.db.View() == T.RecoverRow(old(repository.db.View()), id, files, now)
      ensures id !in old(repository.db.attachments) ==> corrected == 0
      ensures id in old(repository.db.attachments) ==>
                id in repository.db.attachments
                && corrected == if T.OnDisk(old(repository.db.attachments)[id].finalPath, files)
                                   && repository.db.attachments[id].state != T.Committed then 0 else 1
    {
      var db := repository.db;
      if id !in db.attachments {
        return 0;
      }
      var row := db.attachments[id];
      var res := row.reservation;
      if T.OnDisk(row.finalPath, files) {
        if res in db.reservations && db.reservations[res].attachment == id
           && db.reservations[res].state in {T.Active, T.Lapsed} {
          var revived := db.reservations[res].(state := T.Active, expiresAt := now + T.REVIVE_SECONDS);
          db.reservations := db.reservations[res := revived];
        }
        var ok := repository.CommitFinalAttachmentAtomic(
          id, row.finalPath.value, T.PathFromKey(row.isCustomer, row.key), files[row.finalPath.value], Some(res),
          Some(row.key), now);
        return if ok || db.attachments[id].state == T.Committed then 1 else 0;
      } else if T.OnDisk(row.stagedPath, files) {
        if row.state == T.Finalizing {
          db.attachments := db.attachments[id := row.(state := T.Staged, updatedAt := now)];
        }
        return 1;
      } else {
        if res in db.reservations && db.reservations[res].state == T.Active {
          db.reservations := db.reservations[res := db.reservations[res].(state := T.Released)];
        }
        if row.state == T.Finalizing {
          db.attachments := db.attachments[id := row.(state := T.Failed, updatedAt := now)];
        }
        return 1;
      }
    }

    method Expire(res: T.ResId, now: int) returns (corrected: nat)
      modifies repository.db
      ensures repository.db.View() == T.ExpireRow(old(repository.db.View()), res, now)
      ensures corrected
        == if res in old(repository.db.reservations) && old(repository.db.reservations)[res].state == T.Active
           then 1 else 0
    {
      var db := repository.db;
      if res !in db.reservations || db.reservations[res].state != T.Active {
        return 0;
      }
      var row := db.reservations[res];
      db.reservations := db.reservations[res := row.(state := T.Lapsed)];
      if row.path in db.owners {
        var owner := db.owners[row.path];
        db.owners := db.owners[row.path := owner.(reserved := Clamp(owner.reserved - row.bytes))];
      }
      if db.global.Some? {
        db.global := Some(db.global.value.(reserved := Clamp(db.global.value.reserved - row.bytes)));
      }
      if row.attachment in db.attachments && db.attachments[row.attachment].state in {T.Issued, T.Staged} {
        var lapsed := db.attachments[row.attachment].(state := T.Expired, updatedAt := now);
        db.attachments := db.attachments[row.attachment := lapsed];
      }
      return 1;
    }

    /** Recovers every stale finalizing row, then expires every reservation still expirable. */
    method Execute(files: map<T.FilePath, nat>, now: int)
        returns (corrected: nat, stale: seq<T.AttId>, lapsed: seq<T.ResId>)
      modifies repository.db
      ensures ListsStale(old(repository.db.View()), stale, now)
      ensures ListsExpirable(RecoverRows(old(repository.db.View()), stale, files, now), lapsed, now)
      ensures repository.db.View() == ExpireRows(RecoverRows(old(repository.db.View()), stale, files, now), lapsed, now)
      ensures corrected <= |stale| + |lapsed|
      ensures NoFinalPaths(old(repository.db.View())) ==> corrected == |stale| + |lapsed|
    {
      var db := repository.db;
      corrected := 0;
      stale := FetchStale(now);
      var i := 0;
      while i < |stale|
        invariant 0 <= i <= |stale| && corrected <= i
        invariant NoFinalPaths(old(db.View())) ==> corrected == i
        invariant db.View() == RecoverRows(old(db.View()), stale[..i], files, now)
      {
        RecoverRowsLeave(old(db.View()), stale[..i], files, now, stale[i]);
        var recovered := Recover(stale[i], files, now);
        assert stale[..i + 1][..i] == stale[..i];
        corrected := corrected + recovered;
        i := i + 1;
      }
      assert stale[..i] == stale;
      lapsed := FetchExpirable(now);
      ghost var recoveredTables := db.View();
      var j := 0;
      while j < |lapsed|
        invariant 0 <= j <= |lapsed| && corrected <= |stale| + j
        invariant NoFinalPaths(old(db.View())) ==> corrected == |stale| + j
        invariant db.View() == ExpireRows(RecoverRows(old(db.View()), stale, files, now), lapsed[..j], now)
      {
        assert lapsed[j] in lapsed;
        ExpireRowsLeave(recoveredTables, lapsed[..j], now, lapsed[j]);
        var expired := Expire(lapsed[j], now);
        assert lapsed[..j + 1][..j] == lapsed[..j];
        corrected := corrected + expired;
        j := j + 1;
      }
      assert lapsed[..j] == lapsed;
    }
  }

  // ---------------------------------------------------------------- the passes are runs of row steps

  ghost predicate ReconcileRun(lim: Limits, run: Run, s: Sys, t: T.Tables) {
    && Connected(lim, run)
    && run.states[0] == s
    && run.states[|run.steps|] == s.(t := t)
    && (forall i :: 0 <= i < |run.steps| ==> run.steps[i].OnReconcile?)
  }

  lemma Extend(lim: Limits, run: Run, s: Sys, t: T.Tables, step: ReconcileStep, t': T.Tables) returns (longer: Run)
    requires ReconcileRun(lim, run, s, t) && ReconcileNext(s.(t := t), step, s.(t := t'))
    ensures ReconcileRun(lim, longer, s, t')
  {
    longer := Run(run.states + [s.(t := t')], run.steps + [OnReconcile(step)]);
    forall i {:trigger longer.steps[i]} | 0 <= i < |longer.steps|
      ensures Next(lim, longer.states[i], longer.steps[i], longer.states[i + 1])
    {
      if i < |run.steps| {
        assert longer.steps[i] == run.steps[i];
      }
    }
  }

  lemma {:induction false} ReconcileRunKeepsLinked(lim: Limits, run: Run, i: nat)
    requires lim.maxImage > 0 && Connected(lim, run) && i < |run.states| && Linked(run.states[0])
    ensures Linked(run.states[i])
  {
    if i > 0 {
      ReconcileRunKeepsLinked(lim, run, i - 1);
      assert Next(lim, run.states[i - 1], run.steps[i - 1], run.states[i]);
      StepKeepsLinked(lim, run.states[i - 1], run.steps[i - 1], run.states[i]);
    }
  }

  /** Recovering a row touches no other attachment row. */
  lemma RecoverRowIsLocal(t: T.Tables, id: T.AttId, files: map<T.FilePath, nat>, now: int)
    ensures T.RecoverRow(t, id, files, now).attachments.Keys == t.attachments.Keys
    ensures forall a :: a in t.attachments && a != id ==>
              T.RecoverRow(t, id, files, now).attachments[a] == t.attachments[a]
  {
  }

  lemma {:induction false} RecoverRowsLeave(t: T.Tables, rows: seq<T.AttId>, files: map<T.FilePath, nat>, now: int,
                                            id: T.AttId)
    requires id !in rows
    ensures id in RecoverRows(t, rows, files, now).attachments <==> id in t.attachments
    ensures id in t.attachments ==> RecoverRows(t, rows, files, now).attachments[id] == t.attachments[id]
  {
    if rows != [] {
      RecoverRowsLeave(t, rows[..|rows| - 1], files, now, id);
      RecoverRowIsLocal(RecoverRows(t, rows[..|rows| - 1], files, now), rows[|rows| - 1], files, now);
    }
  }

  lemma {:induction false} RecoverIsARun(lim: Limits, s: Sys, rows: seq<T.AttId>, files: map<T.FilePath, nat>)
      returns (run: Run)
    requires lim.maxImage > 0 && Linked(s) && Distinct(rows)
    requires forall id :: id in rows ==> id in s.t.attachments && s.t.attachments[id].state == T.Finalizing
    ensures ReconcileRun(lim, run, s, RecoverRows(s.t, rows, files, s.now))
  {
    if rows == [] {
      run := Run([s], []);
    } else {
      var front, id := rows[..|rows| - 1], rows[|rows| - 1];
      run := RecoverIsARun(lim, s, front, files);
      var t := RecoverRows(s.t, front, files, s.now);
      RecoverRowsLeave(s.t, front, files, s.now, id);
      ReconcileRunKeepsLinked(lim, run, |run.steps|);
      assert RowLinked(t, id);
      var step := if T.OnDisk(t.attachments[id].stagedPath, files) then ReconcileStaged(id) else ReconcileLost(id);
      run := Extend(lim, run, s, t, step, T.RecoverRow(t, id, files, s.now));
    }
  }

  lemma ExpireRowIsLocal(t: T.Tables, res: T.ResId, now: int)
    ensures forall r :: r in t.reservations && r != res ==>
        r in T.ExpireRow(t, res, now).reservations && T.ExpireRow(t, res, now).reservations[r] == t.reservations[r]
  {
  }

  lemma {:induction false} ExpireRowsLeave(t: T.Tables, rows: seq<T.ResId>, now: int, res: T.ResId)
    requires res !in rows && res in t.reservations
    ensures res in ExpireRows(t, rows, now).reservations
    ensures ExpireRows(t, rows, now).reservations[res] == t.reservations[res]
  {
    if rows != [] {
      ExpireRowsLeave(t, rows[..|rows| - 1], now, res);
      ExpireRowIsLocal(ExpireRows(t, rows[..|rows| - 1], now), rows[|rows| - 1], now);
    }
  }

  lemma {:induction false} ExpireIsARun(lim: Limits, s: Sys, start: T.Tables, before: Run, rows: seq<T.ResId>)
      returns (run: Run)
    requires ReconcileRun(lim, before, s, start) && Distinct(rows)
    requires forall res :: res in rows ==> T.Expirable(start, res, s.now)
    ensures ReconcileRun(lim, run, s, ExpireRows(start, rows, s.now))
  {
    if rows == [] {
      run := before;
    } else {
      var front, res := rows[..|rows| - 1], rows[|rows| - 1];
      assert res in rows && T.Expirable(start, res, s.now);
      run := ExpireIsARun(lim, s, start, before, front);
      ExpireRowsLeave(start, front, s.now, res);
      run := Extend(lim, run, s, ExpireRows(start, front, s.now), ReconcileExpire(res), ExpireRows(start, rows, s.now));
    }
  }

  /** A whole reconciler pass from a reachable state is a run of the protocol's row steps, whatever files it
      sees, so everything proved of those steps holds of the pass. */
  lemma PassIsARun(lim: Limits, s: Sys, files: map<T.FilePath, nat>, stale: seq<T.AttId>, lapsed: seq<T.ResId>)
      returns (run: Run)
    requires lim.maxImage > 0 && Linked(s)
    requires ListsStale(s.t, stale, s.now)
    requires ListsExpirable(RecoverRows(s.t, stale, files, s.now), lapsed, s.now)
    ensures ReconcileRun(lim, run, s, ExpireRows(RecoverRows(s.t, stale, files, s.now), lapsed, s.now))
  {
    run := RecoverIsARun(lim, s, stale, files);
    run := ExpireIsARun(lim, s, RecoverRows(s.t, stale, files, s.now), run, lapsed);
  }
}
