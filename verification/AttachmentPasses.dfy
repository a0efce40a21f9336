/** What one pass of the reconciler leaves behind, row by row. */
module AttachmentPasses {
  import opened Sums
  import opened AttachmentTables
  import opened AttachmentProtocol
  import opened AttachmentLinks
  import opened AttachmentReconciler

  // ---------------------------------------------------------------- the two selections, and what becomes of a row

  /** A finalisation that has been silent for more than a minute. */
  predicate Silent(row: Attachment, now: int) {
    row.state == Finalizing && row.updatedAt + 60 < now
  }

  /** A reservation that ran out more than ten minutes ago. */
  predicate Overdue(res: Reservation, now: int) {
    res.state == Active && res.expiresAt + 600 < now
  }

  function Recovered(row: Attachment, files: map<FilePath, nat>, now: int): Attachment {
    if row.stagedPath.Some? && row.stagedPath.value in files then row.(state := Staged, updatedAt := now)
    else row.(state := Failed, updatedAt := now)
  }

  /** The reservation of a recovered row is released when its file is lost. */
  function RecoveredReservation(res: Reservation, row: Attachment, files: map<FilePath, nat>): Reservation {
    if res.state != Active || (row.stagedPath.Some? && row.stagedPath.value in files) then res
    else res.(state := Released)
  }

  // ---------------------------------------------------------------- the first pass

  ghost predicate AllFinalizing(t: Tables, rows: seq<AttId>) {
    Distinct(rows) && forall id :: id in rows ==> id in t.attachments && t.attachments[id].state == Finalizing
  }

  /** One row of the first pass. */
  lemma RecoversOneRow(t: Tables, id: AttId, files: map<FilePath, nat>, now: int)
    requires id in t.attachments && t.attachments[id].state == Finalizing && t.attachments[id].finalPath.None?
    requires t.attachments[id].reservation in t.reservations
    ensures var row := t.attachments[id];
            var res := RecoveredReservation(t.reservations[row.reservation], row, files);
            RecoverRow(t, id, files, now)
            == t.(attachments := t.attachments[id := Recovered(row, files, now)],
                  reservations := t.reservations[row.reservation := res])
  {
    var row := t.attachments[id];
    assert t.reservations == t.reservations[row.reservation := t.reservations[row.reservation]];
  }

  ghost predicate HasReservation(t: Tables, id: AttId) {
    id in t.attachments && t.attachments[id].reservation in t.reservations
  }

  /** One attachment and its reservation, through the first pass over any rows. */
  lemma {:induction false} FollowRecovery(t: Tables, rows: seq<AttId>, files: map<FilePath, nat>, now: int, id: AttId)
    requires TablesLinked(t) && AllFinalizing(t, rows) && HasReservation(t, id)
    requires forall r :: r in rows ==> t.attachments[r].finalPath.None?
    ensures var t' := RecoverRows(t, rows, files, now);
            var row, res := t.attachments[id], t.reservations[t.attachments[id].reservation];
            && id in t'.attachments && row.reservation in t'.reservations
            && t'.attachments[id] == (if id in rows then Recovered(row, files, now) else row)
            && t'.reservations[row.reservation] == if id in rows then RecoveredReservation(res, row, files) else res
    decreases |rows|
  {
    if rows != [] {
      var front, last := rows[..|rows| - 1], rows[|rows| - 1];
      assert last in rows && forall r :: r in rows <==> r in front || r == last;
      FollowRecovery(t, front, files, now, id);
      assert RowLinked(t, id) && RowLinked(t, last);
      if last != id {
        FollowRecovery(t, front, files, now, last);
      }
      RecoversOneRow(RecoverRows(t, front, files, now), last, files, now);
    }
  }

  /** A finalising row with a final file, which no run of the protocol reaches: its reservation is revived for five
      minutes if it is active or expired, and the file is committed exactly when that reservation is then the row's own
      on the path rebuilt from the row. */
  lemma RecoversFinalFile(t: Tables, id: AttId, files: map<FilePath, nat>, now: int)
    requires id in t.attachments && t.attachments[id].state == Finalizing
    requires t.attachments[id].finalPath.Some? && t.attachments[id].finalPath.value in files
    requires t.attachments[id].reservation in t.reservations
    ensures var row, t' := t.attachments[id], RecoverRow(t, id, files, now);
            var res := t.reservations[row.reservation];
            var revived := res.attachment == id && (res.state == Active || res.state == Lapsed);
            var size := files[row.finalPath.value];
            if revived && res.path == PathFromKey(row.isCustomer, row.key) then
              && t'.attachments == t.attachments[id := row.(state := Committed, bytes := size, updatedAt := now)]
              && t'.reservations == t.reservations[row.reservation := res.(state := Settled, expiresAt := now + 300)]
            else if revived then
              t' == t.(reservations := t.reservations[row.reservation := res.(state := Active, expiresAt := now + 300)])
            else
              t' == t
  {
  }

  // ---------------------------------------------------------------- the second pass

  ghost predicate AllActive(t: Tables, rows: seq<ResId>) {
    && Distinct(rows)
    && forall res :: res in rows ==> res in t.reservations && t.reservations[res].state == Active
  }

  function Lapsing(row: Attachment, now: int): Attachment {
    if row.state == Issued || row.state == Staged then row.(state := Expired, updatedAt := now) else row
  }

  /** One row of the second pass. */
  lemma ExpiresOneRow(t: Tables, res: ResId, now: int)
    requires res in t.reservations && t.reservations[res].state == Active
    requires t.reservations[res].attachment in t.attachments
    ensures var id := t.reservations[res].attachment;
            && ExpireRow(t, res, now).attachments == t.attachments[id := Lapsing(t.attachments[id], now)]
            && ExpireRow(t, res, now).reservations == t.reservations[res := t.reservations[res].(state := Lapsed)]
  {
    var id := t.reservations[res].attachment;
    assert t.attachments == t.attachments[id := t.attachments[id]];
  }

  /** One attachment and its reservation, through the second pass over any rows. */
  lemma {:induction false} FollowExpiry(t: Tables, rows: seq<ResId>, now: int, id: AttId)
    requires TablesLinked(t) && AllActive(t, rows) && HasReservation(t, id)
    ensures var t' := ExpireRows(t, rows, now);
            var row, own := t.attachments[id], t.attachments[id].reservation;
            && id in t'.attachments && own in t'.reservations
            && t'.attachments[id] == (if own in rows then Lapsing(row, now) else row)
            && t'.reservations[own]
               == if own in rows then t.reservations[own].(state := Lapsed) else t.reservations[own]
    decreases |rows|
  {
    if rows != [] {
      var front, last := rows[..|rows| - 1], rows[|rows| - 1];
      assert last in rows && forall r :: r in rows <==> r in front || r == last;
      var other := t.reservations[last].attachment;
      assert other in t.attachments && t.attachments[other].reservation == last && RowLinked(t, id);
      FollowExpiry(t, front, now, id);
      if other != id {
        FollowExpiry(t, front, now, other);
      }
      ExpiresOneRow(ExpireRows(t, front, now), last, now);
    }
  }

  // ---------------------------------------------------------------- the whole pass

  /** What a pass makes of an attachment and its reservation, from what they were before it: a silent finalisation goes
      back to staged, or fails and releases its reservation when its file is lost; then an overdue reservation that is
      still active lapses unless its attachment is finalising, and expires what is issued or staged. */
  function PassedState(row: Attachment, res: Reservation, files: map<FilePath, nat>, now: int)
    : (AttachmentState, ReservationState)
  {
    var kept := row.stagedPath.Some? && row.stagedPath.value in files;
    if Silent(row, now) && !kept then
      (Failed, if res.state == Active then Released else res.state)
    else
      var state := if Silent(row, now) then Staged else row.state;
      if !Overdue(res, now) || state == Finalizing then (state, res.state)
      else (if state == Issued || state == Staged then Expired else state, Lapsed)
  }

  lemma StaleAreSilent(t: Tables, stale: seq<AttId>, now: int)
    requires ListsStale(t, stale, now)
    ensures AllFinalizing(t, stale)
    ensures forall id :: id in stale <==> id in t.attachments && Silent(t.attachments[id], now)
  {
  }

  /** Overdue, and with an attachment that is not finalising. */
  predicate Due(t: Tables, res: ResId, now: int) {
    && res in t.reservations && Overdue(t.reservations[res], now)
    && (t.reservations[res].attachment in t.attachments ==>
          t.attachments[t.reservations[res].attachment].state != Finalizing)
  }

  lemma ExpirableAreDue(t: Tables, lapsed: seq<ResId>, now: int)
    requires ListsExpirable(t, lapsed, now)
    ensures AllActive(t, lapsed) && (forall res :: res in lapsed <==> Due(t, res, now))
  {
    forall res ensures res in lapsed <==> Due(t, res, now) {
      assert res in lapsed <==> Expirable(t, res, now);
    }
  }

  lemma MidLinked(s: Sys, stale: seq<AttId>, files: map<FilePath, nat>)
    requires Linked(s) && AllFinalizing(s.t, stale)
    ensures TablesLinked(RecoverRows(s.t, stale, files, s.now))
  {
    var lim := Limits(1, 1, 1);
    var run := RecoverIsARun(lim, s, stale, files);
    ReconcileRunKeepsLinked(lim, run, |run.steps|);
  }

  lemma FirstPass(s: Sys, files: map<FilePath, nat>, stale: seq<AttId>, id: AttId)
    requires Linked(s) && ListsStale(s.t, stale, s.now) && HasReservation(s.t, id)
    ensures var mid := RecoverRows(s.t, stale, files, s.now);
            var row, res := s.t.attachments[id], s.t.reservations[s.t.attachments[id].reservation];
            && TablesLinked(mid) && id in mid.attachments && row.reservation in mid.reservations
            && mid.attachments[id] == (if Silent(row, s.now) then Recovered(row, files, s.now) else row)
            && mid.reservations[row.reservation]
               == if Silent(row, s.now) then RecoveredReservation(res, row, files) else res
  {
    StaleAreSilent(s.t, stale, s.now);
    forall r | r in stale ensures s.t.attachments[r].finalPath.None? {
      assert RowLinked(s.t, r);
    }
    FollowRecovery(s.t, stale, files, s.now, id);
    MidLinked(s, stale, files);
  }

  lemma SecondPass(t: Tables, lapsed: seq<ResId>, now: int, id: AttId)
    requires TablesLinked(t) && ListsExpirable(t, lapsed, now) && HasReservation(t, id)
    ensures var t' := ExpireRows(t, lapsed, now);
            var row, own := t.attachments[id], t.attachments[id].reservation;
            var due := Overdue(t.reservations[own], now) && row.state != Finalizing;
            && id in t'.attachments && own in t'.reservations
            && t'.attachments[id] == (if due then Lapsing(row, now) else row)
            && t'.reservations[own] == if due then t.reservations[own].(state := Lapsed) else t.reservations[own]
  {
    ExpirableAreDue(t, lapsed, now);
    FollowExpiry(t, lapsed, now, id);
    assert RowLinked(t, id);
    assert t.attachments[id].reservation in lapsed <==> Due(t, t.attachments[id].reservation, now);
  }

  /** One whole pass from any linked state, over whatever files it sees: every attachment and its reservation end as
      `PassedState` says, and both are otherwise as they were. */
  lemma PassOutcome(s: Sys, files: map<FilePath, nat>, stale: seq<AttId>, lapsed: seq<ResId>, id: AttId)
    requires Linked(s) && ListsStale(s.t, stale, s.now)
    requires ListsExpirable(RecoverRows(s.t, stale, files, s.now), lapsed, s.now)
    requires id in s.t.attachments && s.t.attachments[id].reservation in s.t.reservations
    ensures var row, res := s.t.attachments[id], s.t.reservations[s.t.attachments[id].reservation];
            var t' := ExpireRows(RecoverRows(s.t, stale, files, s.now), lapsed, s.now);
            && id in t'.attachments && row.reservation in t'.reservations
            && (t'.attachments[id].state, t'.reservations[row.reservation].state) == PassedState(row, res, files, s.now)
            && t'.attachments[id] == row.(state := t'.attachments[id].state, updatedAt := t'.attachments[id].updatedAt)
            && t'.reservations[row.reservation] == res.(state := t'.reservations[row.reservation].state)
  {
    FirstPass(s, files, stale, id);
    SecondPass(RecoverRows(s.t, stale, files, s.now), lapsed, s.now, id);
  }
}
