/** One-way latches: what a step can never undo, and what leaving `active` does to the counters. */
module AttachmentLifecycle {
  import opened Sums
  import opened AttachmentTables
  import opened AttachmentProtocol
  import opened AttachmentLinks
  import opened AttachmentLedger

  function Rank(state: AttachmentState): nat {
    match state
    case Issued => 0
    case Uploading => 0
    case Staged => 1
    case Finalizing => 1
    case Committed => 2
    case Failed => 2
    case Expired => 2
  }

  /** No attachment changes hands or falls back a rank, and a terminal row is frozen. */
  ghost predicate RowAdvances(before: Attachment, after: Attachment) {
    && after.key == before.key && after.reservation == before.reservation
    && Rank(before.state) <= Rank(after.state)
    && (Rank(before.state) == 2 ==> after == before)
  }

  /** Only an active reservation changes, and then only its state. */
  ghost predicate ReservationAdvances(before: Reservation, after: Reservation) {
    if before.state == Active then after == before.(state := after.state) else after == before
  }

  ghost predicate Advances(t: Tables, t': Tables) {
    && (forall id :: id in t.attachments ==> id in t'.attachments && RowAdvances(t.attachments[id], t'.attachments[id]))
    && (forall res :: res in t.reservations ==>
          res in t'.reservations && ReservationAdvances(t.reservations[res], t'.reservations[res]))
  }

  lemma QuotaAdvances(t: Tables, t': Tables)
    requires t'.attachments == t.attachments && t'.reservations == t.reservations
    ensures Advances(t, t')
  {
  }

  lemma BindAdvances(lim: Limits, s: Sys, pid: Pid)
    requires CanInitiateBind(s, pid) && InitiationLinked(s.t, s.initiations[pid])
    ensures Advances(s.t, DoInitiateBind(lim, s, pid).t)
  {
  }

  lemma RecordAdvances(s: Sys, pid: Pid, id: AttId, res: ResId, nonce: Nonce)
    requires CanInitiateRecord(s, pid, id, res, nonce)
    ensures Advances(s.t, DoInitiateRecord(s, pid, id, res, nonce).t)
  {
  }

  lemma InitiateAdvances(lim: Limits, s: Sys, step: InitiateStep, s': Sys)
    requires InitiationsLinked(s) && InitiateNext(lim, s, step, s')
    ensures Advances(s.t, s'.t)
  {
    match step
    case InitiateReserve(_, _, _) => QuotaAdvances(s.t, s'.t);
    case InitiateRecord(pid, id, res, nonce) => RecordAdvances(s, pid, id, res, nonce);
    case InitiateBind(pid) => BindAdvances(lim, s, pid);
  }

  lemma ClaimAdvances(s: Sys, pid: Pid, id: AttId, size: nat)
    requires CanUploadClaim(s, pid, id, size)
    ensures Advances(s.t, DoUploadClaim(s, pid, id, size).t)
    ensures DoUploadClaim(s, pid, id, size).t.reservations == s.t.reservations
  {
  }

  lemma RenameAdvances(s: Sys, pid: Pid, renamed: bool)
    requires CanUploadRename(s, pid, renamed)
    ensures Advances(s.t, DoUploadRename(s, pid, renamed).t)
    ensures DoUploadRename(s, pid, renamed).t.reservations == s.t.reservations
  {
  }

  lemma StagedAdvances(s: Sys, pid: Pid)
    requires CanUploadRecord(s, pid)
    ensures Advances(s.t, DoUploadRecord(s, pid).t)
    ensures DoUploadRecord(s, pid).t.reservations == s.t.reservations
  {
  }

  lemma UndoAdvances(s: Sys, pid: Pid)
    requires CanUploadUndo(s, pid)
    ensures Advances(s.t, DoUploadUndo(s, pid).t)
    ensures DoUploadUndo(s, pid).t.reservations == s.t.reservations
  {
  }

  lemma UploadAdvances(s: Sys, step: UploadStep, s': Sys)
    requires UploadNext(s, step, s')
    ensures Advances(s.t, s'.t) && s'.t.reservations == s.t.reservations
  {
    match step
    case UploadClaim(pid, id, size) => ClaimAdvances(s, pid, id, size);
    case UploadRename(pid, renamed) => RenameAdvances(s, pid, renamed);
    case UploadRecord(pid) => StagedAdvances(s, pid);
    case UploadUndo(pid) => UndoAdvances(s, pid);
  }

  lemma CommitAdvances(s: Sys, pid: Pid)
    requires CanCompleteCommit(s, pid)
    ensures Advances(s.t, DoCompleteCommit(s, pid).t)
  {
  }

  lemma CompleteAdvances(s: Sys, step: CompleteStep, s': Sys)
    requires CompleteNext(s, step, s')
    ensures Advances(s.t, s'.t)
  {
    match step
    case CompleteCommit(pid) => CommitAdvances(s, pid);
    case CompleteMark(_) =>
    case CompleteBegin(_, _) =>
    case CompleteProbe(_) =>
    case CompleteMove(_, _) =>
  }

  lemma ReconcileAdvances(s: Sys, step: ReconcileStep, s': Sys)
    requires ReconcileNext(s, step, s')
    ensures Advances(s.t, s'.t)
  {
  }

  /** No step takes a latch back. */
  lemma StepAdvances(lim: Limits, s: Sys, step: Step, s': Sys)
    requires InitiationsLinked(s) && Next(lim, s, step, s')
    ensures Advances(s.t, s'.t)
  {
    match step
    case Tick(_) => QuotaAdvances(s.t, s'.t);
    case OnInitiate(step) => InitiateAdvances(lim, s, step, s');
    case OnUpload(step) => UploadAdvances(s, step, s');
    case OnComplete(step) => CompleteAdvances(s, step, s');
    case OnGuard(step) =>
      GuardChangesQuotaOnly(lim, s, step, s');
      QuotaAdvances(s.t, s'.t);
    case OnReconcile(step) => ReconcileAdvances(s, step, s');
  }

  // ---------------------------------------------------------------- leaving `active`

  predicate Leaves(t: Tables, t': Tables, res: ResId) {
    && res in t.reservations && t.reservations[res].state == Active
    && res in t'.reservations && t'.reservations[res].state != Active
  }

  /** The one refund, and the one charge, that a reservation's end stands for.
      Settled: its bytes are given back and its attachment's file is charged, on both levels.
      Lapsed: its bytes are given back.  Released: nothing moves. */
  ghost predicate EndAccounted(t: Tables, t': Tables, res: ResId)
    requires Leaves(t, t', res)
  {
    var row := t.reservations[res];
    match t'.reservations[res].state
    case Settled =>
      && row.attachment in t.attachments && t.attachments[row.attachment].state == Finalizing
      && row.attachment in t'.attachments && t'.attachments[row.attachment].state == Committed
      && Shifted(t, t', row.path, t'.attachments[row.attachment].bytes, -row.bytes)
    case Lapsed => Shifted(t, t', row.path, 0, -row.bytes)
    case Released => t'.owners == t.owners && t'.global == t.global
    case Active => false
  }

  lemma CommitEndAccounted(s: Sys, pid: Pid, res: ResId)
    requires Linked(s) && Ledger(s) && CanCompleteCommit(s, pid)
    requires Leaves(s.t, DoCompleteCommit(s, pid).t, res)
    ensures EndAccounted(s.t, DoCompleteCommit(s, pid).t, res)
  {
    var t' := DoCompleteCommit(s, pid).t;
    var c := s.completions[pid];
    var row := s.t.reservations[res];
    assert TicketLinked(s.t, c.id, s.tickets[c.id]) && RowLinked(s.t, c.id);
    assert res == s.tickets[c.id].reservation;
    ReservationCovered(s, res);
    SettleShifts(s.t, row.path, row.bytes, c.size);
    assert t'.owners == SettleQuota(s.t, row.path, row.bytes, c.size).owners;
  }

  lemma ExpireEndAccounted(s: Sys, expiring: ResId, res: ResId)
    requires Linked(s) && Ledger(s) && CanReconcileExpire(s, expiring)
    requires Leaves(s.t, DoReconcileExpire(s, expiring).t, res)
    ensures EndAccounted(s.t, DoReconcileExpire(s, expiring).t, res)
  {
    var row := s.t.reservations[res];
    assert res == expiring;
    ReservationCovered(s, res);
    SettleShifts(s.t, row.path, row.bytes, 0);
    assert DoReconcileExpire(s, expiring).t.owners == SettleQuota(s.t, row.path, row.bytes, 0).owners;
  }

  /** Only three steps take a reservation out of `active`. */
  predicate EndsReservations(step: Step) {
    match step
    case OnComplete(CompleteCommit(_)) => true
    case OnReconcile(ReconcileLost(_)) => true
    case OnReconcile(ReconcileExpire(_)) => true
    case _ => false
  }

  lemma OtherStepsKeepReservations(lim: Limits, s: Sys, step: Step, s': Sys)
    requires InitiationsLinked(s) && Next(lim, s, step, s') && !EndsReservations(step)
    ensures forall res :: res in s.t.reservations ==>
              res in s'.t.reservations && s'.t.reservations[res] == s.t.reservations[res]
  {
    match step
    case Tick(_) =>
    case OnInitiate(InitiateReserve(_, _, _)) =>
    case OnInitiate(InitiateRecord(_, _, _, _)) =>
    case OnInitiate(InitiateBind(pid)) => assert InitiationLinked(s.t, s.initiations[pid]);
    case OnUpload(step) => UploadAdvances(s, step, s');
    case OnGuard(step) => GuardChangesQuotaOnly(lim, s, step, s');
    case OnComplete(step) => CompleteKeepsReservations(s, step, s');
    case OnReconcile(ReconcileStaged(_)) =>
  }

  lemma CompleteKeepsReservations(s: Sys, step: CompleteStep, s': Sys)
    requires CompleteNext(s, step, s') && !step.CompleteCommit?
    ensures s'.t.reservations == s.t.reservations
  {
  }

  /** Whenever a step takes a reservation out of `active`, its end is accounted for. */
  lemma EndIsAccounted(lim: Limits, s: Sys, step: Step, s': Sys, res: ResId)
    requires Linked(s) && Ledger(s) && Next(lim, s, step, s') && Leaves(s.t, s'.t, res)
    ensures EndAccounted(s.t, s'.t, res)
  {
    if !EndsReservations(step) {
      OtherStepsKeepReservations(lim, s, step, s');
    } else if step.OnComplete? {
      CommitEndAccounted(s, step.complete.pid, res);
    } else if step.reconcile.ReconcileExpire? {
      ExpireEndAccounted(s, step.reconcile.res, res);
    } else {
      assert s'.t == FailLost(s.t, step.reconcile.id, s.now);
    }
  }
}
