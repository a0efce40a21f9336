/** The quota counters as a ledger: what each owner's row and the global row must add up to. */
module AttachmentLedger {
  import opened Sums
  import opened AttachmentTables
  import opened AttachmentProtocol
  import opened AttachmentLinks

  function UsedOf(t: Tables, path: OwnerPath): int {
    if path in t.owners then t.owners[path].used else 0
  }

  function ReservedOf(t: Tables, path: OwnerPath): int {
    if path in t.owners then t.owners[path].reserved else 0
  }

  function GlobalUsed(t: Tables): int {
    if t.global.Some? then t.global.value.used else 0
  }

  function GlobalReserved(t: Tables): int {
    if t.global.Some? then t.global.value.reserved else 0
  }

  ghost function UsedColumn(): Counter -> int {
    (c: Counter) => c.used
  }

  ghost function ReservedColumn(): Counter -> int {
    (c: Counter) => c.reserved
  }

  /** The global row is the sum of the owner rows, and no counter is negative. */
  ghost predicate Balanced(t: Tables) {
    && GlobalUsed(t) == Total(t.owners, UsedColumn())
    && GlobalReserved(t) == Total(t.owners, ReservedColumn())
    && (forall path :: path in t.owners ==> t.owners[path].used >= 0 && t.owners[path].reserved >= 0)
  }

  /** One owner's row and the global row move by the same amounts. */
  ghost predicate Shifted(t: Tables, t': Tables, path: OwnerPath, used: int, reserved: int) {
    && GlobalUsed(t') == GlobalUsed(t) + used
    && GlobalReserved(t') == GlobalReserved(t) + reserved
    && (forall p :: UsedOf(t', p) == UsedOf(t, p) + if p == path then used else 0)
    && (forall p :: ReservedOf(t', p) == ReservedOf(t, p) + if p == path then reserved else 0)
  }

  lemma OwnerWithinGlobal(t: Tables, path: OwnerPath)
    requires Balanced(t)
    ensures 0 <= UsedOf(t, path) <= GlobalUsed(t)
    ensures 0 <= ReservedOf(t, path) <= GlobalReserved(t)
  {
    if path in t.owners {
      TotalAtLeast(t.owners, UsedColumn(), path);
      TotalAtLeast(t.owners, ReservedColumn(), path);
    } else {
      TotalNonNegative(t.owners, UsedColumn());
      TotalNonNegative(t.owners, ReservedColumn());
    }
  }

  lemma RowsShift(t: Tables, t': Tables, path: OwnerPath, used: int, reserved: int)
    requires Balanced(t) && UsedOf(t, path) + used >= 0 && ReservedOf(t, path) + reserved >= 0
    requires t'.owners == t.owners[path := Counter(UsedOf(t, path) + used, ReservedOf(t, path) + reserved)]
    requires GlobalUsed(t') == GlobalUsed(t) + used && GlobalReserved(t') == GlobalReserved(t) + reserved
    ensures Balanced(t') && Shifted(t, t', path, used, reserved)
  {
    var row := Counter(UsedOf(t, path) + used, ReservedOf(t, path) + reserved);
    TotalUpdate(t.owners, UsedColumn(), path, row);
    TotalUpdate(t.owners, ReservedColumn(), path, row);
  }

  lemma ReserveShifts(t: Tables, path: OwnerPath, bytes: int)
    requires Balanced(t) && bytes > 0
    ensures Balanced(Reserve(t, path, bytes, true)) && Shifted(t, Reserve(t, path, bytes, true), path, 0, bytes)
  {
    OwnerWithinGlobal(t, path);
    RowsShift(t, Reserve(t, path, bytes, true), path, 0, bytes);
  }

  /** A release that is covered never meets the clamp at zero, on either level. */
  lemma SettleShifts(t: Tables, path: OwnerPath, release: int, charge: int)
    requires Balanced(t) && 0 < release <= ReservedOf(t, path) && charge >= 0
    ensures path in t.owners && t.global.Some?
    ensures Balanced(SettleQuota(t, path, release, charge))
    ensures Shifted(t, SettleQuota(t, path, release, charge), path, charge, -release)
  {
    OwnerWithinGlobal(t, path);
    RowsShift(t, SettleQuota(t, path, release, charge), path, charge, -release);
  }

  lemma MoveShifts(t: Tables, path: OwnerPath, bytes: int, toUsed: bool)
    requires Balanced(t) && 0 < bytes <= ReservedOf(t, path)
    ensures var t' := MoveReserved(t, path, bytes, toUsed);
            Balanced(t') && Shifted(t, t', path, if toUsed then bytes else 0, -bytes)
  {
    SettleShifts(t, path, bytes, if toUsed then bytes else 0);
    assert MoveReserved(t, path, bytes, toUsed) == SettleQuota(t, path, bytes, if toUsed then bytes else 0);
  }

  lemma GiveBackShifts(t: Tables, path: OwnerPath, bytes: int)
    requires Balanced(t) && path in t.owners && 0 <= bytes <= UsedOf(t, path)
    ensures Balanced(ReleaseUsed(t, path, bytes)) && Shifted(t, ReleaseUsed(t, path, bytes), path, -bytes, 0)
  {
    OwnerWithinGlobal(t, path);
    if bytes > 0 {
      RowsShift(t, ReleaseUsed(t, path, bytes), path, -bytes, 0);
    }
  }

  lemma UpsertsShiftNothing(t: Tables, path: OwnerPath)
    requires Balanced(t)
    ensures Balanced(UpsertOwner(t, path, 0)) && Shifted(t, UpsertOwner(t, path, 0), path, 0, 0)
    ensures Balanced(UpsertGlobal(t, 0)) && Shifted(t, UpsertGlobal(t, 0), path, 0, 0)
  {
    if path !in t.owners {
      RowsShift(t, UpsertOwner(t, path, 0), path, 0, 0);
    }
  }

  // ---------------------------------------------------------------- what the rows stand for

  /** A lost finalization releases its reservation without a refund, so its bytes stay outstanding. */
  function ReservationBytes(path: OwnerPath, r: Reservation): int {
    if r.path == path && r.state in {Active, Released} then r.bytes else 0
  }

  function InitiationBytes(path: OwnerPath, i: Initiation): int {
    if PathOf(i.owner) == path then i.bytes else 0
  }

  function HoldBytes(path: OwnerPath, h: DiskHold): int {
    if h.path == path then h.bytes else 0
  }

  function CommittedBytes(path: OwnerPath, a: Attachment): int {
    if PathOf(a.key.owner) == path && a.state == Committed then a.bytes else 0
  }

  ghost function ReservationTotal(s: Sys, path: OwnerPath): int {
    Total(s.t.reservations, (r: Reservation) => ReservationBytes(path, r))
  }

  ghost function InitiationTotal(s: Sys, path: OwnerPath): int {
    Total(s.initiations, (i: Initiation) => InitiationBytes(path, i))
  }

  ghost function HoldTotal(s: Sys, path: OwnerPath): int {
    Total(s.holds, (h: DiskHold) => HoldBytes(path, h))
  }

  ghost function CommittedTotal(s: Sys, path: OwnerPath): int {
    Total(s.t.attachments, (a: Attachment) => CommittedBytes(path, a))
  }

  /** Bytes an owner has reserved: live and lost reservations, unbound initiations, disk-guard holds. */
  ghost function Outstanding(s: Sys, path: OwnerPath): int {
    ReservationTotal(s, path) + InitiationTotal(s, path) + HoldTotal(s, path)
  }

  /** Bytes an owner is charged for: committed attachments and disk-guarded files. */
  ghost function Charged(s: Sys, path: OwnerPath): int {
    CommittedTotal(s, path) + Guarded(s, path)
  }

  ghost predicate Ledger(s: Sys) {
    && Balanced(s.t)
    && (forall path :: ReservedOf(s.t, path) == Outstanding(s, path) && UsedOf(s.t, path) == Charged(s, path))
  }

  lemma ReservationCovered(s: Sys, res: ResId)
    requires Linked(s) && Ledger(s) && res in s.t.reservations && s.t.reservations[res].state in {Active, Released}
    ensures s.t.reservations[res].bytes <= ReservedOf(s.t, s.t.reservations[res].path)
  {
    var path := s.t.reservations[res].path;
    TotalAtLeast(s.t.reservations, (r: Reservation) => ReservationBytes(path, r), res);
    PartsNonNegative(s, path);
  }

  lemma HoldCovered(s: Sys, pid: Pid)
    requires Linked(s) && Ledger(s) && pid in s.holds
    ensures s.holds[pid].bytes <= ReservedOf(s.t, s.holds[pid].path)
  {
    var path := s.holds[pid].path;
    TotalAtLeast(s.holds, (h: DiskHold) => HoldBytes(path, h), pid);
    PartsNonNegative(s, path);
  }

  lemma PartsNonNegative(s: Sys, path: OwnerPath)
    requires Linked(s)
    ensures ReservationTotal(s, path) >= 0 && InitiationTotal(s, path) >= 0 && HoldTotal(s, path) >= 0
  {
    TotalNonNegative(s.t.reservations, (r: Reservation) => ReservationBytes(path, r));
    forall p | p in s.initiations ensures s.initiations[p].bytes > 0 {
      assert InitiationLinked(s.t, s.initiations[p]);
    }
    TotalNonNegative(s.initiations, (i: Initiation) => InitiationBytes(path, i));
    TotalNonNegative(s.holds, (h: DiskHold) => HoldBytes(path, h));
  }

  /** The counters and what they stand for move together. */
  lemma LedgerShift(s: Sys, s': Sys, path: OwnerPath, used: int, reserved: int)
    requires Ledger(s) && Balanced(s'.t) && Shifted(s.t, s'.t, path, used, reserved)
    requires forall p :: Outstanding(s', p) == Outstanding(s, p) + if p == path then reserved else 0
    requires forall p :: Charged(s', p) == Charged(s, p) + if p == path then used else 0
    ensures Ledger(s')
  {
    forall p ensures ReservedOf(s'.t, p) == Outstanding(s', p) && UsedOf(s'.t, p) == Charged(s', p) {
      assert ReservedOf(s.t, p) == Outstanding(s, p) && UsedOf(s.t, p) == Charged(s, p);
    }
  }

  // ---------------------------------------------------------------- each step

  function BytesBefore(t: Tables, path: OwnerPath, res: ResId): int {
    if res in t.reservations then ReservationBytes(path, t.reservations[res]) else 0
  }

  lemma ReservationChange(s: Sys, s': Sys, res: ResId, row: Reservation)
    requires s'.t.reservations == s.t.reservations[res := row]
    requires s'.initiations == s.initiations && s'.holds == s.holds
    ensures forall p :: Outstanding(s', p) == Outstanding(s, p) + ReservationBytes(p, row) - BytesBefore(s.t, p, res)
  {
    forall p ensures Outstanding(s', p) == Outstanding(s, p) + ReservationBytes(p, row) - BytesBefore(s.t, p, res) {
      TotalUpdate(s.t.reservations, (r: Reservation) => ReservationBytes(p, r), res, row);
    }
  }

  lemma AttachmentChange(s: Sys, s': Sys, id: AttId, row: Attachment)
    requires s'.t.attachments == s.t.attachments[id := row] && s'.guarded == s.guarded
    ensures forall p :: Charged(s', p) == Charged(s, p) + CommittedBytes(p, row)
                                          - if id in s.t.attachments then CommittedBytes(p, s.t.attachments[id]) else 0
  {
    forall p ensures Charged(s', p) == Charged(s, p) + CommittedBytes(p, row)
                                       - if id in s.t.attachments then CommittedBytes(p, s.t.attachments[id]) else 0 {
      TotalUpdate(s.t.attachments, (a: Attachment) => CommittedBytes(p, a), id, row);
    }
  }

  /** A row that was not committed and is not committed now charges nothing. */
  lemma QuietRow(s: Sys, s': Sys, id: AttId, row: Attachment)
    requires Ledger(s) && row.state != Committed && (id in s.t.attachments ==> s.t.attachments[id].state != Committed)
    requires s'.t == SetAttachment(s.t, id, row) && s'.guarded == s.guarded && s'.holds == s.holds
    requires forall p :: InitiationTotal(s', p) == InitiationTotal(s, p)
    ensures Ledger(s')
  {
    AttachmentChange(s, s', id, row);
    LedgerShift(s, s', AnyPath(), 0, 0);
  }

  /** A quiet row under requests that are no part of the ledger. */
  lemma QuietStep(s: Sys, s': Sys, id: AttId)
    requires Ledger(s) && s'.guarded == s.guarded && s'.holds == s.holds && s'.initiations == s.initiations
    requires s'.t == s.t ||
        (id in s.t.attachments && id in s'.t.attachments
         && s.t.attachments[id].state != Committed && s'.t.attachments[id].state != Committed
         && s'.t == SetAttachment(s.t, id, s'.t.attachments[id]))
    ensures Ledger(s')
  {
    if s'.t == s.t {
      LedgerShift(s, s', AnyPath(), 0, 0);
    } else {
      QuietRow(s, s', id, s'.t.attachments[id]);
    }
  }

  function AnyPath(): OwnerPath {
    PathOf(Customer(0))
  }

  lemma InitiateReserveKeepsLedger(lim: Limits, s: Sys, pid: Pid, owner: Owner, declared: int)
    requires lim.maxImage > 0 && Ledger(s) && CanInitiateReserve(lim, s, pid, owner, declared)
    ensures Ledger(DoInitiateReserve(lim, s, pid, owner, declared))
  {
    var s' := DoInitiateReserve(lim, s, pid, owner, declared);
    var bytes := ReserveBytes(lim, declared);
    ReserveShifts(s.t, PathOf(owner), bytes);
    forall p ensures InitiationTotal(s', p) == InitiationTotal(s, p) + if p == PathOf(owner) then bytes else 0 {
      TotalUpdate(s.initiations, (i: Initiation) => InitiationBytes(p, i), pid, Reserved(owner, bytes));
    }
    LedgerShift(s, s', PathOf(owner), 0, bytes);
  }

  lemma InitiateRecordKeepsLedger(s: Sys, pid: Pid, id: AttId, res: ResId, nonce: Nonce)
    requires Ledger(s) && CanInitiateRecord(s, pid, id, res, nonce)
    ensures Ledger(DoInitiateRecord(s, pid, id, res, nonce))
  {
    var s' := DoInitiateRecord(s, pid, id, res, nonce);
    forall p ensures InitiationTotal(s', p) == InitiationTotal(s, p) {
      TotalUpdate(s.initiations, (i: Initiation) => InitiationBytes(p, i), pid, s'.initiations[pid]);
    }
    QuietRow(s, s', id, s'.t.attachments[id]);
  }

  lemma InitiateBindKeepsLedger(lim: Limits, s: Sys, pid: Pid)
    requires Linked(s) && Ledger(s) && CanInitiateBind(s, pid)
    ensures Ledger(DoInitiateBind(lim, s, pid))
  {
    var s' := DoInitiateBind(lim, s, pid);
    var i := s.initiations[pid];
    assert InitiationLinked(s.t, i);
    forall p ensures Outstanding(s', p) == Outstanding(s, p) {
      TotalRemove(s.initiations, (i: Initiation) => InitiationBytes(p, i), pid);
      TotalUpdate(s.t.reservations, (r: Reservation) => ReservationBytes(p, r), i.reservation,
          s'.t.reservations[i.reservation]);
    }
    LedgerShift(s, s', AnyPath(), 0, 0);
  }

  lemma UploadKeepsLedger(s: Sys, step: UploadStep, s': Sys)
    requires Ledger(s) && UploadNext(s, step, s')
    ensures Ledger(s')
  {
    match step
    case UploadClaim(pid, id, size) => QuietStep(s, s', id);
    case UploadRename(pid, _) => QuietStep(s, s', s.uploads[pid].id);
    case UploadRecord(pid) => QuietStep(s, s', s.uploads[pid].id);
    case UploadUndo(pid) => QuietStep(s, s', s.uploads[pid].id);
  }

  /** The commit refunds exactly the reservation and charges exactly the file. */
  lemma CommitKeepsLedger(s: Sys, pid: Pid)
    requires Linked(s) && Ledger(s) && CanCompleteCommit(s, pid)
    ensures Ledger(DoCompleteCommit(s, pid))
  {
    var s' := DoCompleteCommit(s, pid);
    if CommitCall(s, pid).Some? {
      var c := s.completions[pid];
      var res := s.tickets[c.id].reservation;
      assert TicketLinked(s.t, c.id, s.tickets[c.id]) && RowLinked(s.t, c.id);
      ReservationCovered(s, res);
      CommittedPairKeepsLedger(s, s', c.id, res, c.size);
    } else {
      LedgerShift(s, s', AnyPath(), 0, 0);
    }
  }

  lemma CommittedPairKeepsLedger(s: Sys, s': Sys, id: AttId, res: ResId, size: nat)
    requires Ledger(s) && s'.initiations == s.initiations && s'.holds == s.holds && s'.guarded == s.guarded
    requires res in s.t.reservations && s.t.reservations[res].state == Active
    requires 0 < s.t.reservations[res].bytes <= ReservedOf(s.t, s.t.reservations[res].path)
    requires s'.t.reservations == s.t.reservations[res := s.t.reservations[res].(state := Settled)]
    requires id in s.t.attachments && s.t.attachments[id].state != Committed && id in s'.t.attachments
    requires PathOf(s.t.attachments[id].key.owner) == s.t.reservations[res].path
    requires s'.t.attachments[id].key == s.t.attachments[id].key
    requires s'.t.attachments[id].state == Committed && s'.t.attachments[id].bytes == size
    requires s'.t.attachments == s.t.attachments[id := s'.t.attachments[id]]
    requires var settled := SettleQuota(s.t, s.t.reservations[res].path, s.t.reservations[res].bytes, size);
             s'.t.owners == settled.owners && s'.t.global == settled.global
    ensures Ledger(s')
  {
    var row := s.t.reservations[res];
    SettleShifts(s.t, row.path, row.bytes, size);
    ReservationChange(s, s', res, row.(state := Settled));
    AttachmentChange(s, s', id, s'.t.attachments[id]);
    LedgerShift(s, s', row.path, size, -row.bytes);
  }

  lemma CompleteKeepsLedger(s: Sys, step: CompleteStep, s': Sys)
    requires Linked(s) && Ledger(s) && CompleteNext(s, step, s')
    ensures Ledger(s')
  {
    match step
    case CompleteBegin(_, id) => QuietStep(s, s', id);
    case CompleteMark(pid) => QuietStep(s, s', s.completions[pid].id);
    case CompleteProbe(pid) => QuietStep(s, s', s.completions[pid].id);
    case CompleteMove(pid, _) => QuietStep(s, s', s.completions[pid].id);
    case CompleteCommit(pid) => CommitKeepsLedger(s, pid);
  }

  lemma HoldKeepsLedger(s: Sys, s': Sys, pid: Pid, path: OwnerPath, bytes: int)
    requires Ledger(s) && pid !in s.holds && bytes > 0
    requires s' == s.(t := Reserve(s.t, path, bytes, true), holds := s.holds[pid := DiskHold(path, bytes)])
    ensures Ledger(s')
  {
    ReserveShifts(s.t, path, bytes);
    forall p ensures HoldTotal(s', p) == HoldTotal(s, p) + if p == path then bytes else 0 {
      TotalUpdate(s.holds, (h: DiskHold) => HoldBytes(p, h), pid, DiskHold(path, bytes));
    }
    LedgerShift(s, s', path, 0, bytes);
  }

  lemma GuardFinishKeepsLedger(s: Sys, pid: Pid, written: bool)
    requires Linked(s) && Ledger(s) && CanGuardFinish(s, pid, written)
    ensures Ledger(DoGuardFinish(s, pid, written))
  {
    var s' := DoGuardFinish(s, pid, written);
    var h := s.holds[pid];
    HoldCovered(s, pid);
    MoveShifts(s.t, h.path, h.bytes, written);
    forall p ensures HoldTotal(s', p) == HoldTotal(s, p) - (if p == h.path then h.bytes else 0) {
      TotalRemove(s.holds, (h: DiskHold) => HoldBytes(p, h), pid);
    }
    LedgerShift(s, s', h.path, if written then h.bytes else 0, -h.bytes);
  }

  lemma GuardKeepsLedger(lim: Limits, s: Sys, step: GuardStep, s': Sys)
    requires Linked(s) && Ledger(s) && GuardNext(lim, s, step, s')
    ensures Ledger(s')
  {
    match step
    case GuardInitialize(path, _) =>
      UpsertsShiftNothing(s.t, path);
      LedgerShift(s, s', path, 0, 0);
    case GuardReserve(pid, path, bytes) => HoldKeepsLedger(s, s', pid, path, bytes);
    case GuardFinish(pid, written) => GuardFinishKeepsLedger(s, pid, written);
    case GiveBack(path, bytes) =>
      GiveBackShifts(s.t, path, bytes);
      LedgerShift(s, s', path, -bytes, 0);
  }

  /** A lapsed reservation is refunded in full, on both levels. */
  lemma ExpireKeepsLedger(s: Sys, res: ResId)
    requires Linked(s) && Ledger(s) && CanReconcileExpire(s, res)
    ensures Ledger(DoReconcileExpire(s, res))
  {
    var s' := DoReconcileExpire(s, res);
    var row := s.t.reservations[res];
    if row.state == Active {
      ReservationCovered(s, res);
      var middle := s.(t := SettleQuota(SetReservation(s.t, res, row.(state := Lapsed)), row.path, row.bytes, 0));
      LapsedKeepsLedger(s, middle, res);
      QuietStep(middle, s', row.attachment);
    } else {
      QuietStep(s, s', 0);
    }
  }

  lemma LapsedKeepsLedger(s: Sys, s': Sys, res: ResId)
    requires Ledger(s) && res in s.t.reservations && s.t.reservations[res].state == Active
    requires 0 < s.t.reservations[res].bytes <= ReservedOf(s.t, s.t.reservations[res].path)
    requires var row := s.t.reservations[res];
             s' == s.(t := SettleQuota(SetReservation(s.t, res, row.(state := Lapsed)), row.path, row.bytes, 0))
    ensures Ledger(s')
  {
    var row := s.t.reservations[res];
    SettleShifts(s.t, row.path, row.bytes, 0);
    ReservationChange(s, s', res, row.(state := Lapsed));
    LedgerShift(s, s', row.path, 0, -row.bytes);
  }

  lemma LostKeepsLedger(s: Sys, id: AttId)
    requires Ledger(s) && CanReconcileLost(s, id)
    ensures Ledger(DoReconcileLost(s, id))
  {
    var s' := DoReconcileLost(s, id);
    var middle := s.(t := s.t.(reservations := s'.t.reservations));
    var res := s.t.attachments[id].reservation;
    if res in s.t.reservations && s.t.reservations[res].state == Active {
      ReservationChange(s, middle, res, s'.t.reservations[res]);
    }
    LedgerShift(s, middle, AnyPath(), 0, 0);
    QuietStep(middle, s', id);
  }

  lemma ReconcileKeepsLedger(s: Sys, step: ReconcileStep, s': Sys)
    requires Linked(s) && Ledger(s) && ReconcileNext(s, step, s')
    ensures Ledger(s')
  {
    match step
    case ReconcileStaged(id) => QuietStep(s, s', id);
    case ReconcileLost(id) => LostKeepsLedger(s, id);
    case ReconcileExpire(res) => ExpireKeepsLedger(s, res);
  }

  /** The ledger holds after every step from a linked state in which it holds. */
  lemma StepKeepsLedger(lim: Limits, s: Sys, step: Step, s': Sys)
    requires lim.maxImage > 0 && Linked(s) && Ledger(s) && Next(lim, s, step, s')
    ensures Ledger(s')
  {
    match step
    case Tick(_) => LedgerShift(s, s', AnyPath(), 0, 0);
    case OnInitiate(InitiateReserve(pid, owner, declared)) => InitiateReserveKeepsLedger(lim, s, pid, owner, declared);
    case OnInitiate(InitiateRecord(pid, id, res, nonce)) => InitiateRecordKeepsLedger(s, pid, id, res, nonce);
    case OnInitiate(InitiateBind(pid)) => InitiateBindKeepsLedger(lim, s, pid);
    case OnUpload(step) => UploadKeepsLedger(s, step, s');
    case OnComplete(step) => CompleteKeepsLedger(s, step, s');
    case OnGuard(step) => GuardKeepsLedger(lim, s, step, s');
    case OnReconcile(step) => ReconcileKeepsLedger(s, step, s');
  }
}
