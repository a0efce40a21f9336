/** How far storage can pass its limits: only through a commit whose file is larger than its reservation. */
module AttachmentCeiling {
  import opened Sums
  import opened AttachmentTables
  import opened AttachmentProtocol
  import opened AttachmentLinks
  import opened AttachmentLedger
  import opened AttachmentLifecycle
  import opened AttachmentTheorems

  /** What one committed attachment takes beyond its reservation; `path` absent means every owner. */
  function Excess(reservations: map<ResId, Reservation>, path: Option<OwnerPath>, a: Attachment): int {
    if a.state == Committed && (path.Some? ==> PathOf(a.key.owner) == path.value) && a.reservation in reservations
    then Clamp(a.bytes - reservations[a.reservation].bytes)
    else 0
  }

  ghost function ExcessOf(t: Tables, path: Option<OwnerPath>): int {
    Total(t.attachments, (a: Attachment) => Excess(t.reservations, path, a))
  }

  function OwnerSum(t: Tables, path: OwnerPath): int {
    UsedOf(t, path) + ReservedOf(t, path)
  }

  function GlobalSum(t: Tables): int {
    GlobalUsed(t) + GlobalReserved(t)
  }

  ghost predicate WithinCeilings(lim: Limits, t: Tables) {
    && (forall path :: OwnerSum(t, path) <= Clamp(lim.maxOwner) + ExcessOf(t, Some(path)))
    && GlobalSum(t) <= Clamp(lim.maxGlobal) + ExcessOf(t, None)
  }

  /** Storage that does not grow stays within its ceilings as long as the excess does not shrink. */
  lemma NoGrowth(lim: Limits, t: Tables, t': Tables)
    requires WithinCeilings(lim, t)
    requires forall p :: OwnerSum(t', p) - ExcessOf(t', Some(p)) <= OwnerSum(t, p) - ExcessOf(t, Some(p))
    requires GlobalSum(t') - ExcessOf(t', None) <= GlobalSum(t) - ExcessOf(t, None)
    ensures WithinCeilings(lim, t')
  {
    forall p ensures OwnerSum(t', p) <= Clamp(lim.maxOwner) + ExcessOf(t', Some(p)) {
      assert OwnerSum(t, p) <= Clamp(lim.maxOwner) + ExcessOf(t, Some(p));
    }
  }

  lemma ExcessNonNegative(t: Tables, path: Option<OwnerPath>)
    ensures ExcessOf(t, path) >= 0
  {
    TotalNonNegative(t.attachments, (a: Attachment) => Excess(t.reservations, path, a));
  }

  /** The excess reads reservations' bytes and committed rows, and neither changes under an advance. */
  lemma ExcessUnderOneRow(t: Tables, t': Tables, id: AttId, path: Option<OwnerPath>)
    requires Advances(t, t') && TablesLinked(t) && id in t'.attachments
    requires t'.attachments == t.attachments[id := t'.attachments[id]]
    ensures ExcessOf(t', path) == ExcessOf(t, path) + Excess(t'.reservations, path, t'.attachments[id])
                                  - if id in t.attachments then Excess(t.reservations, path, t.attachments[id]) else 0
  {
    var row := t'.attachments[id];
    forall a | a in t.attachments
      ensures Excess(t'.reservations, path, t.attachments[a]) == Excess(t.reservations, path, t.attachments[a])
    {
      assert RowLinked(t, a);
    }
    TotalSame(t.attachments, (a: Attachment) => Excess(t.reservations, path, a),
        (a: Attachment) => Excess(t'.reservations, path, a));
    TotalUpdate(t.attachments, (a: Attachment) => Excess(t'.reservations, path, a), id, row);
  }

  lemma ExcessUnchanged(t: Tables, t': Tables, path: Option<OwnerPath>)
    requires Advances(t, t') && TablesLinked(t) && t'.attachments == t.attachments
    ensures ExcessOf(t', path) == ExcessOf(t, path)
  {
    forall a | a in t.attachments
      ensures Excess(t'.reservations, path, t.attachments[a]) == Excess(t.reservations, path, t.attachments[a])
    {
      assert RowLinked(t, a);
    }
    TotalSame(t.attachments, (a: Attachment) => Excess(t.reservations, path, a),
        (a: Attachment) => Excess(t'.reservations, path, a));
  }

  /** One quiet row, and counters that do not grow. */
  lemma QuietKeepsCeilings(lim: Limits, t: Tables, t': Tables, id: AttId)
    requires WithinCeilings(lim, t) && Advances(t, t') && TablesLinked(t)
    requires t'.attachments == t.attachments
          || (id in t'.attachments && t'.attachments == t.attachments[id := t'.attachments[id]]
              && t'.attachments[id].state != Committed
              && (id in t.attachments ==> t.attachments[id].state != Committed))
    requires (forall p :: OwnerSum(t', p) <= OwnerSum(t, p)) && GlobalSum(t') <= GlobalSum(t)
    ensures WithinCeilings(lim, t')
  {
    forall path ensures ExcessOf(t', path) == ExcessOf(t, path) {
      if t'.attachments == t.attachments {
        ExcessUnchanged(t, t', path);
      } else {
        ExcessUnderOneRow(t, t', id, path);
      }
    }
    NoGrowth(lim, t, t');
  }

  lemma RoomBoundsSums(t: Tables, path: OwnerPath, maximum: int, bytes: int, maximumGlobal: int)
    requires bytes > 0 && HasRoom(t, path, maximum, bytes, maximumGlobal)
    ensures OwnerSum(Reserve(t, path, bytes, true), path) <= Clamp(maximum)
    ensures GlobalSum(Reserve(t, path, bytes, true)) <= Clamp(maximumGlobal)
    ensures forall p :: p != path ==> OwnerSum(Reserve(t, path, bytes, true), p) == OwnerSum(t, p)
  {
  }

  lemma BoundedRowKeepsCeilings(lim: Limits, t: Tables, t': Tables, path: OwnerPath)
    requires WithinCeilings(lim, t) && TablesLinked(t)
    requires t'.attachments == t.attachments && t'.reservations == t.reservations
    requires OwnerSum(t', path) <= Clamp(lim.maxOwner) && GlobalSum(t') <= Clamp(lim.maxGlobal)
    requires forall p :: p != path ==> OwnerSum(t', p) == OwnerSum(t, p)
    ensures WithinCeilings(lim, t')
  {
    QuotaAdvances(t, t');
    forall p ensures OwnerSum(t', p) <= Clamp(lim.maxOwner) + ExcessOf(t', Some(p)) {
      ExcessUnchanged(t, t', Some(p));
      ExcessNonNegative(t, Some(p));
      assert OwnerSum(t, p) <= Clamp(lim.maxOwner) + ExcessOf(t, Some(p));
    }
    ExcessNonNegative(t', None);
  }

  lemma ReserveKeepsCeilings(lim: Limits, t: Tables, path: OwnerPath, bytes: int)
    requires WithinCeilings(lim, t) && TablesLinked(t) && bytes > 0
    requires HasRoom(t, path, lim.maxOwner, bytes, lim.maxGlobal)
    ensures WithinCeilings(lim, Reserve(t, path, bytes, true))
  {
    RoomBoundsSums(t, path, lim.maxOwner, bytes, lim.maxGlobal);
    BoundedRowKeepsCeilings(lim, t, Reserve(t, path, bytes, true), path);
  }

  /** A commit moves both sums by its file less its reservation, so it raises them exactly when the file is larger. */
  lemma CommitMovesSums(s: Sys, pid: Pid)
    requires Linked(s) && Ledger(s) && CanCompleteCommit(s, pid) && CommitCall(s, pid).Some?
    ensures var c, t' := s.completions[pid], CommitCall(s, pid).value;
            var reserved := s.t.reservations[s.tickets[c.id].reservation].bytes;
            && (forall p :: OwnerSum(t', p) == OwnerSum(s.t, p) + if p == PathOf(c.owner) then c.size - reserved else 0)
            && GlobalSum(t') == GlobalSum(s.t) + c.size - reserved
            && (GlobalSum(t') > GlobalSum(s.t) <==> c.size > reserved)
  {
    var c, t' := s.completions[pid], CommitCall(s, pid).value;
    var res := s.tickets[c.id].reservation;
    assert TicketLinked(s.t, c.id, s.tickets[c.id]) && RowLinked(s.t, c.id);
    ReservationCovered(s, res);
    SettleShifts(s.t, PathOf(c.owner), s.t.reservations[res].bytes, c.size);
    assert t'.owners == SettleQuota(s.t, PathOf(c.owner), s.t.reservations[res].bytes, c.size).owners;
  }

  lemma CommitMovesExcess(s: Sys, pid: Pid, path: Option<OwnerPath>)
    requires Linked(s) && CanCompleteCommit(s, pid) && CommitCall(s, pid).Some?
    ensures var c := s.completions[pid];
            var reserved := s.t.reservations[s.tickets[c.id].reservation].bytes;
            ExcessOf(CommitCall(s, pid).value, path)
            == ExcessOf(s.t, path) + if path.Some? && path.value != PathOf(c.owner) then 0 else Clamp(c.size - reserved)
  {
    var c := s.completions[pid];
    assert TicketLinked(s.t, c.id, s.tickets[c.id]) && RowLinked(s.t, c.id);
    CommitAdvances(s, pid);
    ExcessUnderOneRow(s.t, CommitCall(s, pid).value, c.id, path);
  }

  lemma CommitKeepsCeilings(lim: Limits, s: Sys, pid: Pid)
    requires Linked(s) && Ledger(s) && WithinCeilings(lim, s.t) && CanCompleteCommit(s, pid)
    ensures WithinCeilings(lim, DoCompleteCommit(s, pid).t)
  {
    if CommitCall(s, pid).Some? {
      var c, t' := s.completions[pid], CommitCall(s, pid).value;
      var reserved := s.t.reservations[s.tickets[c.id].reservation].bytes;
      CommitMovesSums(s, pid);
      forall path ensures ExcessOf(t', path)
                          == ExcessOf(s.t, path)
                             + if path.Some? && path.value != PathOf(c.owner) then 0 else Clamp(c.size - reserved) {
        CommitMovesExcess(s, pid, path);
      }
      NoGrowth(lim, s.t, t');
    }
  }

  /** A step that changes one quiet row at most, and no quota row. */
  lemma QuietStepKeepsCeilings(lim: Limits, s: Sys, s': Sys, id: AttId)
    requires WithinCeilings(lim, s.t) && TablesLinked(s.t) && Advances(s.t, s'.t)
    requires s'.t.owners == s.t.owners && s'.t.global == s.t.global
    requires s'.t.attachments == s.t.attachments
          || (id in s'.t.attachments && s'.t.attachments == s.t.attachments[id := s'.t.attachments[id]]
              && s'.t.attachments[id].state != Committed
              && (id in s.t.attachments ==> s.t.attachments[id].state != Committed))
    ensures WithinCeilings(lim, s'.t)
  {
    QuietKeepsCeilings(lim, s.t, s'.t, id);
  }

  lemma InitiateKeepsCeilings(lim: Limits, s: Sys, step: InitiateStep, s': Sys)
    requires lim.maxImage > 0 && Linked(s) && WithinCeilings(lim, s.t) && InitiateNext(lim, s, step, s')
    ensures WithinCeilings(lim, s'.t)
  {
    InitiateAdvances(lim, s, step, s');
    match step
    case InitiateReserve(_, owner, declared) =>
      ReserveKeepsCeilings(lim, s.t, PathOf(owner), ReserveBytes(lim, declared));
    case InitiateRecord(_, id, _, _) => QuietStepKeepsCeilings(lim, s, s', id);
    case InitiateBind(_) => QuietStepKeepsCeilings(lim, s, s', 0);
  }

  lemma UploadKeepsCeilings(lim: Limits, s: Sys, step: UploadStep, s': Sys)
    requires TablesLinked(s.t) && WithinCeilings(lim, s.t) && UploadNext(s, step, s')
    ensures WithinCeilings(lim, s'.t)
  {
    UploadAdvances(s, step, s');
    QuietStepKeepsCeilings(lim, s, s', if step.UploadClaim? then step.id else s.uploads[step.pid].id);
  }

  lemma GuardKeepsCeilings(lim: Limits, s: Sys, step: GuardStep, s': Sys)
    requires Linked(s) && Ledger(s) && WithinCeilings(lim, s.t) && GuardNext(lim, s, step, s')
    ensures WithinCeilings(lim, s'.t)
  {
    match step
    case GuardInitialize(path, _) =>
      UpsertsShiftNothing(s.t, path);
      QuotaAdvances(s.t, s'.t);
      QuietKeepsCeilings(lim, s.t, s'.t, 0);
    case GuardReserve(_, path, bytes) => ReserveKeepsCeilings(lim, s.t, path, bytes);
    case GuardFinish(pid, written) =>
      HoldCovered(s, pid);
      MoveShifts(s.t, s.holds[pid].path, s.holds[pid].bytes, written);
      QuotaAdvances(s.t, s'.t);
      QuietKeepsCeilings(lim, s.t, s'.t, 0);
    case GiveBack(path, bytes) =>
      GiveBackShifts(s.t, path, bytes);
      QuotaAdvances(s.t, s'.t);
      QuietKeepsCeilings(lim, s.t, s'.t, 0);
  }

  lemma ReconcileKeepsCeilings(lim: Limits, s: Sys, step: ReconcileStep, s': Sys)
    requires Linked(s) && Ledger(s) && WithinCeilings(lim, s.t) && ReconcileNext(s, step, s')
    ensures WithinCeilings(lim, s'.t)
  {
    ReconcileAdvances(s, step, s');
    match step
    case ReconcileStaged(id) => QuietStepKeepsCeilings(lim, s, s', id);
    case ReconcileLost(id) => QuietStepKeepsCeilings(lim, s, s', id);
    case ReconcileExpire(res) =>
      var row := s.t.reservations[res];
      if row.state == Active {
        ReservationCovered(s, res);
        SettleShifts(s.t, row.path, row.bytes, 0);
        assert s'.t.owners == SettleQuota(s.t, row.path, row.bytes, 0).owners;
        QuietKeepsCeilings(lim, s.t, s'.t, row.attachment);
      }
  }

  lemma CompleteKeepsCeilings(lim: Limits, s: Sys, step: CompleteStep, s': Sys)
    requires Linked(s) && Ledger(s) && WithinCeilings(lim, s.t) && CompleteNext(s, step, s')
    ensures WithinCeilings(lim, s'.t)
  {
    CompleteAdvances(s, step, s');
    if step.CompleteCommit? {
      CommitKeepsCeilings(lim, s, step.pid);
    } else {
      QuietStepKeepsCeilings(lim, s, s', if step.CompleteBegin? then step.id else s.completions[step.pid].id);
    }
  }

  lemma StepKeepsCeilings(lim: Limits, s: Sys, step: Step, s': Sys)
    requires lim.maxImage > 0 && Linked(s) && Ledger(s) && WithinCeilings(lim, s.t) && Next(lim, s, step, s')
    ensures WithinCeilings(lim, s'.t)
  {
    match step
    case Tick(_) => assert s'.t == s.t;
    case OnInitiate(step) => InitiateKeepsCeilings(lim, s, step, s');
    case OnUpload(step) => UploadKeepsCeilings(lim, s, step, s');
    case OnComplete(step) => CompleteKeepsCeilings(lim, s, step, s');
    case OnGuard(step) => GuardKeepsCeilings(lim, s, step, s');
    case OnReconcile(step) => ReconcileKeepsCeilings(lim, s, step, s');
  }

  lemma {:induction false} RunWithinCeilings(lim: Limits, run: Run, i: nat)
    requires ValidRun(lim, run) && i < |run.states|
    ensures WithinCeilings(lim, run.states[i].t)
  {
    if i == 0 {
      forall path ensures ExcessOf(run.states[0].t, path) >= 0 {
        ExcessNonNegative(run.states[0].t, path);
      }
    } else {
      RunWithinCeilings(lim, run, i - 1);
      Reachable(lim, run, i - 1);
      StepKeepsCeilings(lim, run.states[i - 1], run.steps[i - 1], run.states[i]);
    }
  }

  /** In every reachable state an owner's storage is within its limit, up to what its committed files
      took beyond their reservations; likewise the whole module's storage. */
  lemma StorageCeiling(lim: Limits, run: Run, i: nat, path: OwnerPath)
    requires ValidRun(lim, run) && i < |run.states|
    ensures var t := run.states[i].t;
            && OwnerSum(t, path) <= Clamp(lim.maxOwner) + ExcessOf(t, Some(path))
            && GlobalSum(t) <= Clamp(lim.maxGlobal) + ExcessOf(t, None)
            && ExcessOf(t, Some(path)) >= 0 && ExcessOf(t, None) >= 0
  {
    RunWithinCeilings(lim, run, i);
    ExcessNonNegative(run.states[i].t, Some(path));
    ExcessNonNegative(run.states[i].t, None);
  }

  ghost predicate AllFit(t: Tables) {
    forall id ::
      id in t.attachments && t.attachments[id].state == Committed && t.attachments[id].reservation in t.reservations ==>
      t.attachments[id].bytes <= t.reservations[t.attachments[id].reservation].bytes
  }

  /** Without a file larger than its reservation the limits themselves hold. */
  lemma LimitsHoldWhenFilesFit(lim: Limits, run: Run, i: nat, path: OwnerPath)
    requires ValidRun(lim, run) && i < |run.states| && AllFit(run.states[i].t)
    ensures OwnerSum(run.states[i].t, path) <= Clamp(lim.maxOwner)
    ensures GlobalSum(run.states[i].t) <= Clamp(lim.maxGlobal)
  {
    var t := run.states[i].t;
    StorageCeiling(lim, run, i, path);
    forall p ensures ExcessOf(t, p) == 0 {
      TotalOfZeros(t.attachments, (a: Attachment) => Excess(t.reservations, p, a));
    }
  }
}
