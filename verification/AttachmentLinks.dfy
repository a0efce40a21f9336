/** How attachment rows, reservation rows, tickets and requests in flight hang together in every reachable state. */
module AttachmentLinks {
  import opened Sums
  import opened AttachmentTables
  import opened AttachmentProtocol

  /** What an attachment row's state says about the reservation it names, and the other way round. */
  ghost predicate RowLinked(t: Tables, id: AttId)
    requires id in t.attachments
  {
    var row := t.attachments[id];
    && (row.finalPath.Some? ==> row.state == Committed)
    && (if row.reservation in t.reservations then
          var res := t.reservations[row.reservation];
          && res.attachment == id
          && res.path == PathOf(row.key.owner)
          && (row.state == Committed <==> res.state == Settled)
          && (row.state == Expired ==> res.state == Lapsed)
          && (row.state == Failed ==> res.state in {Released, Lapsed})
        else
          row.state == Issued)
  }

  ghost predicate TablesLinked(t: Tables) {
    && (forall id :: id in t.attachments ==> RowLinked(t, id))
    && (forall res :: res in t.reservations ==>
          && t.reservations[res].bytes > 0
          && t.reservations[res].attachment in t.attachments
          && t.attachments[t.reservations[res].attachment].reservation == res)
  }

  ghost predicate TicketLinked(t: Tables, id: AttId, ticket: Ticket) {
    && id in t.attachments
    && t.attachments[id].key == OwnerHash(ticket.owner)
    && t.attachments[id].reservation == ticket.reservation
    && ticket.reservation in t.reservations
  }

  ghost predicate TicketsLinked(s: Sys) {
    forall id :: id in s.tickets ==> TicketLinked(s.t, id, s.tickets[id])
  }

  /** An attachment row whose reservation row is still to be written. */
  ghost predicate InitiationLinked(t: Tables, i: Initiation) {
    && i.bytes > 0
    && (i.Recorded? ==>
          && i.id in t.attachments
          && t.attachments[i.id].reservation == i.reservation
          && t.attachments[i.id].key == OwnerHash(i.owner)
          && i.reservation !in t.reservations
          && (forall a :: a in t.attachments && t.attachments[a].reservation == i.reservation ==> a == i.id))
  }

  ghost predicate InitiationsLinked(s: Sys) {
    && (forall pid :: pid in s.initiations ==> InitiationLinked(s.t, s.initiations[pid]))
    && (forall p, q :: (p in s.initiations && q in s.initiations && p != q
                        && s.initiations[p].Recorded? && s.initiations[q].Recorded?)
                       ==> s.initiations[p].reservation != s.initiations[q].reservation)
  }

  /** An upload in flight holds the only claim on its attachment. */
  ghost predicate UploadsLinked(s: Sys) {
    && (forall pid :: pid in s.uploads ==>
          && !s.uploads[pid].Conflicted?
          && s.uploads[pid].id in s.t.attachments
          && s.t.attachments[s.uploads[pid].id].state == Uploading)
    && (forall p, q :: p in s.uploads && q in s.uploads && p != q ==> s.uploads[p].id != s.uploads[q].id)
  }

  ghost predicate CompletionsLinked(s: Sys) {
    forall pid :: pid in s.completions ==>
      s.completions[pid].id in s.tickets && s.completions[pid].owner == s.tickets[s.completions[pid].id].owner
  }

  ghost predicate HoldsLinked(s: Sys) {
    forall pid :: pid in s.holds ==> s.holds[pid].bytes > 0
  }

  ghost predicate Linked(s: Sys) {
    && TablesLinked(s.t)
    && TicketsLinked(s)
    && InitiationsLinked(s)
    && UploadsLinked(s)
    && CompletionsLinked(s)
    && HoldsLinked(s)
  }

  /** Rows change state; no row changes the owner or the reservation it names, and none comes or goes. */
  ghost predicate SameIdentities(t: Tables, t': Tables) {
    && t'.attachments.Keys == t.attachments.Keys
    && t'.reservations.Keys == t.reservations.Keys
    && (forall a :: a in t.attachments ==>
          && t'.attachments[a].key == t.attachments[a].key
          && t'.attachments[a].reservation == t.attachments[a].reservation)
  }

  /** A row that moves between states in which its reservation is neither settled, lapsed nor released by it. */
  lemma StateChangeKeepsTables(t: Tables, id: AttId, row: Attachment)
    requires TablesLinked(t) && id in t.attachments
    requires row.key == t.attachments[id].key && row.reservation == t.attachments[id].reservation
    requires RowLinked(SetAttachment(t, id, row), id)
    ensures TablesLinked(SetAttachment(t, id, row)) && SameIdentities(t, SetAttachment(t, id, row))
  {
    var t' := SetAttachment(t, id, row);
    forall a | a in t'.attachments ensures RowLinked(t', a) {
      assert RowLinked(t, a);
    }
  }

  /** Both rows of one reservation change together. */
  lemma PairChangeKeepsTables(t: Tables, t': Tables, id: AttId)
    requires TablesLinked(t) && id in t.attachments && SameIdentities(t, t') && RowLinked(t', id)
    requires t.attachments[id].reservation in t.reservations
    requires forall a :: a in t.attachments && a != id ==> t'.attachments[a] == t.attachments[a]
    requires forall r :: r in t.reservations ==>
        t'.reservations[r] == t.reservations[r].(state := t'.reservations[r].state)
    requires forall r :: r in t.reservations && r != t.attachments[id].reservation ==>
               t'.reservations[r] == t.reservations[r]
    ensures TablesLinked(t')
  {
    assert RowLinked(t, id);
    forall a | a in t'.attachments ensures RowLinked(t', a) {
      assert RowLinked(t, a);
    }
  }

  // ---------------------------------------------------------------- each table action

  lemma ClaimKeepsTables(t: Tables, id: AttId, key: OwnerKey, nonce: Nonce, now: int)
    requires TablesLinked(t) && id in t.attachments && Claimable(t.attachments[id], key, nonce, now)
    requires t.attachments[id].reservation in t.reservations
    ensures TablesLinked(ClaimForUpload(t, id, key, nonce, now))
    ensures SameIdentities(t, ClaimForUpload(t, id, key, nonce, now))
  {
    assert RowLinked(t, id);
    StateChangeKeepsTables(t, id, t.attachments[id].(state := Uploading, updatedAt := now));
  }

  lemma ReleaseClaimKeepsTables(t: Tables, id: AttId, now: int)
    requires TablesLinked(t)
    ensures TablesLinked(ReleaseUploadClaim(t, id, now)) && SameIdentities(t, ReleaseUploadClaim(t, id, now))
  {
    if id in t.attachments && t.attachments[id].state == Uploading {
      assert RowLinked(t, id);
      StateChangeKeepsTables(t, id, t.attachments[id].(state := Issued, updatedAt := now));
    }
  }

  lemma RecordStagedKeepsTables(t: Tables, id: AttId, path: FilePath, bytes: int, now: int)
    requires TablesLinked(t)
    ensures TablesLinked(RecordStaged(t, id, path, bytes, now))
    ensures SameIdentities(t, RecordStaged(t, id, path, bytes, now))
  {
    if id in t.attachments && t.attachments[id].state == Uploading {
      assert RowLinked(t, id);
      StateChangeKeepsTables(t, id,
          t.attachments[id].(state := Staged, stagedPath := Some(path), bytes := bytes, updatedAt := now));
    }
  }

  lemma MarkKeepsTables(t: Tables, id: AttId, now: int)
    requires TablesLinked(t) && id in t.attachments && t.attachments[id].reservation in t.reservations
    ensures TablesLinked(TryMarkFinalizing(t, id, now)) && SameIdentities(t, TryMarkFinalizing(t, id, now))
  {
    if CanFinalize(t.attachments[id], now) {
      assert RowLinked(t, id);
      StateChangeKeepsTables(t, id, t.attachments[id].(state := Finalizing, updatedAt := now));
    }
  }

  lemma ReturnKeepsTables(t: Tables, id: AttId, now: int)
    requires TablesLinked(t)
    ensures TablesLinked(ReturnToStaged(t, id, now)) && SameIdentities(t, ReturnToStaged(t, id, now))
  {
    if id in t.attachments && t.attachments[id].state == Finalizing {
      assert RowLinked(t, id);
      StateChangeKeepsTables(t, id, t.attachments[id].(state := Staged, updatedAt := now));
    }
  }

  lemma CommitKeepsTables(t: Tables, id: AttId, finalPath: FilePath, path: OwnerPath, size: int, res: ResId,
                          key: OwnerKey, now: int)
    requires TablesLinked(t) && CommitFinal(t, id, finalPath, path, size, Some(res), Some(key), now).Some?
    ensures var t' := CommitFinal(t, id, finalPath, path, size, Some(res), Some(key), now).value;
            TablesLinked(t') && SameIdentities(t, t') && t.attachments[id].state == Finalizing
  {
    var t' := CommitFinal(t, id, finalPath, path, size, Some(res), Some(key), now).value;
    assert RowLinked(t, id) && t.attachments[id].reservation == res;
    PairChangeKeepsTables(t, t', id);
  }

  lemma FailLostKeepsTables(t: Tables, id: AttId, now: int)
    requires TablesLinked(t) && id in t.attachments && t.attachments[id].state == Finalizing
    ensures TablesLinked(FailLost(t, id, now)) && SameIdentities(t, FailLost(t, id, now))
  {
    assert RowLinked(t, id);
    PairChangeKeepsTables(t, FailLost(t, id, now), id);
  }

  lemma ExpireKeepsTables(t: Tables, res: ResId, now: int)
    requires TablesLinked(t)
    ensures TablesLinked(ExpireRow(t, res, now)) && SameIdentities(t, ExpireRow(t, res, now))
  {
    if res in t.reservations && t.reservations[res].state == Active {
      assert RowLinked(t, t.reservations[res].attachment);
      PairChangeKeepsTables(t, ExpireRow(t, res, now), t.reservations[res].attachment);
    }
  }

  // ---------------------------------------------------------------- each step

  /** Tickets and initiations read identities only. */
  lemma IdentitiesKeepTickets(s: Sys, s': Sys)
    requires TicketsLinked(s) && InitiationsLinked(s)
    requires SameIdentities(s.t, s'.t) && s'.tickets == s.tickets && s'.initiations == s.initiations
    ensures TicketsLinked(s') && InitiationsLinked(s')
  {
    forall pid | pid in s'.initiations ensures InitiationLinked(s'.t, s'.initiations[pid]) {
      assert InitiationLinked(s.t, s.initiations[pid]);
    }
    forall a | a in s'.tickets ensures TicketLinked(s'.t, a, s'.tickets[a]) {
      assert TicketLinked(s.t, a, s.tickets[a]);
    }
  }

  lemma QuotaChangeKeepsTables(t: Tables, t': Tables)
    requires TablesLinked(t) && t'.attachments == t.attachments && t'.reservations == t.reservations
    ensures TablesLinked(t') && SameIdentities(t, t')
  {
    forall a | a in t'.attachments ensures RowLinked(t', a) {
      assert RowLinked(t, a);
    }
  }

  /** A step that issues no ticket: its tables and its requests are checked apart. */
  lemma Reassemble(s: Sys, s': Sys)
    requires TicketsLinked(s) && InitiationsLinked(s)
    requires SameIdentities(s.t, s'.t) && s'.tickets == s.tickets && s'.initiations == s.initiations
    requires TablesLinked(s'.t) && UploadsLinked(s') && CompletionsLinked(s') && HoldsLinked(s')
    ensures Linked(s')
  {
    IdentitiesKeepTickets(s, s');
  }

  /** A quota change, with or without one more initiation at its first stage. */
  lemma QuotaStepKeepsLinked(s: Sys, s': Sys)
    requires Linked(s) && s'.t.attachments == s.t.attachments && s'.t.reservations == s.t.reservations
    requires s'.tickets == s.tickets && s'.uploads == s.uploads && s'.completions == s.completions && HoldsLinked(s')
    requires forall p :: p in s'.initiations ==>
        (if p in s.initiations then s'.initiations[p] == s.initiations[p]
            else s'.initiations[p].Reserved? && s'.initiations[p].bytes > 0)
    ensures Linked(s')
  {
    QuotaChangeKeepsTables(s.t, s'.t);
    var middle := s.(t := s'.t);
    IdentitiesKeepTickets(s, middle);
    forall p | p in s'.initiations ensures InitiationLinked(s'.t, s'.initiations[p]) {
      assert p in s.initiations ==> InitiationLinked(middle.t, middle.initiations[p]);
    }
  }

  lemma InitiateRecordKeepsLinked(s: Sys, pid: Pid, id: AttId, res: ResId, nonce: Nonce)
    requires Linked(s) && CanInitiateRecord(s, pid, id, res, nonce)
    ensures Linked(DoInitiateRecord(s, pid, id, res, nonce))
  {
    var s' := DoInitiateRecord(s, pid, id, res, nonce);
    forall a | a in s'.t.attachments ensures RowLinked(s'.t, a) {
      assert a != id ==> RowLinked(s.t, a);
    }
    forall p | p in s'.initiations ensures InitiationLinked(s'.t, s'.initiations[p]) {
      assert p in s.initiations && InitiationLinked(s.t, s.initiations[p]);
    }
    forall a | a in s'.tickets ensures TicketLinked(s'.t, a, s'.tickets[a]) {
      assert TicketLinked(s.t, a, s.tickets[a]);
    }
  }

  lemma InitiateBindKeepsLinked(lim: Limits, s: Sys, pid: Pid)
    requires Linked(s) && CanInitiateBind(s, pid)
    ensures Linked(DoInitiateBind(lim, s, pid))
  {
    var s' := DoInitiateBind(lim, s, pid);
    var i := s.initiations[pid];
    assert InitiationLinked(s.t, i);
    forall a | a in s'.t.attachments ensures RowLinked(s'.t, a) {
      assert RowLinked(s.t, a);
    }
    forall p | p in s'.initiations ensures InitiationLinked(s'.t, s'.initiations[p]) {
      assert p in s.initiations && p != pid && InitiationLinked(s.t, s.initiations[p]);
    }
    forall a | a in s'.tickets ensures TicketLinked(s'.t, a, s'.tickets[a]) {
      assert a != i.id ==> TicketLinked(s.t, a, s.tickets[a]);
    }
  }

  lemma ClaimKeepsUploads(s: Sys, pid: Pid, id: AttId, size: nat)
    requires UploadsLinked(s) && CanUploadClaim(s, pid, id, size)
    ensures UploadsLinked(DoUploadClaim(s, pid, id, size))
  {
  }

  lemma UploadClaimKeepsLinked(s: Sys, pid: Pid, id: AttId, size: nat)
    requires Linked(s) && CanUploadClaim(s, pid, id, size)
    ensures Linked(DoUploadClaim(s, pid, id, size))
  {
    assert TicketLinked(s.t, id, s.tickets[id]);
    ClaimKeepsTables(s.t, id, OwnerHash(s.tickets[id].owner), s.tickets[id].nonce, s.now);
    ClaimKeepsUploads(s, pid, id, size);
    Reassemble(s, DoUploadClaim(s, pid, id, size));
  }

  lemma RenameKeepsUploads(s: Sys, pid: Pid, renamed: bool)
    requires UploadsLinked(s) && CanUploadRename(s, pid, renamed)
    ensures UploadsLinked(DoUploadRename(s, pid, renamed))
  {
  }

  lemma UploadRenameKeepsLinked(s: Sys, pid: Pid, renamed: bool)
    requires Linked(s) && CanUploadRename(s, pid, renamed)
    ensures Linked(DoUploadRename(s, pid, renamed))
  {
    RenameKeepsUploads(s, pid, renamed);
    ReleaseClaimKeepsTables(s.t, s.uploads[pid].id, s.now);
    Reassemble(s, DoUploadRename(s, pid, renamed));
  }

  lemma RecordKeepsUploads(s: Sys, pid: Pid)
    requires UploadsLinked(s) && CanUploadRecord(s, pid)
    ensures UploadsLinked(DoUploadRecord(s, pid))
  {
  }

  lemma UploadRecordKeepsLinked(s: Sys, pid: Pid)
    requires Linked(s) && CanUploadRecord(s, pid)
    ensures Linked(DoUploadRecord(s, pid))
  {
    var u := s.uploads[pid];
    RecordStagedKeepsTables(s.t, u.id, StagedFile(PathOf(u.owner), u.id), u.size, s.now);
    RecordKeepsUploads(s, pid);
    Reassemble(s, DoUploadRecord(s, pid));
  }

  lemma MarkKeepsRequests(s: Sys, pid: Pid)
    requires UploadsLinked(s) && CompletionsLinked(s) && CanCompleteMark(s, pid)
    ensures UploadsLinked(DoCompleteMark(s, pid)) && CompletionsLinked(DoCompleteMark(s, pid))
  {
  }

  lemma CompleteMarkKeepsLinked(s: Sys, pid: Pid)
    requires Linked(s) && CanCompleteMark(s, pid)
    ensures Linked(DoCompleteMark(s, pid))
  {
    var id := s.completions[pid].id;
    assert TicketLinked(s.t, id, s.tickets[id]);
    MarkKeepsTables(s.t, id, s.now);
    MarkKeepsRequests(s, pid);
    Reassemble(s, DoCompleteMark(s, pid));
  }

  lemma CommitKeepsRequests(s: Sys, pid: Pid)
    requires UploadsLinked(s) && CompletionsLinked(s) && CanCompleteCommit(s, pid)
    ensures UploadsLinked(DoCompleteCommit(s, pid)) && CompletionsLinked(DoCompleteCommit(s, pid))
  {
  }

  lemma CommitStepKeepsTables(s: Sys, pid: Pid)
    requires TablesLinked(s.t) && CanCompleteCommit(s, pid)
    ensures TablesLinked(DoCompleteCommit(s, pid).t) && SameIdentities(s.t, DoCompleteCommit(s, pid).t)
  {
    var c := s.completions[pid];
    if CommitCall(s, pid).Some? {
      CommitKeepsTables(s.t, c.id, c.found, PathOf(c.owner), c.size, s.tickets[c.id].reservation, OwnerHash(c.owner),
          s.now);
    }
  }

  lemma CompleteCommitKeepsLinked(s: Sys, pid: Pid)
    requires Linked(s) && CanCompleteCommit(s, pid)
    ensures Linked(DoCompleteCommit(s, pid))
  {
    CommitStepKeepsTables(s, pid);
    CommitKeepsRequests(s, pid);
    Reassemble(s, DoCompleteCommit(s, pid));
  }

  lemma CompletionChangeKeepsLinked(s: Sys, s': Sys, pid: Pid)
    requires Linked(s) && s' == s.(files := s'.files, completions := s'.completions)
    requires forall p :: p in s'.completions && p != pid ==> p in s.completions && s'.completions[p] == s.completions[p]
    requires pid in s'.completions ==>
        s'.completions[pid].id in s.tickets && s'.completions[pid].owner == s.tickets[s'.completions[pid].id].owner
    ensures Linked(s')
  {
    Reassemble(s, s');
  }

  lemma CompleteKeepsLinked(s: Sys, step: CompleteStep, s': Sys)
    requires Linked(s) && CompleteNext(s, step, s')
    ensures Linked(s')
  {
    match step
    case CompleteBegin(pid, id) => CompletionChangeKeepsLinked(s, s', pid);
    case CompleteMark(pid) => CompleteMarkKeepsLinked(s, pid);
    case CompleteProbe(pid) => CompletionChangeKeepsLinked(s, s', pid);
    case CompleteMove(pid, _) => CompletionChangeKeepsLinked(s, s', pid);
    case CompleteCommit(pid) => CompleteCommitKeepsLinked(s, pid);
  }

  lemma GuardChangesQuotaOnly(lim: Limits, s: Sys, step: GuardStep, s': Sys)
    requires GuardNext(lim, s, step, s')
    ensures s' == s.(t := s.t.(owners := s'.t.owners, global := s'.t.global), holds := s'.holds, guarded := s'.guarded)
  {
  }

  lemma GuardKeepsHolds(lim: Limits, s: Sys, step: GuardStep, s': Sys)
    requires HoldsLinked(s) && GuardNext(lim, s, step, s')
    ensures HoldsLinked(s')
  {
  }

  lemma InitiateReserveKeepsLinked(s: Sys, s': Sys, pid: Pid, owner: Owner, bytes: int)
    requires Linked(s) && pid !in s.initiations && bytes > 0
    requires s' == s.(t := Reserve(s.t, PathOf(owner), bytes, true),
        initiations := s.initiations[pid := Reserved(owner, bytes)])
    ensures Linked(s')
  {
    QuotaStepKeepsLinked(s, s');
  }

  lemma ReturnKeepsUploads(s: Sys, id: AttId)
    requires UploadsLinked(s) && CanReconcileStaged(s, id)
    ensures UploadsLinked(DoReconcileStaged(s, id)) && UploadsLinked(DoReconcileLost(s, id))
  {
  }

  lemma ExpireKeepsUploads(s: Sys, res: ResId)
    requires UploadsLinked(s) && CanReconcileExpire(s, res)
    ensures UploadsLinked(DoReconcileExpire(s, res))
  {
  }

  lemma ReconcileKeepsLinked(s: Sys, step: ReconcileStep, s': Sys)
    requires Linked(s) && ReconcileNext(s, step, s')
    ensures Linked(s')
  {
    match step
    case ReconcileStaged(id) =>
      ReturnKeepsTables(s.t, id, s.now);
      ReturnKeepsUploads(s, id);
      Reassemble(s, s');
    case ReconcileLost(id) =>
      FailLostKeepsTables(s.t, id, s.now);
      ReturnKeepsUploads(s, id);
      Reassemble(s, s');
    case ReconcileExpire(res) =>
      ExpireKeepsTables(s.t, res, s.now);
      ExpireKeepsUploads(s, res);
      Reassemble(s, s');
  }

  /** The links hold after every step from a linked state. */
  lemma StepKeepsLinked(lim: Limits, s: Sys, step: Step, s': Sys)
    requires lim.maxImage > 0 && Linked(s) && Next(lim, s, step, s')
    ensures Linked(s')
  {
    match step
    case Tick(_) =>
    case OnInitiate(InitiateReserve(pid, owner, declared)) =>
      InitiateReserveKeepsLinked(s, s', pid, owner, ReserveBytes(lim, declared));
    case OnInitiate(InitiateRecord(pid, id, res, nonce)) => InitiateRecordKeepsLinked(s, pid, id, res, nonce);
    case OnInitiate(InitiateBind(pid)) => InitiateBindKeepsLinked(lim, s, pid);
    case OnUpload(UploadClaim(pid, id, size)) => UploadClaimKeepsLinked(s, pid, id, size);
    case OnUpload(UploadRename(pid, renamed)) => UploadRenameKeepsLinked(s, pid, renamed);
    case OnUpload(UploadRecord(pid)) => UploadRecordKeepsLinked(s, pid);
    case OnUpload(UploadUndo(_)) =>
    case OnComplete(step) => CompleteKeepsLinked(s, step, s');
    case OnGuard(step) =>
      GuardChangesQuotaOnly(lim, s, step, s');
      GuardKeepsHolds(lim, s, step, s');
      QuotaStepKeepsLinked(s, s');
    case OnReconcile(step) => ReconcileKeepsLinked(s, step, s');
  }
}
