/** Which statement moves an attachment row, when, and to what: the lease, the claim, the staging, the commit and the
    expiry, each in the terms of its own rows. */
module AttachmentMoves {
  import opened Sums
  import opened AttachmentTables
  import opened AttachmentProtocol
  import opened AttachmentLinks
  import opened AttachmentLedger
  import opened AttachmentLifecycle
  import opened AttachmentTheorems

  /** One attachment row is rewritten and nothing else in the tables changes. */
  ghost predicate OnlyRow(t: Tables, t': Tables, id: AttId, row: Attachment) {
    t' == t.(attachments := t.attachments[id := row])
  }

  /** Time passes by itself, and touches nothing. */
  lemma TimePasses(lim: Limits, s: Sys, seconds: nat, s': Sys)
    requires Next(lim, s, Tick(seconds), s')
    ensures s' == s.(now := s.now + seconds)
  {
  }

  /** Any bytes that an owner has used can be given back, down to the last. */
  lemma UsedBytesCanBeGivenBack(lim: Limits, s: Sys, path: OwnerPath, bytes: int)
    requires path in s.t.owners && 0 <= bytes <= s.t.owners[path].used
    ensures exists s' :: GuardNext(lim, s, GiveBack(path, bytes), s') && UsedOf(s'.t, path) == UsedOf(s.t, path) - bytes
  {
    var s' := DoGiveBack(s, path, bytes);
    assert GuardNext(lim, s, GiveBack(path, bytes), s') && UsedOf(s'.t, path) == UsedOf(s.t, path) - bytes;
  }

  // ---------------------------------------------------------------- the finalising lease

  /** A row that nobody is finalising, or whose finaliser has been silent for more than thirty seconds. */
  predicate Free(row: Attachment, now: int) {
    match row.state
    case Issued => true
    case Staged => true
    case Finalizing => row.updatedAt + 30 < now
    case _ => false
  }

  /** A finaliser takes its row exactly when the row is free, and then stamps it; otherwise its request ends. */
  lemma MarkTakesFreeRows(s: Sys, pid: Pid, s': Sys)
    requires Linked(s) && CompleteNext(s, CompleteMark(pid), s')
    ensures var c := s.completions[pid];
            && c.id in s.t.attachments
            && if Free(s.t.attachments[c.id], s.now) then
                 && OnlyRow(s.t, s'.t, c.id, s.t.attachments[c.id].(state := Finalizing, updatedAt := s.now))
                 && s'.completions == s.completions[pid := Marked(c.id, c.owner)]
               else
                 s'.t == s.t && s'.completions == s.completions - {pid}
  {
    var c := s.completions[pid];
    assert TicketLinked(s.t, c.id, s.tickets[c.id]);
  }

  /** Since a moment, the row has been finalising under a stamp of that moment or later, or it has ended. */
  ghost predicate TakenSince(s: Sys, id: AttId, time: int) {
    && id in s.t.attachments && time <= s.now
    && (Rank(s.t.attachments[id].state) == 2
        || (s.t.attachments[id].state == Finalizing && time <= s.t.attachments[id].updatedAt))
  }

  /** A step that leaves the row alone while the clock does not turn back. */
  lemma StillTaken(s: Sys, s': Sys, id: AttId, time: int)
    requires TakenSince(s, id, time) && s.now <= s'.now
    requires id in s'.t.attachments && s'.t.attachments[id] == s.t.attachments[id]
    ensures TakenSince(s', id, time)
  {
  }

  lemma InitiateLeavesTaken(lim: Limits, s: Sys, step: InitiateStep, s': Sys, id: AttId, time: int)
    requires InitiateNext(lim, s, step, s') && TakenSince(s, id, time)
    ensures TakenSince(s', id, time)
  {
    StillTaken(s, s', id, time);
  }

  predicate Late(row: Attachment) {
    row.state != Issued && row.state != Uploading
  }

  lemma GivingBackLeavesLateRows(t: Tables, other: AttId, now: int, id: AttId)
    requires id in t.attachments && Late(t.attachments[id])
    ensures id in ReleaseUploadClaim(t, other, now).attachments
    ensures ReleaseUploadClaim(t, other, now).attachments[id] == t.attachments[id]
  {
  }

  lemma StagingLeavesLateRows(t: Tables, other: AttId, file: FilePath, bytes: int, now: int, id: AttId)
    requires id in t.attachments && Late(t.attachments[id])
    ensures id in RecordStaged(t, other, file, bytes, now).attachments
    ensures RecordStaged(t, other, file, bytes, now).attachments[id] == t.attachments[id]
  {
  }

  /** The upload's statements rewrite only rows that are issued or uploading. */
  lemma UploadLeavesLateRows(s: Sys, step: UploadStep, s': Sys, id: AttId)
    requires UploadNext(s, step, s') && id in s.t.attachments && Late(s.t.attachments[id])
    ensures id in s'.t.attachments && s'.t.attachments[id] == s.t.attachments[id] && s'.now == s.now
  {
    match step
    case UploadClaim(pid, other, size) => ClaimTakesIssuedRows(s, pid, other, size, s');
    case UploadRename(pid, _) => GivingBackLeavesLateRows(s.t, s.uploads[pid].id, s.now, id);
    case UploadRecord(pid) =>
      var u := s.uploads[pid];
      StagingLeavesLateRows(s.t, u.id, StagedFile(PathOf(u.owner), u.id), u.size, s.now, id);
    case UploadUndo(pid) => GivingBackLeavesLateRows(s.t, s.uploads[pid].id, s.now, id);
  }

  lemma UploadLeavesTaken(s: Sys, step: UploadStep, s': Sys, id: AttId, time: int)
    requires UploadNext(s, step, s') && TakenSince(s, id, time)
    ensures TakenSince(s', id, time)
  {
    UploadLeavesLateRows(s, step, s', id);
    StillTaken(s, s', id, time);
  }

  lemma MarkLeavesTaken(s: Sys, pid: Pid, s': Sys, id: AttId, time: int)
    requires Linked(s) && CompleteNext(s, CompleteMark(pid), s') && TakenSince(s, id, time)
    ensures TakenSince(s', id, time)
  {
    MarkTakesFreeRows(s, pid, s');
  }

  lemma CommitLeavesTaken(s: Sys, pid: Pid, s': Sys, id: AttId, time: int)
    requires Linked(s) && CompleteNext(s, CompleteCommit(pid), s') && TakenSince(s, id, time)
    ensures TakenSince(s', id, time)
  {
    CommitsExactlyWhen(s, pid, s');
  }

  lemma CompleteLeavesTaken(s: Sys, step: CompleteStep, s': Sys, id: AttId, time: int)
    requires Linked(s) && CompleteNext(s, step, s') && TakenSince(s, id, time)
    ensures TakenSince(s', id, time)
  {
    match step {
      case CompleteMark(pid) => MarkLeavesTaken(s, pid, s', id, time);
      case CompleteCommit(pid) => CommitLeavesTaken(s, pid, s', id, time);
      case _ => StillTaken(s, s', id, time);
    }
  }

  lemma ReconcileLeavesTaken(s: Sys, step: ReconcileStep, s': Sys, id: AttId, time: int)
    requires Linked(s) && ReconcileNext(s, step, s') && TakenSince(s, id, time) && step != ReconcileStaged(id)
    ensures TakenSince(s', id, time)
  {
  }

  lemma StepLeavesTaken(lim: Limits, s: Sys, step: Step, s': Sys, id: AttId, time: int)
    requires Linked(s) && Next(lim, s, step, s') && TakenSince(s, id, time)
    requires step != OnReconcile(ReconcileStaged(id))
    ensures TakenSince(s', id, time)
  {
    match step
    case Tick(_) => StillTaken(s, s', id, time);
    case OnInitiate(step) => InitiateLeavesTaken(lim, s, step, s', id, time);
    case OnUpload(step) => UploadLeavesTaken(s, step, s', id, time);
    case OnComplete(step) => CompleteLeavesTaken(s, step, s', id, time);
    case OnGuard(step) =>
      GuardChangesQuotaOnly(lim, s, step, s');
      StillTaken(s, s', id, time);
    case OnReconcile(step) => ReconcileLeavesTaken(s, step, s', id, time);
  }

  /** Step `i` of a run wins the finalising lease of an attachment. */
  ghost predicate WinsLease(run: Run, i: nat, id: AttId)
    requires i < |run.steps| && i + 1 < |run.states|
  {
    && run.steps[i].OnComplete? && run.steps[i].complete.CompleteMark?
    && run.steps[i].complete.pid in run.states[i + 1].completions
    && run.states[i + 1].completions[run.steps[i].complete.pid].Marked?
    && run.states[i + 1].completions[run.steps[i].complete.pid].id == id
  }

  lemma WonLeaseIsFree(lim: Limits, run: Run, i: nat, id: AttId)
    requires ValidRun(lim, run) && i < |run.steps| && WinsLease(run, i, id)
    ensures id in run.states[i].t.attachments && Free(run.states[i].t.attachments[id], run.states[i].now)
    ensures TakenSince(run.states[i + 1], id, run.states[i].now)
  {
    Reachable(lim, run, i);
    assert Next(lim, run.states[i], run.steps[i], run.states[i + 1]);
    MarkTakesFreeRows(run.states[i], run.steps[i].complete.pid, run.states[i + 1]);
  }

  ghost predicate NotReturned(run: Run, id: AttId, from: nat, to: nat) {
    forall k {:trigger run.steps[k]} :: from <= k < to && k < |run.steps| ==>
      run.steps[k] != OnReconcile(ReconcileStaged(id))
  }

  lemma {:induction false} StaysTaken(lim: Limits, run: Run, id: AttId, i: nat, j: nat, time: int)
    requires ValidRun(lim, run) && i <= j < |run.states| && TakenSince(run.states[i], id, time)
    requires NotReturned(run, id, i, j)
    ensures TakenSince(run.states[j], id, time)
    decreases j
  {
    if i < j {
      StaysTaken(lim, run, id, i, j - 1, time);
      Reachable(lim, run, j - 1);
      assert Next(lim, run.states[j - 1], run.steps[j - 1], run.states[j]);
      StepLeavesTaken(lim, run.states[j - 1], run.steps[j - 1], run.states[j], id, time);
    }
  }

  /** Two finalisers win the lease of one attachment more than thirty seconds apart, unless the reconciler put the row
      back to staged in between. */
  lemma LeasesAreApart(lim: Limits, run: Run, id: AttId, i: nat, j: nat)
    requires ValidRun(lim, run) && i < j < |run.steps| && WinsLease(run, i, id) && WinsLease(run, j, id)
    requires NotReturned(run, id, i + 1, j)
    ensures run.states[j].now > run.states[i].now + 30
  {
    WonLeaseIsFree(lim, run, i, id);
    WonLeaseIsFree(lim, run, j, id);
    StaysTaken(lim, run, id, i + 1, j, run.states[i].now);
  }

  // ---------------------------------------------------------------- the ticket

  /** A ticket holds the declared bytes, or the image limit when nothing is declared, and none is issued for more. */
  lemma TicketsHoldTheirBytes(lim: Limits, s: Sys, pid: Pid, owner: Owner, declared: int, s': Sys)
    requires lim.maxImage > 0 && InitiateNext(lim, s, InitiateReserve(pid, owner, declared), s')
    ensures var bytes := if declared > 0 then declared else lim.maxImage;
            && bytes <= lim.maxImage && s'.initiations == s.initiations[pid := Reserved(owner, bytes)]
            && ReservedOf(s'.t, PathOf(owner)) == ReservedOf(s.t, PathOf(owner)) + bytes
            && GlobalReserved(s'.t) == GlobalReserved(s.t) + bytes
            && s'.t == s.t.(owners := s'.t.owners, global := s'.t.global)
  {
  }

  /** The attachment row of a new ticket: its owner's, issued, with the bytes held, for five minutes. */
  lemma TicketsLastFiveMinutes(lim: Limits, s: Sys, pid: Pid, id: AttId, res: ResId, nonce: Nonce, s': Sys)
    requires InitiateNext(lim, s, InitiateRecord(pid, id, res, nonce), s')
    ensures var i := s.initiations[pid];
            && id !in s.t.attachments && res !in s.t.reservations
            && OnlyRow(s.t, s'.t, id,
                       Attachment(i.owner.Customer?, OwnerHash(i.owner), Issued, i.bytes, res, NonceHash(nonce),
                                  s.now + 300, s.now, None, None))
            && s'.initiations == s.initiations[pid := Recorded(i.owner, i.bytes, id, res, nonce, s.now + 300)]
  {
  }

  /** The reservation row and the ticket handed out carry the same bytes, owner, nonce and deadline. */
  lemma TicketsAreBound(lim: Limits, s: Sys, pid: Pid, s': Sys)
    requires InitiateNext(lim, s, InitiateBind(pid), s')
    ensures var i := s.initiations[pid];
            var reservation := Reservation(i.id, PathOf(i.owner), i.bytes, Active, i.expiresAt);
            && s'.t == s.t.(reservations := s.t.reservations[i.reservation := reservation])
            && s'.tickets == s.tickets[i.id := Ticket(i.owner, i.reservation, i.nonce, lim.maxImage, i.expiresAt)]
            && s'.initiations == s.initiations - {pid}
  {
  }

  // ---------------------------------------------------------------- the upload

  /** A claim is won only by the ticket's owner and nonce, on an issued row, until it expires; the row alone changes. */
  lemma ClaimTakesIssuedRows(s: Sys, pid: Pid, id: AttId, size: nat, s': Sys)
    requires UploadNext(s, UploadClaim(pid, id, size), s')
    ensures var row, ticket := s.t.attachments[id], s.tickets[id];
            && row.key == OwnerHash(ticket.owner) && row.nonce == NonceHash(ticket.nonce)
            && row.state == Issued && s.now <= row.expiresAt && 0 < size <= ticket.maxBytes
            && OnlyRow(s.t, s'.t, id, row.(state := Uploading, updatedAt := s.now))
            && s'.uploads == s.uploads[pid := Claimed(id, ticket.owner, size)] && s'.files == s.files
  {
  }

  /** An issued row that has not expired is there for its ticket's next upload. */
  lemma IssuedRowsCanBeClaimed(s: Sys, pid: Pid, id: AttId, size: nat)
    requires pid !in s.uploads && id in s.tickets && id in s.t.attachments && 0 < size <= s.tickets[id].maxBytes
    requires var row, ticket := s.t.attachments[id], s.tickets[id];
             && row.key == OwnerHash(ticket.owner) && row.nonce == NonceHash(ticket.nonce)
             && row.state == Issued && s.now <= row.expiresAt
    ensures exists s' :: UploadNext(s, UploadClaim(pid, id, size), s')
  {
    assert UploadNext(s, UploadClaim(pid, id, size), DoUploadClaim(s, pid, id, size));
  }

  /** The statement that stages an upload records its owner's staging path and the file's size on an uploading row, and
      that file is there. */
  lemma StagingRecordsTheFile(s: Sys, pid: Pid, s': Sys)
    requires Linked(s) && UploadNext(s, UploadRecord(pid), s')
    ensures var u := s.uploads[pid];
            var staged := StagedFile(PathOf(u.owner), u.id);
            && u.id in s.t.attachments && s'.files == s.files
            && OnlyRow(s.t, s'.t, u.id,
                       s.t.attachments[u.id].(state := Staged, stagedPath := Some(staged), bytes := u.size,
                                              updatedAt := s.now))
  {
  }

  /** A rename that fails gives the claim back; one that succeeds leaves the tables alone and the file in place. */
  lemma RenameMovesTheFile(s: Sys, pid: Pid, renamed: bool, s': Sys)
    requires Linked(s) && UploadNext(s, UploadRename(pid, renamed), s')
    ensures var u := s.uploads[pid];
            if renamed then
              s'.t == s.t && s'.files == s.files[StagedFile(PathOf(u.owner), u.id) := u.size]
            else
              && u.id in s.t.attachments && s'.files == s.files && pid !in s'.uploads
              && OnlyRow(s.t, s'.t, u.id, s.t.attachments[u.id].(state := Issued, updatedAt := s.now))
  {
  }

  /** A conflict gives back a row that is still uploading, and touches no other. */
  lemma UndoGivesBack(s: Sys, pid: Pid, s': Sys)
    requires UploadNext(s, UploadUndo(pid), s')
    ensures var id := s.uploads[pid].id;
            && s'.now == s.now
            && if id in s.t.attachments && s.t.attachments[id].state == Uploading
               then OnlyRow(s.t, s'.t, id, s.t.attachments[id].(state := Issued, updatedAt := s.now))
               else s'.t == s.t
  {
  }

  // ---------------------------------------------------------------- the finalisation

  /** A finalisation starts only on a ticket that has not expired. */
  lemma FinalisersNeedALiveTicket(s: Sys, pid: Pid, id: AttId, s': Sys)
    requires CompleteNext(s, CompleteBegin(pid, id), s')
    ensures id in s.tickets && s.now <= s.tickets[id].expiresAt
    ensures s' == s.(completions := s.completions[pid := Verified(id, s.tickets[id].owner)])
  {
  }

  /** And up to that deadline one can start. */
  lemma LiveTicketsCanBeFinalised(s: Sys, pid: Pid, id: AttId)
    requires pid !in s.completions && id in s.tickets && s.now <= s.tickets[id].expiresAt
    ensures exists s' :: CompleteNext(s, CompleteBegin(pid, id), s')
  {
    assert CompleteNext(s, CompleteBegin(pid, id), DoCompleteBegin(s, pid, id));
  }

  /** A finaliser prefers the file that was already moved, then moves the staged one, and ends when there is neither; it
      knows the size of the file it found. */
  lemma FinalisersFindTheFile(s: Sys, pid: Pid, s': Sys)
    requires CompleteNext(s, CompleteProbe(pid), s')
    ensures var c := s.completions[pid];
            var final, staged := FinalFile(PathOf(c.owner), c.id), StagedFile(PathOf(c.owner), c.id);
            && s' == s.(completions := s'.completions) && s'.completions - {pid} == s.completions - {pid}
            && (pid in s'.completions <==> final in s.files || staged in s.files)
            && (final in s.files ==> s'.completions[pid] == Located(c.id, c.owner, final, s.files[final]))
            && (final !in s.files && staged in s.files ==>
                  s'.completions[pid] == Probed(c.id, c.owner, s.files[staged]))
  {
  }

  /** The move takes the staged file to its final path, and a failed one leaves the file staged and commits it there. */
  lemma MovesKeepTheFile(s: Sys, pid: Pid, moved: bool, s': Sys)
    requires CompleteNext(s, CompleteMove(pid, moved), s')
    ensures var c := s.completions[pid];
            var final, staged := FinalFile(PathOf(c.owner), c.id), StagedFile(PathOf(c.owner), c.id);
            && s'.t == s.t
            && s'.completions == s.completions[pid := Located(c.id, c.owner, if moved then final else staged, c.size)]
            && (moved ==> staged in s.files && staged !in s'.files && final in s'.files
                          && s'.files[final] == s.files[staged] && s'.files - {final} == s.files - {final, staged})
            && (!moved ==> s'.files == s.files)
  {
  }

  // ---------------------------------------------------------------- the commit

  /** The commit of a finaliser takes place exactly while its row is finalising and its reservation is active and has
      not run out; it writes the file's path and size, and without it no table changes. */
  lemma CommitsExactlyWhen(s: Sys, pid: Pid, s': Sys)
    requires Linked(s) && CompleteNext(s, CompleteCommit(pid), s')
    ensures var c := s.completions[pid];
            && c.id in s.t.attachments && s.t.attachments[c.id].reservation in s.t.reservations
            && var row, res := s.t.attachments[c.id], s.t.reservations[s.t.attachments[c.id].reservation];
               if row.state == Finalizing && res.state == Active && s.now <= res.expiresAt then
                 && s'.t.attachments == s.t.attachments[c.id := row.(state := Committed, finalPath := Some(c.found),
                                                                     bytes := c.size, updatedAt := s.now)]
                 && s'.t.reservations == s.t.reservations[row.reservation := res.(state := Settled)]
               else
                 s'.t == s.t
    ensures s'.completions == s.completions - {pid} && s'.files == s.files
  {
    var c := s.completions[pid];
    assert TicketLinked(s.t, c.id, s.tickets[c.id]) && RowLinked(s.t, c.id);
  }

  /** In any tables, the commit goes through exactly on its own active reservation that has not run out, if it names
      one, and for a row that is finalising under the owner it names, if it names one, or is committed already; then
      it leaves that row alone and settles the reservation only. */
  lemma CommitGoesThrough(t: Tables, id: AttId, file: FilePath, path: OwnerPath, size: int, res: Option<ResId>,
                          key: Option<OwnerKey>, now: int)
    ensures var usable := res.Some? ==>
                            && res.value in t.reservations && t.reservations[res.value].attachment == id
                            && t.reservations[res.value].path == path && t.reservations[res.value].state == Active
                            && now <= t.reservations[res.value].expiresAt;
            var committed := CommitFinal(t, id, file, path, size, res, key, now);
            && (committed.Some? <==> && usable && id in t.attachments
                                     && (t.attachments[id].state == Committed
                                         || (t.attachments[id].state == Finalizing
                                             && (key.Some? ==> t.attachments[id].key == key.value))))
            && (committed.Some? && t.attachments[id].state == Committed ==>
                  committed.value == t.(reservations := committed.value.reservations))
  {
  }

  // ---------------------------------------------------------------- what ends a reservation does to attachments

  /** The row that a reservation's end leaves behind: a commit records the file, an expiry expires what was issued or
      staged, a lost file fails what was finalising. */
  predicate EndedRow(row: Attachment, row': Attachment, end: ReservationState, now: int) {
    match end
    case Settled =>
      && row.state == Finalizing && row'.finalPath.Some?
      && row' == row.(state := Committed, finalPath := row'.finalPath, bytes := row'.bytes, updatedAt := now)
    case Lapsed =>
      row' == if row.state == Issued || row.state == Staged then row.(state := Expired, updatedAt := now) else row
    case Released => row.state == Finalizing && row' == row.(state := Failed, updatedAt := now)
    case Active => false
  }

  ghost predicate EndMoves(t: Tables, t': Tables, res: ResId, now: int)
    requires Leaves(t, t', res)
  {
    var id := t.reservations[res].attachment;
    && id in t.attachments && id in t'.attachments
    && EndedRow(t.attachments[id], t'.attachments[id], t'.reservations[res].state, now)
    && (forall a :: a != id ==> (a in t'.attachments <==> a in t.attachments))
    && (forall a :: a in t.attachments && a != id ==> t'.attachments[a] == t.attachments[a])
    && (forall r :: r in t.reservations && r != res ==> r in t'.reservations && t'.reservations[r] == t.reservations[r])
  }

  lemma CommitEndMoves(s: Sys, pid: Pid, s': Sys, res: ResId)
    requires Linked(s) && CompleteNext(s, CompleteCommit(pid), s') && Leaves(s.t, s'.t, res)
    ensures EndMoves(s.t, s'.t, res, s.now)
  {
    CommitsExactlyWhen(s, pid, s');
    assert RowLinked(s.t, s.completions[pid].id);
  }

  lemma LostEndMoves(s: Sys, id: AttId, s': Sys, res: ResId)
    requires Linked(s) && ReconcileNext(s, ReconcileLost(id), s') && Leaves(s.t, s'.t, res)
    ensures EndMoves(s.t, s'.t, res, s.now)
  {
    assert RowLinked(s.t, id);
  }

  lemma ExpireEndMoves(s: Sys, expiring: ResId, s': Sys, res: ResId)
    requires Linked(s) && ReconcileNext(s, ReconcileExpire(expiring), s') && Leaves(s.t, s'.t, res)
    ensures EndMoves(s.t, s'.t, res, s.now) && s.t.reservations[res].expiresAt + 600 < s.now
  {
  }

  lemma StepEndMoves(lim: Limits, s: Sys, step: Step, s': Sys, res: ResId)
    requires Linked(s) && Next(lim, s, step, s') && Leaves(s.t, s'.t, res)
    ensures EndMoves(s.t, s'.t, res, s.now)
    ensures s'.t.reservations[res].state == Lapsed ==> s.t.reservations[res].expiresAt + 600 < s.now
  {
    if !EndsReservations(step) {
      OtherStepsKeepReservations(lim, s, step, s');
    } else if step.OnComplete? {
      CommitEndMoves(s, step.complete.pid, s', res);
    } else if step.reconcile.ReconcileExpire? {
      ExpireEndMoves(s, step.reconcile.res, s', res);
    } else {
      LostEndMoves(s, step.reconcile.id, s', res);
    }
  }

  /** In every run, the step that takes a reservation out of `active` moves its attachment and no other, as its new
      state says; it lapses only when it ran out more than ten minutes ago. */
  lemma EndMovesItsRow(lim: Limits, run: Run, res: ResId, i: nat)
    requires ValidRun(lim, run) && i < |run.steps| && Leaves(run.states[i].t, run.states[i + 1].t, res)
    ensures EndMoves(run.states[i].t, run.states[i + 1].t, res, run.states[i].now)
    ensures run.states[i + 1].t.reservations[res].state == Lapsed ==>
              run.states[i].t.reservations[res].expiresAt + 600 < run.states[i].now
  {
    Reachable(lim, run, i);
    assert Next(lim, run.states[i], run.steps[i], run.states[i + 1]);
    StepEndMoves(lim, run.states[i], run.steps[i], run.states[i + 1], res);
  }
}
