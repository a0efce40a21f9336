/** What holds of the upload protocol over every run: any number of requests, interleaved at every
    statement, with lease takeovers, reconciler passes, disk-guarded writes and crashes. */
module AttachmentTheorems {
  import opened Sums
  import opened AttachmentTables
  import opened AttachmentProtocol
  import opened AttachmentLinks
  import opened AttachmentLedger
  import opened AttachmentLifecycle

  lemma InitialHolds(s: Sys)
    requires Initial(s)
    ensures Linked(s) && Ledger(s)
  {
  }

  lemma {:induction false} Reachable(lim: Limits, run: Run, i: nat)
    requires ValidRun(lim, run) && i < |run.states|
    ensures Linked(run.states[i]) && Ledger(run.states[i])
  {
    if i == 0 {
      InitialHolds(run.states[0]);
    } else {
      Reachable(lim, run, i - 1);
      assert Next(lim, run.states[i - 1], run.steps[i - 1], run.states[i]);
      StepKeepsLinked(lim, run.states[i - 1], run.steps[i - 1], run.states[i]);
      StepKeepsLedger(lim, run.states[i - 1], run.steps[i - 1], run.states[i]);
    }
  }

  lemma RunStepAdvances(lim: Limits, run: Run, i: nat)
    requires ValidRun(lim, run) && i < |run.steps|
    ensures Advances(run.states[i].t, run.states[i + 1].t)
  {
    Reachable(lim, run, i);
    assert Next(lim, run.states[i], run.steps[i], run.states[i + 1]);
    StepAdvances(lim, run.states[i], run.steps[i], run.states[i + 1]);
  }

  lemma {:induction false} RunAdvances(lim: Limits, run: Run, i: nat, j: nat)
    requires ValidRun(lim, run) && i <= j < |run.states|
    ensures Advances(run.states[i].t, run.states[j].t)
    decreases j
  {
    if i < j {
      RunAdvances(lim, run, i, j - 1);
      RunStepAdvances(lim, run, j - 1);
      AdvancesTransitive(run.states[i].t, run.states[j - 1].t, run.states[j].t);
    } else {
      QuotaAdvances(run.states[i].t, run.states[j].t);
    }
  }

  lemma AdvancesTransitive(t: Tables, u: Tables, v: Tables)
    requires Advances(t, u) && Advances(u, v)
    ensures Advances(t, v)
  {
    forall id | id in t.attachments ensures id in v.attachments && RowAdvances(t.attachments[id], v.attachments[id]) {
      assert RowAdvances(u.attachments[id], v.attachments[id]);
    }
    forall res | res in t.reservations
      ensures res in v.reservations && ReservationAdvances(t.reservations[res], v.reservations[res])
    {
      assert ReservationAdvances(u.reservations[res], v.reservations[res]);
    }
  }

  // ---------------------------------------------------------------- exactly-once settlement

  /** In every reachable state an attachment is committed exactly when its reservation is settled,
      and a final path is recorded on committed rows only. */
  lemma CommittedIffSettled(lim: Limits, run: Run, i: nat, id: AttId)
    requires ValidRun(lim, run) && i < |run.states| && id in run.states[i].t.attachments
    ensures var t := run.states[i].t;
            var res := t.attachments[id].reservation;
            && (t.attachments[id].state == Committed <==> res in t.reservations && t.reservations[res].state == Settled)
            && (t.attachments[id].finalPath.Some? ==> t.attachments[id].state == Committed)
  {
    Reachable(lim, run, i);
    assert RowLinked(run.states[i].t, id);
  }

  /** A reservation leaves `active` at most once in a run. */
  lemma LeavesOnce(lim: Limits, run: Run, res: ResId, i: nat, j: nat)
    requires ValidRun(lim, run) && i < |run.steps| && j < |run.steps|
    requires Leaves(run.states[i].t, run.states[i + 1].t, res)
    requires Leaves(run.states[j].t, run.states[j + 1].t, res)
    ensures i == j
  {
    if i < j {
      RunAdvances(lim, run, i + 1, j);
    } else if j < i {
      RunAdvances(lim, run, j + 1, i);
    }
  }

  /** The one step that takes it out refunds its bytes at most once and charges the file at most once. */
  lemma EndAccountedInRuns(lim: Limits, run: Run, res: ResId, i: nat)
    requires ValidRun(lim, run) && i < |run.steps| && Leaves(run.states[i].t, run.states[i + 1].t, res)
    ensures EndAccounted(run.states[i].t, run.states[i + 1].t, res)
  {
    Reachable(lim, run, i);
    EndIsAccounted(lim, run.states[i], run.steps[i], run.states[i + 1], res);
  }

  /** Nothing is ever committed on a reservation that lapsed or was released, before or after. */
  lemma LapsedNeverCommitted(lim: Limits, run: Run, id: AttId, i: nat, j: nat)
    requires ValidRun(lim, run) && i < |run.states| && j < |run.states| && id in run.states[i].t.attachments
    requires run.states[i].t.attachments[id].reservation in run.states[i].t.reservations
    requires run.states[i].t.reservations[run.states[i].t.attachments[id].reservation].state in {Lapsed, Released}
    ensures id in run.states[j].t.attachments ==> run.states[j].t.attachments[id].state != Committed
  {
    Reachable(lim, run, i);
    Reachable(lim, run, j);
    if id in run.states[j].t.attachments {
      assert RowLinked(run.states[i].t, id) && RowLinked(run.states[j].t, id);
      if i <= j {
        RunAdvances(lim, run, i, j);
      } else {
        RunAdvances(lim, run, j, i);
      }
    }
  }

  // ---------------------------------------------------------------- lifecycle

  /** Ranks never fall, and a committed, failed or expired row never changes again. */
  lemma LifecycleMonotone(lim: Limits, run: Run, id: AttId, i: nat, j: nat)
    requires ValidRun(lim, run) && i <= j < |run.states| && id in run.states[i].t.attachments
    ensures id in run.states[j].t.attachments
    ensures Rank(run.states[i].t.attachments[id].state) <= Rank(run.states[j].t.attachments[id].state)
    ensures Rank(run.states[i].t.attachments[id].state) == 2 ==>
              run.states[j].t.attachments[id] == run.states[i].t.attachments[id]
  {
    RunAdvances(lim, run, i, j);
  }

  /** Step `i` of a run stages attachment `id`. */
  ghost predicate Stages(run: Run, i: nat, id: AttId)
    requires i < |run.steps| && i + 1 < |run.states|
  {
    && run.steps[i].OnUpload? && run.steps[i].upload.UploadRecord?
    && run.steps[i].upload.pid in run.states[i].uploads && run.states[i].uploads[run.steps[i].upload.pid].id == id
  }

  /** Bytes are staged at most once for an attachment, and the statement that stages them never fails. */
  lemma StagedOnce(lim: Limits, run: Run, id: AttId, i: nat, j: nat)
    requires ValidRun(lim, run) && i < |run.steps| && j < |run.steps| && Stages(run, i, id) && Stages(run, j, id)
    ensures i == j
    ensures id in run.states[i].t.attachments && run.states[i].t.attachments[id].state == Uploading
    ensures id in run.states[i + 1].t.attachments && run.states[i + 1].t.attachments[id].state == Staged
  {
    StagingRaisesRank(lim, run, id, i);
    StagingRaisesRank(lim, run, id, j);
    if i < j {
      RunAdvances(lim, run, i + 1, j);
    } else if j < i {
      RunAdvances(lim, run, j + 1, i);
    }
  }

  lemma StagingRaisesRank(lim: Limits, run: Run, id: AttId, i: nat)
    requires ValidRun(lim, run) && i < |run.steps| && Stages(run, i, id)
    ensures id in run.states[i].t.attachments && run.states[i].t.attachments[id].state == Uploading
    ensures id in run.states[i + 1].t.attachments && run.states[i + 1].t.attachments[id].state == Staged
  {
    Reachable(lim, run, i);
    assert Next(lim, run.states[i], run.steps[i], run.states[i + 1]);
    assert UploadNext(run.states[i], run.steps[i].upload, run.states[i + 1]);
    assert run.states[i + 1] == DoUploadRecord(run.states[i], run.steps[i].upload.pid);
  }

  /** At most one upload holds a claim on an attachment, and while one does the row says so. */
  lemma ClaimIsExclusive(lim: Limits, run: Run, i: nat, p: Pid, q: Pid)
    requires ValidRun(lim, run) && i < |run.states| && p in run.states[i].uploads && q in run.states[i].uploads
    ensures run.states[i].uploads[p].id == run.states[i].uploads[q].id ==> p == q
    ensures var id := run.states[i].uploads[p].id;
            id in run.states[i].t.attachments && run.states[i].t.attachments[id].state == Uploading
  {
    Reachable(lim, run, i);
  }

  /** A finaliser that comes after the commit is refused by an exception: the idempotent branch of the
      commit transaction is never reached, because the settled reservation fails the first check. */
  lemma LateFinaliserRefused(lim: Limits, run: Run, i: nat, pid: Pid)
    requires ValidRun(lim, run) && i < |run.states| && CanCompleteCommit(run.states[i], pid)
    requires run.states[i].completions[pid].id in run.states[i].t.attachments
    requires run.states[i].t.attachments[run.states[i].completions[pid].id].state == Committed
    ensures CommitCall(run.states[i], pid).None?
  {
    var s := run.states[i];
    Reachable(lim, run, i);
    assert RowLinked(s.t, s.completions[pid].id);
    assert TicketLinked(s.t, s.completions[pid].id, s.tickets[s.completions[pid].id]);
  }

  /** The reconciler's recovery branch is dead: whatever files exist, a finalizing row records no final
      path, so a finalization whose file was already moved is failed instead of committed. */
  lemma RecoveryNeverCommits(lim: Limits, run: Run, i: nat, id: AttId, files: map<FilePath, nat>)
    requires ValidRun(lim, run) && i < |run.states| && id in run.states[i].t.attachments
    requires run.states[i].t.attachments[id].state == Finalizing
    ensures var s := run.states[i];
            RecoverRow(s.t, id, files, s.now)
            == if OnDisk(s.t.attachments[id].stagedPath, files) then ReturnToStaged(s.t, id, s.now)
                else FailLost(s.t, id, s.now)
  {
    Reachable(lim, run, i);
    assert RowLinked(run.states[i].t, id);
  }

  // ---------------------------------------------------------------- the ledger

  /** In every reachable state the counters are exactly what the rows and requests stand for. */
  lemma CountersConserved(lim: Limits, run: Run, i: nat, path: OwnerPath)
    requires ValidRun(lim, run) && i < |run.states|
    ensures var s := run.states[i];
            && GlobalUsed(s.t) == Total(s.t.owners, UsedColumn())
            && GlobalReserved(s.t) == Total(s.t.owners, ReservedColumn())
            && UsedOf(s.t, path) == CommittedTotal(s, path) + Guarded(s, path)
            && ReservedOf(s.t, path) == ReservationTotal(s, path) + InitiationTotal(s, path) + HoldTotal(s, path)
  {
    Reachable(lim, run, i);
    assert ReservedOf(run.states[i].t, path) == Outstanding(run.states[i], path);
  }

  /** Every release the protocol makes is covered on both levels, so the clamps at zero never act. */
  lemma ClampsNeverAct(lim: Limits, run: Run, i: nat)
    requires ValidRun(lim, run) && i < |run.states|
    ensures var s := run.states[i];
            && (forall res :: res in s.t.reservations && s.t.reservations[res].state == Active ==>
                  s.t.reservations[res].bytes <= ReservedOf(s.t, s.t.reservations[res].path) <= GlobalReserved(s.t))
            && (forall pid :: pid in s.holds ==>
                  s.holds[pid].bytes <= ReservedOf(s.t, s.holds[pid].path) <= GlobalReserved(s.t))
  {
    var s := run.states[i];
    Reachable(lim, run, i);
    forall res | res in s.t.reservations && s.t.reservations[res].state == Active
      ensures s.t.reservations[res].bytes <= ReservedOf(s.t, s.t.reservations[res].path) <= GlobalReserved(s.t)
    {
      ReservationCovered(s, res);
      OwnerWithinGlobal(s.t, s.t.reservations[res].path);
    }
    forall pid | pid in s.holds
      ensures s.holds[pid].bytes <= ReservedOf(s.t, s.holds[pid].path) <= GlobalReserved(s.t)
    {
      HoldCovered(s, pid);
      OwnerWithinGlobal(s.t, s.holds[pid].path);
    }
  }
}
