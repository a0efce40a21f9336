/** The configurations under which storage can pass its limits, exactly. */
module AttachmentLimits {
  import opened Sums
  import opened AttachmentTables
  import opened AttachmentProtocol
  import opened AttachmentLinks
  import opened AttachmentLedger
  import opened AttachmentTheorems
  import opened AttachmentCeiling
  import opened AttachmentOverrun

  // ---------------------------------------------------------------- no file is larger than the image limit

  predicate UploadSized(lim: Limits, u: Upload) {
    u.size <= lim.maxImage
  }

  predicate CompletionSized(lim: Limits, c: Completion) {
    c.Probed? || c.Located? ==> c.size <= lim.maxImage
  }

  ghost predicate Sized(lim: Limits, s: Sys) {
    && (forall id :: id in s.tickets ==> s.tickets[id].maxBytes == lim.maxImage)
    && (forall file :: file in s.files ==> s.files[file] <= lim.maxImage)
    && (forall pid :: pid in s.uploads ==> UploadSized(lim, s.uploads[pid]))
    && (forall pid :: pid in s.completions ==> CompletionSized(lim, s.completions[pid]))
    && (forall id :: id in s.t.attachments && s.t.attachments[id].state == Committed ==>
          s.t.attachments[id].bytes <= lim.maxImage)
  }

  lemma InitiateKeepsSized(lim: Limits, s: Sys, step: InitiateStep, s': Sys)
    requires Sized(lim, s) && InitiateNext(lim, s, step, s')
    ensures Sized(lim, s')
  {
  }

  lemma ClaimKeepsSized(lim: Limits, s: Sys, pid: Pid, id: AttId, size: nat)
    requires Sized(lim, s) && CanUploadClaim(s, pid, id, size)
    ensures Sized(lim, DoUploadClaim(s, pid, id, size))
  {
  }

  lemma RenameKeepsSized(lim: Limits, s: Sys, pid: Pid, renamed: bool)
    requires Sized(lim, s) && CanUploadRename(s, pid, renamed)
    ensures Sized(lim, DoUploadRename(s, pid, renamed))
  {
    assert UploadSized(lim, s.uploads[pid]);
  }

  lemma RecordKeepsSized(lim: Limits, s: Sys, pid: Pid)
    requires Sized(lim, s) && CanUploadRecord(s, pid)
    ensures Sized(lim, DoUploadRecord(s, pid))
  {
    assert UploadSized(lim, s.uploads[pid]);
  }

  lemma UndoKeepsSized(lim: Limits, s: Sys, pid: Pid)
    requires Sized(lim, s) && CanUploadUndo(s, pid)
    ensures Sized(lim, DoUploadUndo(s, pid))
  {
  }

  lemma UploadKeepsSized(lim: Limits, s: Sys, step: UploadStep, s': Sys)
    requires Sized(lim, s) && UploadNext(s, step, s')
    ensures Sized(lim, s')
  {
    match step
    case UploadClaim(pid, id, size) => ClaimKeepsSized(lim, s, pid, id, size);
    case UploadRename(pid, renamed) => RenameKeepsSized(lim, s, pid, renamed);
    case UploadRecord(pid) => RecordKeepsSized(lim, s, pid);
    case UploadUndo(pid) => UndoKeepsSized(lim, s, pid);
  }

  lemma CompleteKeepsSized(lim: Limits, s: Sys, step: CompleteStep, s': Sys)
    requires Sized(lim, s) && CompleteNext(s, step, s')
    ensures Sized(lim, s')
  {
  }

  /** A step that moves no file and commits no row. */
  lemma QuietKeepsSized(lim: Limits, s: Sys, s': Sys)
    requires Sized(lim, s)
    requires s'.tickets == s.tickets && s'.files == s.files
    requires s'.uploads == s.uploads && s'.completions == s.completions
    requires forall id :: id in s'.t.attachments && s'.t.attachments[id].state == Committed ==>
               id in s.t.attachments && s'.t.attachments[id] == s.t.attachments[id]
    ensures Sized(lim, s')
  {
  }

  lemma GuardKeepsSized(lim: Limits, s: Sys, step: GuardStep, s': Sys)
    requires Sized(lim, s) && GuardNext(lim, s, step, s')
    ensures Sized(lim, s')
  {
    assert s'.t.attachments == s.t.attachments;
    QuietKeepsSized(lim, s, s');
  }

  lemma ReconcileKeepsSized(lim: Limits, s: Sys, step: ReconcileStep, s': Sys)
    requires Sized(lim, s) && ReconcileNext(s, step, s')
    ensures Sized(lim, s')
  {
    QuietKeepsSized(lim, s, s');
  }

  lemma {:induction false} RunSized(lim: Limits, run: Run, i: nat)
    requires ValidRun(lim, run) && i < |run.states|
    ensures Sized(lim, run.states[i])
  {
    if i > 0 {
      RunSized(lim, run, i - 1);
      var s, s' := run.states[i - 1], run.states[i];
      match run.steps[i - 1] {
        case OnInitiate(step) => InitiateKeepsSized(lim, s, step, s');
        case OnUpload(step) => UploadKeepsSized(lim, s, step, s');
        case OnComplete(step) => CompleteKeepsSized(lim, s, step, s');
        case OnGuard(step) => GuardKeepsSized(lim, s, step, s');
        case OnReconcile(step) => ReconcileKeepsSized(lim, s, step, s');
        case Tick(_) => QuietKeepsSized(lim, s, s');
      }
    }
  }

  // ---------------------------------------------------------------- without room nothing is issued

  /** No request for a ticket ever got past its reserve, so there is no attachment. */
  ghost predicate Idle(s: Sys) {
    && s.initiations == map[] && s.tickets == map[] && s.uploads == map[] && s.completions == map[]
    && s.t.attachments == map[]
  }

  lemma NothingToReconcile(s: Sys, step: ReconcileStep, s': Sys)
    requires Idle(s) && Linked(s)
    ensures !ReconcileNext(s, step, s')
  {
    if step.ReconcileExpire? {
      assert step.res !in s.t.reservations;
    }
  }

  lemma NoTicketTaken(lim: Limits, s: Sys, step: InitiateStep, s': Sys)
    requires lim.maxImage > 0 && (lim.maxOwner <= 0 || lim.maxGlobal <= 0)
    requires Idle(s) && Ledger(s)
    ensures !InitiateNext(lim, s, step, s')
  {
    if step.InitiateReserve? {
      NoRoom(lim, s, PathOf(step.owner), ReserveBytes(lim, step.declared));
    }
  }

  /** Only the disk guard and the clock move. */
  lemma NothingBegins(s: Sys, step: Step, s': Sys)
    requires Idle(s)
    ensures step.OnUpload? ==> !UploadNext(s, step.upload, s')
    ensures step.OnComplete? ==> !CompleteNext(s, step.complete, s')
  {
  }

  lemma GuardLeavesIdle(lim: Limits, s: Sys, step: GuardStep, s': Sys)
    requires Idle(s) && GuardNext(lim, s, step, s')
    ensures Idle(s')
  {
  }

  lemma IdleStays(lim: Limits, s: Sys, step: Step, s': Sys)
    requires lim.maxImage > 0 && (lim.maxOwner <= 0 || lim.maxGlobal <= 0)
    requires Idle(s) && Linked(s) && Ledger(s) && Next(lim, s, step, s')
    ensures Idle(s')
  {
    NothingBegins(s, step, s');
    if step.OnInitiate? {
      NoTicketTaken(lim, s, step.initiate, s');
    } else if step.OnReconcile? {
      NothingToReconcile(s, step.reconcile, s');
    } else if step.OnGuard? {
      GuardLeavesIdle(lim, s, step.guard, s');
    }
  }

  lemma NoRoom(lim: Limits, s: Sys, path: OwnerPath, bytes: int)
    requires (lim.maxOwner <= 0 || lim.maxGlobal <= 0) && Ledger(s) && bytes > 0
    ensures !HasRoom(s.t, path, lim.maxOwner, bytes, lim.maxGlobal)
  {
    OwnerWithinGlobal(s.t, path);
  }

  lemma {:induction false} RunIdle(lim: Limits, run: Run, i: nat)
    requires ValidRun(lim, run) && i < |run.states| && (lim.maxOwner <= 0 || lim.maxGlobal <= 0)
    ensures Idle(run.states[i])
  {
    if i > 0 {
      RunIdle(lim, run, i - 1);
      Reachable(lim, run, i - 1);
      assert Next(lim, run.states[i - 1], run.steps[i - 1], run.states[i]);
      IdleStays(lim, run.states[i - 1], run.steps[i - 1], run.states[i]);
    }
  }

  // ---------------------------------------------------------------- the configurations

  ghost predicate Passed(lim: Limits, t: Tables, path: OwnerPath) {
    OwnerSum(t, path) > Clamp(lim.maxOwner) || GlobalSum(t) > Clamp(lim.maxGlobal)
  }

  predicate Passable(lim: Limits) {
    lim.maxImage >= 2 && lim.maxOwner >= 1 && lim.maxGlobal >= 1
  }

  lemma OthersHold(lim: Limits, run: Run, i: nat, path: OwnerPath)
    requires ValidRun(lim, run) && i < |run.states| && !Passable(lim)
    ensures !Passed(lim, run.states[i].t, path)
  {
    var t := run.states[i].t;
    Reachable(lim, run, i);
    if lim.maxImage == 1 {
      RunSized(lim, run, i);
    } else {
      RunIdle(lim, run, i);
    }
    assert AllFit(t);
    LimitsHoldWhenFilesFit(lim, run, i, path);
  }

  /** A stock up to the smaller limit less one byte, a ticket for that byte, and a file of two. */
  lemma PassingRun(lim: Limits, owner: Owner) returns (run: Run)
    requires Passable(lim)
    ensures ValidRun(lim, run) && Passed(lim, run.states[|run.steps|].t, PathOf(owner))
    ensures lim.maxOwner <= lim.maxGlobal ==> OwnerSum(run.states[|run.steps|].t, PathOf(owner)) == lim.maxOwner + 1
  {
    var stock := (if lim.maxOwner <= lim.maxGlobal then lim.maxOwner else lim.maxGlobal) - 1;
    run := DeclaredBytesDoNotBound(lim, owner, stock, 1, 2);
  }

  /** Some run passes a limit exactly when there is room for one byte and an image may have two. */
  lemma LimitsCanBePassed(lim: Limits)
    requires lim.maxImage > 0
    ensures Passable(lim)
      <==> exists run: Run, i: nat, path: OwnerPath ::
             ValidRun(lim, run) && i < |run.states| && Passed(lim, run.states[i].t, path)
  {
    if Passable(lim) {
      var owner := Customer(0);
      var run := PassingRun(lim, owner);
      var i := |run.steps|;
      assert i < |run.states| && Passed(lim, run.states[i].t, PathOf(owner));
    }
    forall run: Run, i: nat, path: OwnerPath | ValidRun(lim, run) && i < |run.states| && !Passable(lim)
      ensures !Passed(lim, run.states[i].t, path)
    {
      OthersHold(lim, run, i, path);
    }
  }
}
