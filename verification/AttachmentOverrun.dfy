/** The run that passes the limits: a stock up to the last byte, a ticket for that byte, and a larger file. */
module AttachmentOverrun {
  import opened Sums
  import opened AttachmentTables
  import opened AttachmentProtocol
  import opened AttachmentLedger
  import opened AttachmentCeiling

  const ID: AttId := 0
  const RES: ResId := 0
  const NONCE: Nonce := 0
  const PID: Pid := 0

  ghost predicate Fits(lim: Limits, stock: nat, declared: int, size: nat) {
    && 0 < declared <= lim.maxImage && stock + declared <= lim.maxOwner && stock + declared <= lim.maxGlobal
    && 0 < size <= lim.maxImage
  }

  function Empty(): Sys {
    Sys(0, EmptyTables, map[], map[], map[], map[], map[], map[], map[])
  }

  function Row(owner: Owner, state: AttachmentState, bytes: int): Attachment {
    Attachment(owner.Customer?, OwnerHash(owner), state, bytes, RES, NonceHash(NONCE), TICKET_TTL_SECONDS, 0, None,
        None)
  }

  /** The owner's row and the global row alike: what is stored already and what is reserved. */
  function Quota(owner: Owner, stock: nat, reserved: int): Tables {
    Tables(map[PathOf(owner) := Counter(stock, reserved)], Some(Counter(stock, reserved)), map[], map[])
  }

  /** A shop whose one owner has stored `stock` bytes through the disk guard. */
  function Stocked(owner: Owner, stock: nat): Sys {
    Empty().(t := Quota(owner, stock, 0), guarded := if stock == 0 then map[] else map[PathOf(owner) := stock])
  }

  /** The same with one attachment and its active reservation of `declared` bytes. */
  function TicketIssued(lim: Limits, owner: Owner, stock: nat, row: Attachment, declared: int): Sys {
    var reservation := Reservation(ID, PathOf(owner), declared, Active, TICKET_TTL_SECONDS);
    Stocked(owner, stock)
    .(t := Quota(owner, stock, declared).(attachments := map[ID := row], reservations := map[RES := reservation]),
      tickets := map[ID := Ticket(owner, RES, NONCE, lim.maxImage, TICKET_TTL_SECONDS)])
  }

  function FileStaged(lim: Limits, owner: Owner, stock: nat, row: Attachment, declared: int, size: nat): Sys {
    var staged := StagedFile(PathOf(owner), ID);
    TicketIssued(lim, owner, stock, row.(stagedPath := Some(staged)), declared).(files := map[staged := size])
  }

  function FileMarked(lim: Limits, owner: Owner, stock: nat, declared: int, size: nat): Sys {
    FileStaged(lim, owner, stock, Row(owner, Finalizing, size), declared, size)
    .(completions := map[PID := Marked(ID, owner)])
  }

  function FileMoved(lim: Limits, owner: Owner, stock: nat, declared: int, size: nat): Sys {
    var final := FinalFile(PathOf(owner), ID);
    FileMarked(lim, owner, stock, declared, size)
    .(files := map[final := size], completions := map[PID := Located(ID, owner, final, size)])
  }

  lemma Join(lim: Limits, a: Run, b: Run) returns (run: Run)
    requires Connected(lim, a) && Connected(lim, b) && a.states[|a.steps|] == b.states[0]
    ensures Connected(lim, run) && run.states[0] == a.states[0]
    ensures run.states[|run.steps|] == b.states[|b.steps|]
  {
    run := Run(a.states + b.states[1..], a.steps + b.steps);
    forall i {:trigger run.steps[i]} | 0 <= i < |run.steps|
      ensures Next(lim, run.states[i], run.steps[i], run.states[i + 1])
    {
      if i < |a.steps| {
        assert run.steps[i] == a.steps[i];
      } else {
        assert run.steps[i] == b.steps[i - |a.steps|];
      }
    }
  }

  lemma StockPhase(lim: Limits, owner: Owner, stock: nat) returns (run: Run)
    requires stock <= lim.maxOwner && stock <= lim.maxGlobal
    ensures Connected(lim, run) && run.states[0] == Empty() && run.states[|run.steps|] == Stocked(owner, stock)
  {
    var path := PathOf(owner);
    var s0 := Empty();
    var s1 := DoGuardInitialize(s0, path, false);
    var s2 := DoGuardInitialize(s1, path, true);
    assert s2 == Stocked(owner, 0);
    run := Run([s0, s1, s2], [OnGuard(GuardInitialize(path, false)), OnGuard(GuardInitialize(path, true))]);
    if stock > 0 {
      var s3 := DoGuardReserve(lim, s2, PID, path, stock);
      var s4 := DoGuardFinish(s3, PID, true);
      assert s4.holds == map[] && s4.guarded == map[path := stock] && s4.t.owners == map[path := Counter(stock, 0)];
      var written := Run([s2, s3, s4], [OnGuard(GuardReserve(PID, path, stock)), OnGuard(GuardFinish(PID, true))]);
      run := Join(lim, run, written);
    }
  }

  lemma IssuePhase(lim: Limits, owner: Owner, stock: nat, declared: int) returns (run: Run)
    requires Fits(lim, stock, declared, 1)
    ensures Connected(lim, run) && run.states[0] == Stocked(owner, stock)
    ensures run.states[|run.steps|] == TicketIssued(lim, owner, stock, Row(owner, Issued, declared), declared)
  {
    var s0 := Stocked(owner, stock);
    var s1 := DoInitiateReserve(lim, s0, PID, owner, declared);
    var s2 := DoInitiateRecord(s1, PID, ID, RES, NONCE);
    var s3 := DoInitiateBind(lim, s2, PID);
    assert s3.initiations == map[] && s3.t.owners == map[PathOf(owner) := Counter(stock, declared)];
    run := Run([s0, s1, s2, s3],
               [OnInitiate(InitiateReserve(PID, owner, declared)), OnInitiate(InitiateRecord(PID, ID, RES, NONCE)),
                OnInitiate(InitiateBind(PID))]);
  }

  lemma UploadPhase(lim: Limits, owner: Owner, stock: nat, declared: int, size: nat) returns (run: Run)
    requires Fits(lim, stock, declared, size)
    ensures Connected(lim, run)
    ensures run.states[0] == TicketIssued(lim, owner, stock, Row(owner, Issued, declared), declared)
    ensures run.states[|run.steps|] == FileStaged(lim, owner, stock, Row(owner, Staged, size), declared, size)
  {
    var s0 := TicketIssued(lim, owner, stock, Row(owner, Issued, declared), declared);
    var s1 := DoUploadClaim(s0, PID, ID, size);
    var s2 := DoUploadRename(s1, PID, true);
    var s3 := DoUploadRecord(s2, PID);
    assert s3.uploads == map[];
    run := Run([s0, s1, s2, s3],
               [OnUpload(UploadClaim(PID, ID, size)), OnUpload(UploadRename(PID, true)), OnUpload(UploadRecord(PID))]);
  }

  lemma MarkPhase(lim: Limits, owner: Owner, stock: nat, declared: int, size: nat) returns (run: Run)
    requires Fits(lim, stock, declared, size)
    ensures Connected(lim, run)
    ensures run.states[0] == FileStaged(lim, owner, stock, Row(owner, Staged, size), declared, size)
    ensures run.states[|run.steps|] == FileMarked(lim, owner, stock, declared, size)
  {
    var s0 := FileStaged(lim, owner, stock, Row(owner, Staged, size), declared, size);
    var s1 := DoCompleteBegin(s0, PID, ID);
    var s2 := DoCompleteMark(s1, PID);
    run := Run([s0, s1, s2], [OnComplete(CompleteBegin(PID, ID)), OnComplete(CompleteMark(PID))]);
  }

  lemma MovePhase(lim: Limits, owner: Owner, stock: nat, declared: int, size: nat) returns (run: Run)
    requires Fits(lim, stock, declared, size)
    ensures Connected(lim, run) && run.states[0] == FileMarked(lim, owner, stock, declared, size)
    ensures run.states[|run.steps|] == FileMoved(lim, owner, stock, declared, size)
  {
    var s0 := FileMarked(lim, owner, stock, declared, size);
    var s1 := DoCompleteProbe(s0, PID);
    assert s1.completions == map[PID := Probed(ID, owner, size)];
    var s2 := DoCompleteMove(s1, PID, true);
    run := Run([s0, s1, s2], [OnComplete(CompleteProbe(PID)), OnComplete(CompleteMove(PID, true))]);
  }

  lemma CommitPhase(lim: Limits, owner: Owner, stock: nat, declared: int, size: nat) returns (run: Run)
    requires Fits(lim, stock, declared, size)
    ensures Connected(lim, run) && run.states[0] == FileMoved(lim, owner, stock, declared, size)
    ensures OwnerSum(run.states[|run.steps|].t, PathOf(owner)) == stock + size
    ensures GlobalSum(run.states[|run.steps|].t) == stock + size
  {
    var s0 := FileMoved(lim, owner, stock, declared, size);
    assert ReservationUsable(s0.t, RES, ID, PathOf(owner), 0) && Finalizable(s0.t, ID, Some(OwnerHash(owner)));
    run := Run([s0, DoCompleteCommit(s0, PID)], [OnComplete(CompleteCommit(PID))]);
  }

  /** On top of any stock that leaves room for its declared bytes, a ticket stores a file of any size up to the image
      limit, whatever the owner and global limits are. */
  lemma DeclaredBytesDoNotBound(lim: Limits, owner: Owner, stock: nat, declared: int, size: nat) returns (run: Run)
    requires Fits(lim, stock, declared, size)
    ensures ValidRun(lim, run)
    ensures OwnerSum(run.states[|run.steps|].t, PathOf(owner)) == stock + size
    ensures GlobalSum(run.states[|run.steps|].t) == stock + size
  {
    run := StockPhase(lim, owner, stock);
    var issue := IssuePhase(lim, owner, stock, declared);
    run := Join(lim, run, issue);
    var upload := UploadPhase(lim, owner, stock, declared, size);
    run := Join(lim, run, upload);
    var mark := MarkPhase(lim, owner, stock, declared, size);
    run := Join(lim, run, mark);
    var move := MovePhase(lim, owner, stock, declared, size);
    run := Join(lim, run, move);
    var commit := CommitPhase(lim, owner, stock, declared, size);
    run := Join(lim, run, commit);
  }
}
