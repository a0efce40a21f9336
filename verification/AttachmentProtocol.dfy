/** The upload protocol as a state machine: tables, files, a clock, and every request in flight.

    A request that crashes is one that never takes another step, so every property below also covers
    crashes between any two steps. */
module AttachmentProtocol {
  import opened Sums
  import opened AttachmentTables

  const TICKET_TTL_SECONDS := 300

  type Pid = nat

  /** `maxImage` is clamped to at least 262144 by the configuration reader, so it is positive. */
  datatype Limits = Limits(maxImage: int, maxOwner: int, maxGlobal: int)

  datatype Ticket = Ticket(owner: Owner, reservation: ResId, nonce: Nonce, maxBytes: int, expiresAt: int)

  /** An `initiate` call after its reserve, and after its attachment row. */
  datatype Initiation =
    | Reserved(owner: Owner, bytes: int)
    | Recorded(owner: Owner, bytes: int, id: AttId, reservation: ResId, nonce: Nonce, expiresAt: int)

  /** An `Upload` request that won its claim: before and after the rename, and after a failed recordStaged. */
  datatype Upload =
    | Claimed(id: AttId, owner: Owner, size: nat)
    | Renamed(id: AttId, owner: Owner, size: nat)
    | Conflicted(id: AttId, owner: Owner, size: nat)

  /** A `complete` call: its ticket verified, its mark won, its staged file found, its final file known. */
  datatype Completion =
    | Verified(id: AttId, owner: Owner)
    | Marked(id: AttId, owner: Owner)
    | Probed(id: AttId, owner: Owner, size: nat)
    | Located(id: AttId, owner: Owner, found: FilePath, size: nat)

  /** A disk-guarded write between its reserve and its commit or release. */
  datatype DiskHold = DiskHold(path: OwnerPath, bytes: int)

  datatype Sys = Sys(
    now: int,
    t: Tables,
    files: map<FilePath, nat>,
    tickets: map<AttId, Ticket>,
    initiations: map<Pid, Initiation>,
    uploads: map<Pid, Upload>,
    completions: map<Pid, Completion>,
    holds: map<Pid, DiskHold>,
    guarded: map<OwnerPath, int>) // net bytes charged by disk-guarded writes, less bytes given back

  /** Issuing a ticket: reserve, attachment row, reservation row. */
  datatype InitiateStep =
    | InitiateReserve(pid: Pid, owner: Owner, declared: int)
    | InitiateRecord(pid: Pid, id: AttId, res: ResId, nonce: Nonce)
    | InitiateBind(pid: Pid)

  /** Receiving the file after its stream was accepted: claim, rename, stage, or undo. */
  datatype UploadStep =
    | UploadClaim(pid: Pid, id: AttId, size: nat)
    | UploadRename(pid: Pid, renamed: bool)
    | UploadRecord(pid: Pid)
    | UploadUndo(pid: Pid)

  /** Finalising: ticket check, mark, file probe, rename, commit. */
  datatype CompleteStep =
    | CompleteBegin(pid: Pid, id: AttId)
    | CompleteMark(pid: Pid)
    | CompleteProbe(pid: Pid)
    | CompleteMove(pid: Pid, moved: bool)
    | CompleteCommit(pid: Pid)

  /** Disk-guarded writes beside the tickets, and bytes given back when their files are deleted. */
  datatype GuardStep =
    | GuardInitialize(path: OwnerPath, globally: bool)
    | GuardReserve(pid: Pid, path: OwnerPath, bytes: int)
    | GuardFinish(pid: Pid, written: bool)
    | GiveBack(path: OwnerPath, bytes: int)

  /** The reconciler, one row at a time. */
  datatype ReconcileStep =
    | ReconcileStaged(id: AttId)
    | ReconcileLost(id: AttId)
    | ReconcileExpire(res: ResId)

  datatype Step =
    | Tick(seconds: nat)
    | OnInitiate(initiate: InitiateStep)
    | OnUpload(upload: UploadStep)
    | OnComplete(complete: CompleteStep)
    | OnGuard(guard: GuardStep)
    | OnReconcile(reconcile: ReconcileStep)

  const EmptyTables := Tables(map[], None, map[], map[])

  ghost predicate Initial(s: Sys) {
    && s.t == EmptyTables
    && s.files == map[] && s.tickets == map[] && s.initiations == map[] && s.uploads == map[]
    && s.completions == map[] && s.holds == map[] && s.guarded == map[]
  }

  function ReserveBytes(lim: Limits, declared: int): int {
    if declared > 0 then declared else lim.maxImage
  }

  function Guarded(s: Sys, path: OwnerPath): int {
    if path in s.guarded then s.guarded[path] else 0
  }

  function CommitCall(s: Sys, pid: Pid): Option<Tables>
    requires pid in s.completions && s.completions[pid].Located? && s.completions[pid].id in s.tickets
  {
    var c := s.completions[pid];
    CommitFinal(s.t, c.id, c.found, PathOf(c.owner), c.size, Some(s.tickets[c.id].reservation),
        Some(OwnerHash(c.owner)), s.now)
  }

  ghost predicate CanInitiateReserve(lim: Limits, s: Sys, pid: Pid, owner: Owner, declared: int) {
    && pid !in s.initiations
    && declared <= lim.maxImage
    && HasRoom(s.t, PathOf(owner), lim.maxOwner, ReserveBytes(lim, declared), lim.maxGlobal)
  }

  ghost function DoInitiateReserve(lim: Limits, s: Sys, pid: Pid, owner: Owner, declared: int): Sys
    requires CanInitiateReserve(lim, s, pid, owner, declared)
  {
    var bytes := ReserveBytes(lim, declared);
    s.(t := Reserve(s.t, PathOf(owner), bytes, true),
       initiations := s.initiations[pid := Reserved(owner, bytes)])
  }

  ghost predicate CanInitiateRecord(s: Sys, pid: Pid, id: AttId, res: ResId, nonce: Nonce) {
    && pid in s.initiations && s.initiations[pid].Reserved?
    && id !in s.t.attachments
    && res !in s.t.reservations
    && (forall a :: a in s.t.attachments ==> s.t.attachments[a].reservation != res)
  }

  ghost function DoInitiateRecord(s: Sys, pid: Pid, id: AttId, res: ResId, nonce: Nonce): Sys
    requires CanInitiateRecord(s, pid, id, res, nonce)
  {
    var i := s.initiations[pid];
    var expiresAt := s.now + TICKET_TTL_SECONDS;
    var row := Attachment(i.owner.Customer?, OwnerHash(i.owner), Issued, i.bytes, res, NonceHash(nonce), expiresAt,
        s.now, None, None);
    s.(t := SetAttachment(s.t, id, row),
       initiations := s.initiations[pid := Recorded(i.owner, i.bytes, id, res, nonce, expiresAt)])
  }

  ghost predicate CanInitiateBind(s: Sys, pid: Pid) {
    pid in s.initiations && s.initiations[pid].Recorded?
  }

  ghost function DoInitiateBind(lim: Limits, s: Sys, pid: Pid): Sys
    requires CanInitiateBind(s, pid)
  {
    var i := s.initiations[pid];
    s.(t := SetReservation(s.t, i.reservation, Reservation(i.id, PathOf(i.owner), i.bytes, Active, i.expiresAt)),
       tickets := s.tickets[i.id := Ticket(i.owner, i.reservation, i.nonce, lim.maxImage, i.expiresAt)],
       initiations := s.initiations - {pid})
  }

  ghost predicate CanUploadClaim(s: Sys, pid: Pid, id: AttId, size: nat) {
    && pid !in s.uploads && id in s.tickets && id in s.t.attachments
    && 0 < size <= s.tickets[id].maxBytes
    && Claimable(s.t.attachments[id], OwnerHash(s.tickets[id].owner), s.tickets[id].nonce, s.now)
  }

  ghost function DoUploadClaim(s: Sys, pid: Pid, id: AttId, size: nat): Sys
    requires CanUploadClaim(s, pid, id, size)
  {
    var ticket := s.tickets[id];
    s.(t := ClaimForUpload(s.t, id, OwnerHash(ticket.owner), ticket.nonce, s.now),
       uploads := s.uploads[pid := Claimed(id, ticket.owner, size)])
  }

  ghost predicate CanUploadRename(s: Sys, pid: Pid, renamed: bool) {
    pid in s.uploads && s.uploads[pid].Claimed?
  }

  ghost function DoUploadRename(s: Sys, pid: Pid, renamed: bool): Sys
    requires CanUploadRename(s, pid, renamed)
  {
    var u := s.uploads[pid];
    if renamed then
      s.(files := s.files[StagedFile(PathOf(u.owner), u.id) := u.size],
          uploads := s.uploads[pid := Renamed(u.id, u.owner, u.size)])
    else
      s.(t := ReleaseUploadClaim(s.t, u.id, s.now), uploads := s.uploads - {pid})
  }

  ghost predicate CanUploadRecord(s: Sys, pid: Pid) {
    pid in s.uploads && s.uploads[pid].Renamed?
  }

  ghost function DoUploadRecord(s: Sys, pid: Pid): Sys
    requires CanUploadRecord(s, pid)
  {
    var u := s.uploads[pid];
    var staged := StagedFile(PathOf(u.owner), u.id);
    var recorded := u.id in s.t.attachments && s.t.attachments[u.id].state == Uploading;
    s.(t := RecordStaged(s.t, u.id, staged, u.size, s.now),
       files := if recorded then s.files else s.files - {staged},
       uploads := if recorded then s.uploads - {pid} else s.uploads[pid := Conflicted(u.id, u.owner, u.size)])
  }

  ghost predicate CanUploadUndo(s: Sys, pid: Pid) {
    pid in s.uploads && s.uploads[pid].Conflicted?
  }

  ghost function DoUploadUndo(s: Sys, pid: Pid): Sys
    requires CanUploadUndo(s, pid)
  {
    s.(t := ReleaseUploadClaim(s.t, s.uploads[pid].id, s.now), uploads := s.uploads - {pid})
  }

  ghost predicate CanCompleteBegin(s: Sys, pid: Pid, id: AttId) {
    pid !in s.completions && id in s.tickets && s.tickets[id].expiresAt >= s.now
  }

  ghost function DoCompleteBegin(s: Sys, pid: Pid, id: AttId): Sys
    requires CanCompleteBegin(s, pid, id)
  {
    s.(completions := s.completions[pid := Verified(id, s.tickets[id].owner)])
  }

  ghost predicate CanCompleteMark(s: Sys, pid: Pid) {
    pid in s.completions && s.completions[pid].Verified?
  }

  ghost function DoCompleteMark(s: Sys, pid: Pid): Sys
    requires CanCompleteMark(s, pid)
  {
    var c := s.completions[pid];
    var free := c.id in s.t.attachments && CanFinalize(s.t.attachments[c.id], s.now);
    s.(t := TryMarkFinalizing(s.t, c.id, s.now),
       completions := if free then s.completions[pid := Marked(c.id, c.owner)] else s.completions - {pid})
  }

  ghost predicate CanCompleteProbe(s: Sys, pid: Pid) {
    pid in s.completions && s.completions[pid].Marked?
  }

  ghost function DoCompleteProbe(s: Sys, pid: Pid): Sys
    requires CanCompleteProbe(s, pid)
  {
    var c := s.completions[pid];
    var final, staged := FinalFile(PathOf(c.owner), c.id), StagedFile(PathOf(c.owner), c.id);
    s.(completions :=
         if final in s.files then s.completions[pid := Located(c.id, c.owner, final, s.files[final])]
         else if staged in s.files then s.completions[pid := Probed(c.id, c.owner, s.files[staged])]
         else s.completions - {pid})
  }

  ghost predicate CanCompleteMove(s: Sys, pid: Pid, moved: bool) {
    && pid in s.completions && s.completions[pid].Probed?
    && (moved ==> StagedFile(PathOf(s.completions[pid].owner), s.completions[pid].id) in s.files)
  }

  ghost function DoCompleteMove(s: Sys, pid: Pid, moved: bool): Sys
    requires CanCompleteMove(s, pid, moved)
  {
    var c := s.completions[pid];
    var final, staged := FinalFile(PathOf(c.owner), c.id), StagedFile(PathOf(c.owner), c.id);
    s.(files := if moved then s.files[final := s.files[staged]] - {staged} else s.files,
       completions := s.completions[pid := Located(c.id, c.owner, if moved then final else staged, c.size)])
  }

  ghost predicate CanCompleteCommit(s: Sys, pid: Pid) {
    pid in s.completions && s.completions[pid].Located? && s.completions[pid].id in s.tickets
  }

  ghost function DoCompleteCommit(s: Sys, pid: Pid): Sys
    requires CanCompleteCommit(s, pid)
  {
    var result := CommitCall(s, pid);
    s.(t := if result.Some? then result.value else s.t, completions := s.completions - {pid})
  }

  ghost function DoGuardInitialize(s: Sys, path: OwnerPath, globally: bool): Sys
  {
    s.(t := if globally then UpsertGlobal(s.t, 0) else UpsertOwner(s.t, path, 0))
  }

  ghost predicate CanGuardReserve(lim: Limits, s: Sys, pid: Pid, path: OwnerPath, bytes: int) {
    && pid !in s.holds && bytes > 0
    && HasRoom(s.t, path, lim.maxOwner, bytes, lim.maxGlobal)
  }

  ghost function DoGuardReserve(lim: Limits, s: Sys, pid: Pid, path: OwnerPath, bytes: int): Sys
    requires CanGuardReserve(lim, s, pid, path, bytes)
  {
    s.(t := Reserve(s.t, path, bytes, true), holds := s.holds[pid := DiskHold(path, bytes)])
  }

  ghost predicate CanGuardFinish(s: Sys, pid: Pid, written: bool) {
    pid in s.holds
  }

  ghost function DoGuardFinish(s: Sys, pid: Pid, written: bool): Sys
    requires CanGuardFinish(s, pid, written)
  {
    var h := s.holds[pid];
    s.(t := MoveReserved(s.t, h.path, h.bytes, written),
       holds := s.holds - {pid},
       guarded := if written then s.guarded[h.path := Guarded(s, h.path) + h.bytes] else s.guarded)
  }

  ghost predicate CanGiveBack(s: Sys, path: OwnerPath, bytes: int) {
    path in s.t.owners && 0 <= bytes <= s.t.owners[path].used
  }

  ghost function DoGiveBack(s: Sys, path: OwnerPath, bytes: int): Sys
    requires CanGiveBack(s, path, bytes)
  {
    s.(t := ReleaseUsed(s.t, path, bytes), guarded := s.guarded[path := Guarded(s, path) - bytes])
  }

  ghost predicate CanReconcileStaged(s: Sys, id: AttId) {
    id in s.t.attachments && s.t.attachments[id].state == Finalizing
  }

  ghost function DoReconcileStaged(s: Sys, id: AttId): Sys
    requires CanReconcileStaged(s, id)
  {
    s.(t := ReturnToStaged(s.t, id, s.now))
  }

  ghost predicate CanReconcileLost(s: Sys, id: AttId) {
    id in s.t.attachments && s.t.attachments[id].state == Finalizing
  }

  ghost function DoReconcileLost(s: Sys, id: AttId): Sys
    requires CanReconcileLost(s, id)
  {
    s.(t := FailLost(s.t, id, s.now))
  }

  ghost predicate CanReconcileExpire(s: Sys, res: ResId) {
    res in s.t.reservations && s.t.reservations[res].expiresAt < s.now - EXPIRY_GRACE_SECONDS
  }

  ghost function DoReconcileExpire(s: Sys, res: ResId): Sys
    requires CanReconcileExpire(s, res)
  {
    s.(t := ExpireRow(s.t, res, s.now))
  }

  ghost predicate InitiateNext(lim: Limits, s: Sys, step: InitiateStep, s': Sys) {
    match step
    case InitiateReserve(pid, owner, declared) =>
      CanInitiateReserve(lim, s, pid, owner, declared) && s' == DoInitiateReserve(lim, s, pid, owner, declared)
    case InitiateRecord(pid, id, res, nonce) =>
      CanInitiateRecord(s, pid, id, res, nonce) && s' == DoInitiateRecord(s, pid, id, res, nonce)
    case InitiateBind(pid) => CanInitiateBind(s, pid) && s' == DoInitiateBind(lim, s, pid)
  }

  ghost predicate UploadNext(s: Sys, step: UploadStep, s': Sys) {
    match step
    case UploadClaim(pid, id, size) => CanUploadClaim(s, pid, id, size) && s' == DoUploadClaim(s, pid, id, size)
    case UploadRename(pid, renamed) => CanUploadRename(s, pid, renamed) && s' == DoUploadRename(s, pid, renamed)
    case UploadRecord(pid) => CanUploadRecord(s, pid) && s' == DoUploadRecord(s, pid)
    case UploadUndo(pid) => CanUploadUndo(s, pid) && s' == DoUploadUndo(s, pid)
  }

  ghost predicate CompleteNext(s: Sys, step: CompleteStep, s': Sys) {
    match step
    case CompleteBegin(pid, id) => CanCompleteBegin(s, pid, id) && s' == DoCompleteBegin(s, pid, id)
    case CompleteMark(pid) => CanCompleteMark(s, pid) && s' == DoCompleteMark(s, pid)
    case CompleteProbe(pid) => CanCompleteProbe(s, pid) && s' == DoCompleteProbe(s, pid)
    case CompleteMove(pid, moved) => CanCompleteMove(s, pid, moved) && s' == DoCompleteMove(s, pid, moved)
    case CompleteCommit(pid) => CanCompleteCommit(s, pid) && s' == DoCompleteCommit(s, pid)
  }

  ghost predicate GuardNext(lim: Limits, s: Sys, step: GuardStep, s': Sys) {
    match step
    case GuardInitialize(path, globally) => s' == DoGuardInitialize(s, path, globally)
    case GuardReserve(pid, path, bytes) =>
      CanGuardReserve(lim, s, pid, path, bytes) && s' == DoGuardReserve(lim, s, pid, path, bytes)
    case GuardFinish(pid, written) => CanGuardFinish(s, pid, written) && s' == DoGuardFinish(s, pid, written)
    case GiveBack(path, bytes) => CanGiveBack(s, path, bytes) && s' == DoGiveBack(s, path, bytes)
  }

  ghost predicate ReconcileNext(s: Sys, step: ReconcileStep, s': Sys) {
    match step
    case ReconcileStaged(id) => CanReconcileStaged(s, id) && s' == DoReconcileStaged(s, id)
    case ReconcileLost(id) => CanReconcileLost(s, id) && s' == DoReconcileLost(s, id)
    case ReconcileExpire(res) => CanReconcileExpire(s, res) && s' == DoReconcileExpire(s, res)
  }

  /** One step of the system. A statement whose own predicate fails is a step that changes no row, or no step. */
  ghost predicate Next(lim: Limits, s: Sys, step: Step, s': Sys) {
    match step
    case Tick(seconds) => s' == s.(now := s.now + seconds)
    case OnInitiate(step) => InitiateNext(lim, s, step, s')
    case OnUpload(step) => UploadNext(s, step, s')
    case OnComplete(step) => CompleteNext(s, step, s')
    case OnGuard(step) => GuardNext(lim, s, step, s')
    case OnReconcile(step) => ReconcileNext(s, step, s')
  }

  /** The states before, between and after a sequence of steps. */
  datatype Run = Run(states: seq<Sys>, steps: seq<Step>)

  ghost predicate Connected(lim: Limits, run: Run) {
    && |run.states| == |run.steps| + 1
    && (forall i {:trigger run.steps[i]} :: 0 <= i < |run.steps| ==>
          Next(lim, run.states[i], run.steps[i], run.states[i + 1]))
  }

  /** A run of the system, from an empty start. */
  ghost predicate ValidRun(lim: Limits, run: Run) {
    lim.maxImage > 0 && Connected(lim, run) && Initial(run.states[0])
  }
}
