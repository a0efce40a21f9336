/** Live takeover of a support case: the lease, and the services and actions that write the row of an existing case. */
module SupportTakeover {
  import opened Sums

  const LEASE_SECONDS := 300

  type CaseId = int
  type Admin = int

  datatype Status = Open | InProgress | WaitingCustomer | Resolved | Closed

  /** `expiresAt` is None for the null column. */
  datatype Case = Case(conversation: Option<int>, status: Status, holder: Option<Admin>, active: bool,
                       startedAt: Option<int>, expiresAt: Option<int>, endedAt: Option<int>,
                       resolvedAt: Option<int>, adminUnread: nat, customerUnread: nat)

  type Table = map<CaseId, Case>

  datatype Outcome = Done | Missing | CaseClosed | Unlinked | HeldByAnother | Duplicate | Invalid

  predicate IsClosed(c: Case) {
    c.status == Resolved || c.status == Closed
  }

  predicate Linked(c: Case) {
    c.conversation.Some? && c.conversation.value >= 1
  }

  predicate Live(c: Case, now: int) {
    c.active && c.expiresAt.Some? && c.expiresAt.value > now
  }

  predicate HeldBy(c: Case, admin: Admin, now: int) {
    Live(c, now) && c.holder == Some(admin)
  }

  // ---------------------------------------------------------------- one row per operation

  /** The refusals shared by claim and release, in the order they are tested. */
  function Refusal(c: Case, admin: Admin, now: int): Outcome {
    if IsClosed(c) then CaseClosed
    else if !Linked(c) then Unlinked
    else if Live(c, now) && c.holder != Some(admin) then HeldByAnother
    else Done
  }

  function Claimed(c: Case, admin: Admin, now: int, later: int, last: int): Case {
    c.(holder := Some(admin), status := InProgress, active := true,
       startedAt := if Live(c, now) then c.startedAt else Some(later),
       expiresAt := Some(last + LEASE_SECONDS), endedAt := None)
  }

  function Released(c: Case, later: int): Case {
    c.(status := WaitingCustomer, active := false, expiresAt := None, endedAt := Some(later))
  }

  function ClosedBy(c: Case, conversation: int, now: int): Case {
    if c.conversation == Some(conversation) then
      c.(status := Closed, active := false, expiresAt := None, endedAt := Some(now), resolvedAt := Some(now))
    else
      c
  }

  function Replied(c: Case, admin: Admin): Case {
    c.(holder := Some(admin), status := WaitingCustomer, active := true, adminUnread := 0,
        customerUnread := c.customerUnread + 1, resolvedAt := None)
  }

  function Answered(c: Case, conversation: int): Case {
    if c.conversation == Some(conversation) && !IsClosed(c) then
      c.(status := Open, adminUnread := c.adminUnread + 1, customerUnread := 0)
    else
      c
  }

  /** The mass action of the case list: it may move the case to the administrator, and ends a takeover by closing. */
  function MassSet(c: Case, status: Status, admin: Admin, now: int): Case {
    var moved := c.(status := status, holder := if status == InProgress then Some(admin) else c.holder);
    if IsClosed(moved)
    then moved.(active := false, expiresAt := None, endedAt := Some(now), resolvedAt := Some(now))
    else moved.(resolvedAt := None)
  }

  /** A verified customer listing their cases closes one that has lost its conversation. */
  function Reconnected(c: Case, now: int): Case {
    if Linked(c) || IsClosed(c) then c
    else c.(status := Closed, active := false, expiresAt := None, endedAt := Some(now), resolvedAt := Some(now))
  }

  // ---------------------------------------------------------------- the operations

  datatype Step =
    | Claim(id: CaseId, admin: Admin, now: int, later: int, last: int)
    | Release(id: CaseId, admin: Admin, now: int, later: int)
    | Heartbeat(id: CaseId, admin: Admin, now: int, later: int)
    | Close(conversation: int, now: int)
    | Reply(id: CaseId, admin: Admin, blank: bool, duplicate: bool, now: int)
    | CustomerMessage(conversation: int, now: int)
    | MarkRead(id: CaseId, now: int)
    | MassStatus(id: CaseId, status: Status, admin: Admin, now: int)
    | ListVerified(id: CaseId, now: int)
    | EraseConversation(conversation: int, now: int)

  function ReplyRefusal(cases: Table, id: CaseId, admin: Admin, blank: bool, duplicate: bool): Outcome {
    if id < 1 || admin < 1 || blank then Invalid
    else if id !in cases then Missing
    else if IsClosed(cases[id]) then CaseClosed
    else if !Linked(cases[id]) then Unlinked
    else if duplicate then Duplicate
    else Done
  }

  /** The row of a case after a step. */
  function RowAfter(cases: Table, step: Step, id: CaseId): Case
    requires id in cases
  {
    var c := cases[id];
    match step
    case Claim(target, admin, now, later, last) =>
      if id == target && Refusal(c, admin, now) == Done then Claimed(c, admin, now, later, last) else c
    case Release(target, admin, now, later) =>
      if id == target && Refusal(c, admin, now) == Done then Released(c, later) else c
    case Heartbeat(target, admin, now, later) =>
      if id == target && HeldBy(c, admin, now) then c.(expiresAt := Some(later + LEASE_SECONDS)) else c
    case Close(conversation, now) => ClosedBy(c, conversation, now)
    case Reply(target, admin, blank, duplicate, _) =>
      if id == target && ReplyRefusal(cases, id, admin, blank, duplicate) == Done then Replied(c, admin) else c
    case CustomerMessage(conversation, _) => if conversation < 1 then c else Answered(c, conversation)
    case MarkRead(target, _) => if id == target && id > 0 then c.(adminUnread := 0) else c
    case MassStatus(target, status, admin, now) => if id == target then MassSet(c, status, admin, now) else c
    case ListVerified(target, now) => if id == target then Reconnected(c, now) else c
    case EraseConversation(conversation, _) =>
      if c.conversation == Some(conversation) then c.(conversation := None) else c
  }

  function After(cases: Table, step: Step): (cases': Table)
    ensures cases'.Keys == cases.Keys && forall id :: id in cases' ==> cases'[id] == RowAfter(cases, step, id)
  {
    map id | id in cases :: RowAfter(cases, step, id)
  }

  class SupportDesk {
    var cases: Table

    constructor (cases: Table)
      ensures this.cases == cases
    {
      this.cases := cases;
    }

    /** Claim when `active`, release otherwise; the clock is read for the lease test, for the row's times and for the
        new deadline. */
    method ChangeState(id: CaseId, admin: Admin, active: bool, now: int, later: int, last: int)
        returns (outcome: Outcome)
      modifies this
      ensures outcome == if id !in old(cases) then Missing else Refusal(old(cases)[id], admin, now)
      ensures cases == After(old(cases),
                             if active then Claim(id, admin, now, later, last) else Release(id, admin, now, later))
    {
      if id !in cases {
        return Missing;
      }
      var row := cases[id];
      if IsClosed(row) {
        return CaseClosed;
      }
      if row.conversation.None? || row.conversation.value < 1 {
        return Unlinked;
      }
      var currentActive := row.active && row.expiresAt.Some? && row.expiresAt.value > now;
      if active && currentActive && row.holder != Some(admin) {
        return HeldByAnother;
      }
      if !active && currentActive && row.holder != Some(admin) {
        return HeldByAnother;
      }
      if active {
        row := row.(holder := Some(admin), status := InProgress, active := true,
                    startedAt := if currentActive then row.startedAt else Some(later),
                    expiresAt := Some(last + LEASE_SECONDS), endedAt := None);
      } else {
        row := row.(status := WaitingCustomer, active := false, expiresAt := None, endedAt := Some(later));
      }
      cases := cases[id := row];
      outcome := Done;
    }

    method HeartbeatCase(id: CaseId, admin: Admin, now: int, later: int) returns (alive: bool)
      modifies this
      ensures alive <==> id in old(cases) && HeldBy(old(cases)[id], admin, now)
      ensures cases == After(old(cases), Heartbeat(id, admin, now, later))
    {
      alive := id in cases && HeldBy(cases[id], admin, now);
      if alive {
        cases := cases[id := cases[id].(expiresAt := Some(later + LEASE_SECONDS))];
      }
    }

    method CloseByConversationId(conversation: int, now: int) returns (closed: bool)
      modifies this
      ensures closed <==> exists id :: id in old(cases) && old(cases)[id].conversation == Some(conversation)
      ensures cases == After(old(cases), Close(conversation, now))
    {
      closed := exists id :: id in cases && cases[id].conversation == Some(conversation);
      cases := map id | id in cases :: ClosedBy(cases[id], conversation, now);
    }

    method ReplyToCase(id: CaseId, admin: Admin, blank: bool, duplicate: bool, now: int) returns (outcome: Outcome)
      modifies this
      ensures outcome == ReplyRefusal(old(cases), id, admin, blank, duplicate)
      ensures cases == After(old(cases), Reply(id, admin, blank, duplicate, now))
    {
      if id < 1 || admin < 1 || blank {
        return Invalid;
      }
      if id !in cases {
        return Missing;
      }
      if IsClosed(cases[id]) {
        return CaseClosed;
      }
      if cases[id].conversation.None? || cases[id].conversation.value < 1 {
        return Unlinked;
      }
      if duplicate {
        return Duplicate;
      }
      cases := cases[id := Replied(cases[id], admin)];
      outcome := Done;
    }

    method RecordCustomerMessage(conversation: int, now: int)
      modifies this
      ensures cases == After(old(cases), CustomerMessage(conversation, now))
    {
      if conversation < 1 {
        return;
      }
      cases := map id | id in cases :: Answered(cases[id], conversation);
    }

    method MarkAdminRead(id: CaseId, now: int) returns (done: bool)
      modifies this
      ensures done <==> id > 0
      ensures cases == After(old(cases), MarkRead(id, now))
    {
      done := id > 0;
      if done && id in cases {
        cases := cases[id := cases[id].(adminUnread := 0)];
      }
    }

    /** `status` is None for a value that is no status; the selection lists existing cases. */
    method SetStatuses(selected: seq<CaseId>, status: Option<Status>, admin: Admin, now: int) returns (count: nat)
      requires forall id :: id in selected ==> id in cases
      modifies this
      ensures count == if status.None? then 0 else |selected|
      ensures cases == if status.None? then old(cases) else AllSet(old(cases), selected, status.value, admin, now)
    {
      count := 0;
      if status.None? {
        return;
      }
      assert AllSet(cases, selected[..0], status.value, admin, now) == cases;
      for k := 0 to |selected|
        invariant count == k && cases == AllSet(old(cases), selected[..k], status.value, admin, now)
      {
        SetOneMore(old(cases), selected, k, status.value, admin, now);
        var row := cases[selected[k]].(status := status.value);
        if status.value == InProgress {
          row := row.(holder := Some(admin));
        }
        row := row.(resolvedAt := if IsClosed(row) then Some(now) else None);
        if IsClosed(row) {
          row := row.(active := false, expiresAt := None, endedAt := Some(now));
        }
        cases := cases[selected[k] := row];
        count := count + 1;
      }
      assert selected[..|selected|] == selected;
    }
  }

  /** The cases of a selection, each set. */
  function AllSet(cases: Table, selected: seq<CaseId>, status: Status, admin: Admin, now: int): Table {
    map id | id in cases :: if id in selected then MassSet(cases[id], status, admin, now) else cases[id]
  }

  lemma SetOneMore(cases: Table, selected: seq<CaseId>, k: nat, status: Status, admin: Admin, now: int)
    requires k < |selected|
    ensures AllSet(cases, selected[..k + 1], status, admin, now)
         == After(AllSet(cases, selected[..k], status, admin, now), MassStatus(selected[k], status, admin, now))
  {
    assert selected[..k + 1] == selected[..k] + [selected[k]];
  }

  // ---------------------------------------------------------------- runs

  function Time(step: Step): int {
    step.now
  }

  /** The deadline is read after the lease test. */
  predicate ClockedStep(step: Step) {
    match step
    case Claim(_, _, now, later, last) => now <= later <= last
    case Release(_, _, now, later) => now <= later
    case Heartbeat(_, _, now, later) => now <= later
    case _ => true
  }

  function Reached(start: Table, steps: seq<Step>): Table {
    if steps == [] then start else After(Reached(start, steps[..|steps| - 1]), steps[|steps| - 1])
  }

  /** The clock never runs backwards. */
  ghost predicate Timed(steps: seq<Step>) {
    && (forall k :: 0 <= k < |steps| ==> ClockedStep(steps[k]))
    && (forall i, j :: 0 <= i <= j < |steps| ==> Time(steps[i]) <= Time(steps[j]))
  }

  // ---------------------------------------------------------------- a live lease

  /** What ends a lease early: its holder's release; the close of its conversation; a reply or a mass action that gives
      the case to somebody else; and the mass action or the listing that closes it. */
  predicate EndsLease(step: Step, id: CaseId, c: Case, admin: Admin) {
    match step
    case Release(target, other, _, _) => target == id && other == admin
    case Close(conversation, _) => c.conversation == Some(conversation)
    case Reply(target, other, _, _, _) => target == id && other != admin
    case MassStatus(target, status, other, now) =>
      target == id && (IsClosed(MassSet(c, status, other, now)) || (status == InProgress && other != admin))
    case ListVerified(target, _) => target == id && !Linked(c)
    case _ => false
  }

  /** The lease still held, with a deadline no earlier than the one it had. */
  predicate StillHeld(c: Case, admin: Admin, deadline: int) {
    c.active && c.holder == Some(admin) && c.expiresAt.Some? && c.expiresAt.value >= deadline
  }

  /** Before its deadline, nothing else disturbs a live lease, and its deadline never moves back. */
  lemma StepKeepsLease(cases: Table, step: Step, id: CaseId, admin: Admin, deadline: int)
    requires id in cases && StillHeld(cases[id], admin, deadline)
    requires Time(step) < deadline && ClockedStep(step) && !EndsLease(step, id, cases[id], admin)
    requires deadline <= Time(step) + LEASE_SECONDS
    ensures StillHeld(After(cases, step)[id], admin, deadline)
  {
  }

  /** Step `k` of a run comes after the deadline or ends the lease, on the row that it meets. */
  ghost predicate EndsAt(start: Table, steps: seq<Step>, k: nat, id: CaseId, admin: Admin, deadline: int)
    requires k < |steps| && id in start
  {
    Time(steps[k]) >= deadline || EndsLease(steps[k], id, RowAt(start, steps, k, id), admin)
  }

  ghost function RowAt(start: Table, steps: seq<Step>, k: nat, id: CaseId): Case
    requires k <= |steps| && id in start
  {
    RowsStay(start, steps[..k]);
    Reached(start, steps[..k])[id]
  }

  lemma {:induction false} RowsStay(start: Table, steps: seq<Step>)
    ensures Reached(start, steps).Keys == start.Keys
  {
    if steps != [] {
      RowsStay(start, steps[..|steps| - 1]);
    }
  }

  ghost predicate Undisturbed(start: Table, steps: seq<Step>, id: CaseId, admin: Admin, deadline: int)
    requires id in start
  {
    && Timed(steps)
    && (forall k :: 0 <= k < |steps| ==> deadline - LEASE_SECONDS <= Time(steps[k]))
    && (forall k :: 0 <= k < |steps| ==> !EndsAt(start, steps, k, id, admin, deadline))
  }

  lemma UndisturbedFront(start: Table, steps: seq<Step>, id: CaseId, admin: Admin, deadline: int)
    requires id in start && Undisturbed(start, steps, id, admin, deadline) && steps != []
    ensures Undisturbed(start, steps[..|steps| - 1], id, admin, deadline)
  {
    var front := steps[..|steps| - 1];
    forall k | 0 <= k < |front| ensures !EndsAt(start, front, k, id, admin, deadline) {
      assert front[..k] == steps[..k] && !EndsAt(start, steps, k, id, admin, deadline);
    }
  }

  lemma {:induction false} LeaseKept(start: Table, steps: seq<Step>, id: CaseId, admin: Admin, deadline: int)
    requires id in start && StillHeld(start[id], admin, deadline) && Undisturbed(start, steps, id, admin, deadline)
    ensures id in Reached(start, steps) && StillHeld(Reached(start, steps)[id], admin, deadline)
  {
    if steps != [] {
      var front := steps[..|steps| - 1];
      UndisturbedFront(start, steps, id, admin, deadline);
      LeaseKept(start, front, id, admin, deadline);
      assert !EndsAt(start, steps, |steps| - 1, id, admin, deadline);
      StepKeepsLease(Reached(start, front), steps[|steps| - 1], id, admin, deadline);
    }
  }

  /** Until its deadline a live lease is its holder's alone: it is still held, and every other claim or release is
      refused. */
  lemma LiveLeaseIsExclusive(start: Table, steps: seq<Step>, id: CaseId, admin: Admin, deadline: int, other: Admin,
                             now: int)
    requires id in start && StillHeld(start[id], admin, deadline) && Undisturbed(start, steps, id, admin, deadline)
    requires now < deadline && other != admin
    ensures id in Reached(start, steps) && HeldBy(Reached(start, steps)[id], admin, now)
    ensures Refusal(Reached(start, steps)[id], other, now) != Done
  {
    LeaseKept(start, steps, id, admin, deadline);
  }

  /** A live lease passes to somebody else only after its deadline or a step that ends it. */
  lemma LeasePassesOnlyAtItsEnd(start: Table, steps: seq<Step>, id: CaseId, admin: Admin, deadline: int)
    requires id in start && StillHeld(start[id], admin, deadline) && Timed(steps)
    requires forall k :: 0 <= k < |steps| ==> deadline - LEASE_SECONDS <= Time(steps[k])
    requires id in Reached(start, steps) && Reached(start, steps)[id].holder != Some(admin)
    ensures exists k :: 0 <= k < |steps| && EndsAt(start, steps, k, id, admin, deadline)
  {
    if forall k :: 0 <= k < |steps| ==> !EndsAt(start, steps, k, id, admin, deadline) {
      LeaseKept(start, steps, id, admin, deadline);
    }
  }

  /** A successful claim gives its administrator the case for the lease's full length. */
  lemma ClaimLeases(cases: Table, id: CaseId, admin: Admin, now: int, later: int, last: int)
    requires id in cases && now <= later <= last && Refusal(cases[id], admin, now) == Done
    ensures var c := After(cases, Claim(id, admin, now, later, last))[id];
            StillHeld(c, admin, last + LEASE_SECONDS) && c.conversation == cases[id].conversation && !IsClosed(c)
  {
  }

  // ---------------------------------------------------------------- a reply and the lease

  predicate Tidy(c: Case) {
    !c.active ==> c.expiresAt.None?
  }

  lemma StepKeepsTidy(cases: Table, step: Step, id: CaseId)
    requires id in cases && Tidy(cases[id])
    ensures Tidy(After(cases, step)[id])
  {
  }

  lemma {:induction false} TidyAlways(start: Table, steps: seq<Step>, id: CaseId)
    requires id in start && Tidy(start[id])
    ensures id in Reached(start, steps) && Tidy(Reached(start, steps)[id])
  {
    if steps != [] {
      var front := steps[..|steps| - 1];
      TidyAlways(start, front, id);
      StepKeepsTidy(Reached(start, front), steps[|steps| - 1], id);
    }
  }

  /** A reply takes a live lease from its holder, who can then not even keep it alive; it starts no lease of its own. */
  lemma ReplyTakesTheLease(cases: Table, id: CaseId, admin: Admin, other: Admin, now: int)
    requires id in cases && Tidy(cases[id]) && other != admin && ReplyRefusal(cases, id, other, false, false) == Done
    ensures var c := After(cases, Reply(id, other, false, false, now))[id];
            && (HeldBy(cases[id], admin, now) ==> HeldBy(c, other, now) && !HeldBy(c, admin, now))
            && (HeldBy(cases[id], admin, now) ==> Refusal(c, admin, now) == HeldByAnother)
            && (Live(c, now) <==> Live(cases[id], now))
  {
  }

  /** So does the mass action that sets the case in progress. */
  lemma MassStatusTakesTheLease(cases: Table, id: CaseId, admin: Admin, other: Admin, now: int)
    requires id in cases && other != admin && HeldBy(cases[id], admin, now)
    ensures var c := After(cases, MassStatus(id, InProgress, other, now))[id];
            HeldBy(c, other, now) && !HeldBy(c, admin, now) && Refusal(c, admin, now) != Done
  {
  }

  // ---------------------------------------------------------------- the closed state

  predicate Shut(c: Case) {
    IsClosed(c) && !c.active && c.expiresAt.None?
  }

  /** Only the mass action reopens. */
  predicate Reopens(step: Step, id: CaseId) {
    step.MassStatus? && step.id == id && step.status != Resolved && step.status != Closed
  }

  lemma StepKeepsShut(cases: Table, step: Step, id: CaseId)
    requires id in cases && Shut(cases[id])
    ensures Shut(After(cases, step)[id]) <==> !Reopens(step, id)
    ensures !(step.MassStatus? && step.id == id) && cases[id].status == Closed ==>
              After(cases, step)[id].status == Closed
  {
  }

  /** A case closed by its conversation stays closed, with no takeover and no deadline, whatever is claimed, released,
      kept alive, replied, written, read, listed or erased afterwards, until the mass action reopens it. */
  lemma {:induction false} ClosedForGood(start: Table, id: CaseId, conversation: int, now: int, steps: seq<Step>)
    requires id in start && start[id].conversation == Some(conversation)
    requires forall k :: 0 <= k < |steps| ==> !Reopens(steps[k], id)
    ensures id in Reached(After(start, Close(conversation, now)), steps)
    ensures Shut(Reached(After(start, Close(conversation, now)), steps)[id])
    ensures (forall k :: 0 <= k < |steps| ==> !(steps[k].MassStatus? && steps[k].id == id)) ==>
              Reached(After(start, Close(conversation, now)), steps)[id].status == Closed
  {
    if steps != [] {
      var front := steps[..|steps| - 1];
      ClosedForGood(start, id, conversation, now, front);
      StepKeepsShut(Reached(After(start, Close(conversation, now)), front), steps[|steps| - 1], id);
    }
  }
}
