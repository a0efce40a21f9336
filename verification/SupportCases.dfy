/** What a support case shows of its conversation: who has something to read, who holds it, and since when. */
module SupportCases {
  import opened Sums
  import opened SupportTakeover

  // ---------------------------------------------------------------- who acts on a case

  predicate Settled(c: Case) {
    c.status == Resolved || c.status == Closed
  }

  /** The customer writes in the case's conversation while the case is open. */
  predicate Writes(cases: Table, step: Step, id: CaseId) {
    && step.CustomerMessage? && id in cases && !Settled(cases[id])
    && step.conversation >= 1 && cases[id].conversation == Some(step.conversation)
  }

  /** An administrator answers: a reply with text, sent once, to an open case with a conversation. */
  predicate Answers(cases: Table, step: Step, id: CaseId) {
    && step.Reply? && step.id == id && id >= 1 && step.admin >= 1 && !step.blank && !step.duplicate
    && id in cases && !Settled(cases[id])
    && cases[id].conversation.Some? && cases[id].conversation.value >= 1
  }

  predicate Reads(step: Step, id: CaseId) {
    step.MarkRead? && step.id == id && id > 0
  }

  // ---------------------------------------------------------------- the unread counts

  /** What one step does to the two counts: a message is one more for the administrators and clears the customer's, an
      answer the other way round, a reading clears the administrators' alone, and nothing else touches either. */
  lemma StepCounts(cases: Table, step: Step, id: CaseId)
    requires id in cases
    ensures var c, c' := cases[id], After(cases, step)[id];
            && c'.adminUnread == (if Writes(cases, step, id) then c.adminUnread + 1
                                  else if Answers(cases, step, id) || Reads(step, id) then 0
                                  else c.adminUnread)
            && c'.customerUnread == (if Answers(cases, step, id) then c.customerUnread + 1
                                     else if Writes(cases, step, id) then 0
                                     else c.customerUnread)
  {
  }

  /** How many of the last steps of a run, from one on, the customer wrote. */
  ghost function Written(start: Table, steps: seq<Step>, id: CaseId, from: nat): nat {
    if |steps| <= from then 0 else
      var front := steps[..|steps| - 1];
      Written(start, front, id, from) + if Writes(Reached(start, front), steps[|steps| - 1], id) then 1 else 0
  }

  ghost function Replies(start: Table, steps: seq<Step>, id: CaseId, from: nat): nat {
    if |steps| <= from then 0 else
      var front := steps[..|steps| - 1];
      Replies(start, front, id, from) + if Answers(Reached(start, front), steps[|steps| - 1], id) then 1 else 0
  }

  /** Step `k` of a run, with the table it meets. */
  ghost predicate AnswersAt(start: Table, steps: seq<Step>, k: nat, id: CaseId)
    requires k < |steps|
  {
    Answers(Reached(start, steps[..k]), steps[k], id)
  }

  ghost predicate WritesAt(start: Table, steps: seq<Step>, k: nat, id: CaseId)
    requires k < |steps|
  {
    Writes(Reached(start, steps[..k]), steps[k], id)
  }

  /** No answer and no reading since a step. */
  ghost predicate UnansweredSince(start: Table, steps: seq<Step>, id: CaseId, from: nat) {
    forall k :: from <= k < |steps| ==> !AnswersAt(start, steps, k, id) && !Reads(steps[k], id)
  }

  ghost predicate UnwrittenSince(start: Table, steps: seq<Step>, id: CaseId, from: nat) {
    forall k :: from <= k < |steps| ==> !WritesAt(start, steps, k, id)
  }

  lemma FrontsAgree(start: Table, steps: seq<Step>, id: CaseId, from: nat)
    requires from < |steps|
    ensures UnansweredSince(start, steps, id, from) ==> UnansweredSince(start, steps[..|steps| - 1], id, from)
    ensures UnwrittenSince(start, steps, id, from) ==> UnwrittenSince(start, steps[..|steps| - 1], id, from)
  {
    var front := steps[..|steps| - 1];
    forall k: nat | from <= k < |front|
      ensures front[k] == steps[k] && (AnswersAt(start, steps, k, id) <==> AnswersAt(start, front, k, id))
      ensures WritesAt(start, steps, k, id) <==> WritesAt(start, front, k, id)
    {
      assert front[..k] == steps[..k];
    }
  }

  /** The administrators' unread count is the number of messages the customer wrote since the last answer or reading. */
  lemma {:induction false} AdminUnreadIsWritten(start: Table, steps: seq<Step>, id: CaseId, from: nat)
    requires id in start && from < |steps| && UnansweredSince(start, steps, id, from + 1)
    requires AnswersAt(start, steps, from, id) || Reads(steps[from], id)
    ensures id in Reached(start, steps)
    ensures Reached(start, steps)[id].adminUnread == Written(start, steps, id, from + 1)
    decreases |steps|
  {
    var front := steps[..|steps| - 1];
    RowsStay(start, front);
    StepCounts(Reached(start, front), steps[|steps| - 1], id);
    if from + 1 < |steps| {
      FrontsAgree(start, steps, id, from + 1);
      assert front[..from] == steps[..from] && front[from] == steps[from];
      AdminUnreadIsWritten(start, front, id, from);
      assert !AnswersAt(start, steps, |steps| - 1, id);
    } else {
      assert steps[..from] == front;
    }
  }

  /** The customer's is the number of answers since they last wrote. */
  lemma {:induction false} CustomerUnreadIsAnswered(start: Table, steps: seq<Step>, id: CaseId, from: nat)
    requires id in start && from < |steps| && UnwrittenSince(start, steps, id, from + 1)
    requires WritesAt(start, steps, from, id)
    ensures id in Reached(start, steps)
    ensures Reached(start, steps)[id].customerUnread == Replies(start, steps, id, from + 1)
    decreases |steps|
  {
    var front := steps[..|steps| - 1];
    RowsStay(start, front);
    StepCounts(Reached(start, front), steps[|steps| - 1], id);
    if from + 1 < |steps| {
      FrontsAgree(start, steps, id, from + 1);
      assert front[..from] == steps[..from] && front[from] == steps[from];
      CustomerUnreadIsAnswered(start, front, id, from);
      assert !WritesAt(start, steps, |steps| - 1, id);
    } else {
      assert steps[..from] == front;
    }
  }

  // ---------------------------------------------------------------- claims and releases

  /** A lease that has not run out. */
  predicate Running(c: Case, now: int) {
    c.active && c.expiresAt.Some? && c.expiresAt.value > now
  }

  /** Why a claim or a release is refused: a settled case before one without a conversation, before one whose running
      lease is somebody else's. */
  lemma RefusalReasons(c: Case, admin: Admin, now: int)
    ensures var unlinked := c.conversation.None? || c.conversation.value < 1;
            && (Refusal(c, admin, now) == CaseClosed <==> Settled(c))
            && (Refusal(c, admin, now) == Unlinked <==> !Settled(c) && unlinked)
            && (Refusal(c, admin, now) == HeldByAnother
                <==> !Settled(c) && !unlinked && Running(c, now) && c.holder != Some(admin))
            && (Refusal(c, admin, now) == Done
                <==> !Settled(c) && !unlinked && (Running(c, now) ==> c.holder == Some(admin)))
  {
  }

  /** A claim puts the case in progress with its administrator for five minutes; a running lease keeps the time it
      started, any other starts anew. */
  lemma ClaimStartsOrRenews(cases: Table, id: CaseId, admin: Admin, now: int, later: int, last: int)
    requires id in cases && Refusal(cases[id], admin, now) == Done
    ensures var c, c' := cases[id], After(cases, Claim(id, admin, now, later, last))[id];
            && c'.holder == Some(admin) && c'.status == InProgress && c'.active && c'.endedAt == None
            && c'.expiresAt == Some(last + 300)
            && c'.startedAt == (if Running(c, now) then c.startedAt else Some(later))
            && c'.conversation == c.conversation && c'.resolvedAt == c.resolvedAt
  {
  }

  /** A release waits for the customer, ends the lease, and keeps who held it and since when. */
  lemma ReleaseEnds(cases: Table, id: CaseId, admin: Admin, now: int, later: int)
    requires id in cases && Refusal(cases[id], admin, now) == Done
    ensures var c, c' := cases[id], After(cases, Release(id, admin, now, later))[id];
            && c'.status == WaitingCustomer && !c'.active && c'.expiresAt == None && c'.endedAt == Some(later)
            && c'.holder == c.holder && c'.startedAt == c.startedAt
            && c'.conversation == c.conversation && c'.resolvedAt == c.resolvedAt
  {
  }

  /** A heartbeat moves the deadline of its holder's running lease to five minutes from now, and nothing else. */
  lemma HeartbeatExtends(cases: Table, id: CaseId, admin: Admin, now: int, later: int)
    requires id in cases
    ensures var c, c' := cases[id], After(cases, Heartbeat(id, admin, now, later))[id];
            c' == if Running(c, now) && c.holder == Some(admin) then c.(expiresAt := Some(later + 300)) else c
  {
  }

  // ---------------------------------------------------------------- answers, messages and closing

  /** An answer waits for the customer under its administrator and withdraws a resolution; the lease's deadline and
      times stay. */
  lemma AnswerTakesOver(cases: Table, step: Step, id: CaseId)
    requires Answers(cases, step, id)
    ensures var c, c' := cases[id], After(cases, step)[id];
            && c'.status == WaitingCustomer && c'.holder == Some(step.admin) && c'.active && c'.resolvedAt == None
            && c'.expiresAt == c.expiresAt && c'.startedAt == c.startedAt && c'.endedAt == c.endedAt
            && c'.conversation == c.conversation
  {
  }

  /** Why a reply is refused, in the order the reasons are tested. */
  lemma ReplyReasons(cases: Table, id: CaseId, admin: Admin, blank: bool, duplicate: bool, now: int)
    ensures var refusal := ReplyRefusal(cases, id, admin, blank, duplicate);
            && (refusal == Invalid <==> id < 1 || admin < 1 || blank)
            && (refusal == Missing <==> id >= 1 && admin >= 1 && !blank && id !in cases)
            && (refusal == CaseClosed <==> id >= 1 && admin >= 1 && !blank && id in cases && Settled(cases[id]))
            && (refusal == Done <==> Answers(cases, Reply(id, admin, blank, duplicate, now), id))
            && (refusal == Duplicate ==> duplicate && Answers(cases, Reply(id, admin, blank, false, now), id))
            && (refusal == Unlinked ==>
                  id in cases && (cases[id].conversation.None? || cases[id].conversation.value < 1))
  {
  }

  /** A message opens the case again unless it is settled, and leaves the lease as it is. */
  lemma MessageOpens(cases: Table, step: Step, id: CaseId)
    requires Writes(cases, step, id)
    ensures var c, c' := cases[id], After(cases, step)[id];
            c' == c.(status := Open, adminUnread := c'.adminUnread, customerUnread := c'.customerUnread)
  {
  }

  /** A row closed at a moment, with its takeover ended. */
  predicate ClosedAt(c: Case, c': Case, status: Status, now: int) {
    c' == c.(status := status, active := false, expiresAt := None, endedAt := Some(now), resolvedAt := Some(now),
             holder := c'.holder)
  }

  /** The end of a conversation closes its cases, settled before or not. */
  lemma CloseCloses(cases: Table, id: CaseId, conversation: int, now: int)
    requires id in cases
    ensures var c, c' := cases[id], After(cases, Close(conversation, now))[id];
            if c.conversation == Some(conversation)
            then ClosedAt(c, c', Closed, now) && c'.holder == c.holder
            else c' == c
  {
  }

  /** A verified customer's listing closes a case that lost its conversation, unless it is settled. */
  lemma ListingCloses(cases: Table, id: CaseId, now: int)
    requires id in cases
    ensures var c, c' := cases[id], After(cases, ListVerified(id, now))[id];
            if !Settled(c) && (c.conversation.None? || c.conversation.value < 1)
            then ClosedAt(c, c', Closed, now) && c'.holder == c.holder
            else c' == c
  {
  }

  /** The mass action to a settled status closes the case under that status. */
  lemma MassActionCloses(cases: Table, id: CaseId, status: Status, admin: Admin, now: int)
    requires id in cases && (status == Resolved || status == Closed)
    ensures var c, c' := cases[id], After(cases, MassStatus(id, status, admin, now))[id];
            ClosedAt(c, c', status, now) && c'.holder == c.holder
  {
  }

  /** The mass action to an open status withdraws a resolution, and takes the case over only when it puts it in
      progress; it leaves the lease alone. */
  lemma MassActionOpens(cases: Table, id: CaseId, status: Status, admin: Admin, now: int)
    requires id in cases && status != Resolved && status != Closed
    ensures var c, c' := cases[id], After(cases, MassStatus(id, status, admin, now))[id];
            && c'.status == status && c'.resolvedAt == None
            && c'.holder == (if status == InProgress then Some(admin) else c.holder)
            && c'.active == c.active && c'.expiresAt == c.expiresAt && c'.startedAt == c.startedAt
            && c'.endedAt == c.endedAt && c'.conversation == c.conversation
  {
  }

  /** Erasing a conversation unlinks its cases and changes nothing else of them. */
  lemma ErasureUnlinks(cases: Table, id: CaseId, conversation: int, now: int)
    requires id in cases
    ensures After(cases, EraseConversation(conversation, now))[id]
         == if cases[id].conversation == Some(conversation) then cases[id].(conversation := None) else cases[id]
  {
  }

  /** What is done to one case by its number leaves every other as it was. */
  lemma OtherCasesAreLeft(cases: Table, step: Step, id: CaseId)
    requires id in cases
    requires step.Claim? || step.Release? || step.Heartbeat? || step.Reply? || step.MarkRead? || step.MassStatus?
             || step.ListVerified?
    requires step.id != id
    ensures After(cases, step)[id] == cases[id]
  {
  }
}
