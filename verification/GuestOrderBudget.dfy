/** How many codes an email is sent, over every run: the rows count per session, the promise is per email. */
module GuestOrderBudget {
  import opened Sums
  import opened GuestOrderVerification

  // ---------------------------------------------------------------- measures of a log

  /** What to count of an email's issued codes: those sent, those sent with their row lost, the sends that refused mails
      made the rows forget, or the balance that the rows still answer for. */
  datatype Measure = Sent | SentLost | Forgotten | Balance

  predicate IssuedTo(e: Event, email: Email) {
    e.Issued? && e.key.email == email
  }

  predicate SentTo(e: Event, email: Email) {
    IssuedTo(e, email) && !e.outcome.Unsent?
  }

  predicate KeptTo(e: Event, email: Email) {
    IssuedTo(e, email) && e.outcome.Kept?
  }

  function Value(outcome: Outcome, measure: Measure): int {
    match measure
    case Sent => if outcome.Unsent? then 0 else 1
    case SentLost => if outcome.Lost? then 1 else 0
    case Forgotten => if outcome.Unsent? then outcome.forgotten else 0
    case Balance => if outcome.Kept? then 1 else if outcome.Lost? then 0 else 0 - outcome.forgotten as int
  }

  /** The measure over an email's codes, in any session, issued in `[low, high]`. */
  function Over(log: seq<Event>, email: Email, measure: Measure, low: int, high: int): int {
    if log == [] then
      0
    else
      var e := log[|log| - 1];
      Over(log[..|log| - 1], email, measure, low, high)
        + if IssuedTo(e, email) && low <= e.at <= high then Value(e.outcome, measure) else 0
  }

  /** The measure in the closed stretch of 900 seconds from `low`. */
  function Window(log: seq<Event>, email: Email, measure: Measure, low: int): int {
    Over(log, email, measure, low, low + SEND_WINDOW)
  }

  /** The balance of one email and session since a time. */
  function KeyBalance(log: seq<Event>, key: Key, low: int): int {
    if log == [] then
      0
    else
      var e := log[|log| - 1];
      KeyBalance(log[..|log| - 1], key, low)
        + if e.Issued? && e.key == key && low <= e.at then Value(e.outcome, Balance) else 0
  }

  lemma AppendOver(log: seq<Event>, e: Event, email: Email, measure: Measure, low: int, high: int)
    ensures Over(log + [e], email, measure, low, high)
         == Over(log, email, measure, low, high)
            + if IssuedTo(e, email) && low <= e.at <= high then Value(e.outcome, measure) else 0
  {
    assert (log + [e])[..|log|] == log;
  }

  lemma AppendKeyBalance(log: seq<Event>, e: Event, key: Key, low: int)
    ensures KeyBalance(log + [e], key, low)
         == KeyBalance(log, key, low)
            + if e.Issued? && e.key == key && low <= e.at then Value(e.outcome, Balance) else 0
  {
    assert (log + [e])[..|log|] == log;
  }

  /** The balance is what was sent, less what was lost or forgotten. */
  lemma {:induction false} BalanceIsSentLess(log: seq<Event>, email: Email, low: int, high: int)
    ensures Over(log, email, Balance, low, high)
         == Over(log, email, Sent, low, high) - Over(log, email, SentLost, low, high)
            - Over(log, email, Forgotten, low, high)
  {
    if log != [] {
      BalanceIsSentLess(log[..|log| - 1], email, low, high);
    }
  }

  /** Past the last issue nothing is left to measure. */
  lemma {:induction false} OverUpToLast(log: seq<Event>, email: Email, measure: Measure, low: int, high: int,
                                        high': int)
    requires forall i :: 0 <= i < |log| && IssuedTo(log[i], email) ==> log[i].at <= high <= high'
    ensures Over(log, email, measure, low, high') == Over(log, email, measure, low, high)
  {
    if log != [] {
      OverUpToLast(log[..|log| - 1], email, measure, low, high, high');
    }
  }

  /** Without a kept send since a time, the balance is not positive. */
  lemma {:induction false} NoLaterKept(log: seq<Event>, key: Key, low: int)
    requires forall i :: 0 <= i < |log| && KeptTo(log[i], key.email) && log[i].key == key ==> log[i].at < low
    ensures KeyBalance(log, key, low) <= 0
  {
    if log != [] {
      NoLaterKept(log[..|log| - 1], key, low);
    }
  }

  /** The balance of an email is that of its sessions, whatever each of them is bounded by. */
  lemma {:induction false} BalanceByKey(log: seq<Event>, email: Email, low: int, high: int, counts: map<Key, int>)
    requires forall i :: 0 <= i < |log| && IssuedTo(log[i], email) ==> log[i].at <= high && log[i].key in counts
    requires forall k :: k in counts ==> k.email == email && KeyBalance(log, k, low) <= counts[k]
    ensures Over(log, email, Balance, low, high) <= Total(counts, Itself)
  {
    if log == [] {
      TotalNonNegative(counts, Itself);
    } else {
      var front, e := log[..|log| - 1], log[|log| - 1];
      if IssuedTo(e, email) && low <= e.at {
        var rest := counts[e.key] - Value(e.outcome, Balance);
        BalanceByKey(front, email, low, high, counts[e.key := rest]);
        TotalUpdate(counts, Itself, e.key, rest);
      } else {
        BalanceByKey(front, email, low, high, counts);
      }
    }
  }

  /** Keys that count nothing change no total. */
  lemma {:induction false} TotalPadded(counts: map<Key, int>, padded: map<Key, int>)
    requires forall k :: k in counts ==> k in padded && padded[k] == counts[k]
    requires forall k :: k in padded && k !in counts ==> padded[k] == 0
    ensures Total(padded, Itself) == Total(counts, Itself)
    decreases |padded|
  {
    if padded != map[] {
      var k :| k in padded;
      TotalRemove(padded, Itself, k);
      if k in counts {
        TotalRemove(counts, Itself, k);
        TotalPadded(counts - {k}, padded - {k});
      } else {
        TotalPadded(counts, padded - {k});
      }
    } else {
      assert counts == map[];
    }
  }

  // ---------------------------------------------------------------- what the rows remember

  /** The time of a key's kept sends. */
  ghost predicate RowRecalls(rows: Table, log: seq<Event>, clock: int, key: Key) {
    if key in rows then
      && rows[key].createdAt <= clock && rows[key].expiresAt == rows[key].createdAt + OTP_TTL
      && KeptBy(log, key, rows[key].createdAt)
    else
      KeptBy(log, key, clock - RESEND_COOLDOWN)
  }

  ghost predicate KeptBy(log: seq<Event>, key: Key, time: int) {
    forall i :: 0 <= i < |log| && KeptTo(log[i], key.email) && log[i].key == key ==> log[i].at <= time
  }

  /** The number of a key's kept sends that are not forgotten. */
  ghost predicate RowCounts(rows: Table, log: seq<Event>, clock: int, key: Key) {
    if key in rows then
      BalanceWithin(log, key, rows[key].createdAt - SEND_WINDOW + 1, rows[key].sendCount)
    else
      BalanceWithin(log, key, clock - SEND_WINDOW, 0)
  }

  ghost predicate BalanceWithin(log: seq<Event>, key: Key, since: int, count: int) {
    forall low: int :: low >= since ==> KeyBalance(log, key, low) <= count
  }

  /** A request in flight: nothing of its email was issued since it read the clock, no row took its place, and what
      passed its checks still holds of the log. */
  ghost predicate AskingTimed(rows: Table, log: seq<Event>, clock: int, a: Asking, email: Email) {
    && a.key.email == email && a.now <= clock && (a.found.None? ==> a.key !in rows)
    && (forall i :: 0 <= i < |log| && IssuedTo(log[i], email) ==> log[i].at <= a.now)
    && (forall i :: 0 <= i < |log| && KeptTo(log[i], email) ==> log[i].at <= a.now - RESEND_COOLDOWN)
  }

  ghost predicate AskingCounted(log: seq<Event>, a: Asking, email: Email) {
    && BalanceWithin(log, a.key, a.now - SEND_WINDOW, Counting(a.found, a.now))
    && BalanceWithin(log, a.key, a.now - SEND_WINDOW + 1, Challenge(a.found, a.code, a.now).sendCount - 1)
    && (forall low: int :: low >= a.now - SEND_WINDOW ==> Over(log, email, Balance, low, a.now) < MAX_SENDS)
  }

  ghost predicate Recalled(s: State, email: Email) {
    && (forall e :: e in s.asking ==> s.asking[e].key.email == e)
    && (forall k: Key :: k.email == email ==> RowRecalls(s.rows, s.log, s.clock, k))
    && (forall i :: 0 <= i < |s.log| && IssuedTo(s.log[i], email) ==> s.log[i].at <= s.clock)
    && (email in s.asking ==> AskingTimed(s.rows, s.log, s.clock, s.asking[email], email))
  }

  ghost predicate Counted(s: State, email: Email) {
    && (forall k: Key :: k.email == email ==> RowCounts(s.rows, s.log, s.clock, k))
    && (email in s.asking ==> AskingCounted(s.log, s.asking[email], email))
  }

  ghost predicate Spaced(log: seq<Event>, email: Email) {
    forall i, j :: 0 <= i < j < |log| && KeptTo(log[i], email) && SentTo(log[j], email) ==>
      log[i].at + RESEND_COOLDOWN <= log[j].at
  }

  ghost predicate Budgeted(log: seq<Event>, email: Email) {
    forall low: int :: Window(log, email, Balance, low) <= MAX_SENDS
  }

  // ---------------------------------------------------------------- the checks

  /** A request that passes both checks finds every earlier kept send at least a cooldown old. */
  lemma EarlierSendsCooled(s: State, email: Email, now: int, i: nat)
    requires Recalled(s, email) && s.clock <= now && WithinBudget(s.rows, email, now)
    requires i < |s.log| && KeptTo(s.log[i], email)
    ensures s.log[i].at <= now - RESEND_COOLDOWN
  {
    var k := s.log[i].key;
    assert RowRecalls(s.rows, s.log, s.clock, k);
    if k in s.rows && s.rows[k].createdAt >= now - SEND_WINDOW {
      assert k in Recent(s.rows, email, now - SEND_WINDOW);
    }
  }

  /** What a key's row answers for, seen from a request that passed the checks. */
  lemma KeyCounted(s: State, key: Key, now: int)
    requires Recalled(s, key.email) && Counted(s, key.email) && s.clock <= now && WithinBudget(s.rows, key.email, now)
    ensures BalanceWithin(s.log, key, now - SEND_WINDOW, Counting(Find(s.rows, key), now))
  {
    assert RowRecalls(s.rows, s.log, s.clock, key) && RowCounts(s.rows, s.log, s.clock, key);
    forall low: int | low >= now - SEND_WINDOW ensures KeyBalance(s.log, key, low) <= Counting(Find(s.rows, key), now) {
      if key in s.rows {
        if s.rows[key].createdAt >= now - SEND_WINDOW {
          assert key in Recent(s.rows, key.email, now - SEND_WINDOW);
        } else {
          NoLaterKept(s.log, key, low);
        }
      }
    }
  }

  /** The challenge that a request will write counts its own send and what its key still answers for. */
  lemma ChallengeCounted(s: State, key: Key, now: int, code: Code)
    requires Recalled(s, key.email) && Counted(s, key.email) && s.clock <= now && WithinBudget(s.rows, key.email, now)
    ensures BalanceWithin(s.log, key, now - SEND_WINDOW + 1, Challenge(Find(s.rows, key), code, now).sendCount - 1)
  {
    KeyCounted(s, key, now);
    assert RowRecalls(s.rows, s.log, s.clock, key);
    forall low: int | low >= now - SEND_WINDOW + 1
      ensures KeyBalance(s.log, key, low) <= Challenge(Find(s.rows, key), code, now).sendCount - 1
    {
      if key in s.rows && s.rows[key].createdAt == now - SEND_WINDOW {
        NoLaterKept(s.log, key, low);
      }
    }
  }

  ghost function KeysOf(log: seq<Event>, email: Email): set<Key> {
    set i | 0 <= i < |log| && IssuedTo(log[i], email) :: log[i].key
  }

  /** A request that passes both checks finds a balance of at most two in any stretch behind it. */
  lemma RecentSendsCounted(s: State, email: Email, now: int, low: int)
    requires Recalled(s, email) && Counted(s, email) && s.clock <= now && WithinBudget(s.rows, email, now)
    requires low >= now - SEND_WINDOW
    ensures Over(s.log, email, Balance, low, now) < MAX_SENDS
  {
    var recent := Recent(s.rows, email, now - SEND_WINDOW);
    var padded := map k | k in KeysOf(s.log, email) + recent.Keys :: if k in recent then recent[k] else 0;
    forall k | k in padded ensures k.email == email && KeyBalance(s.log, k, low) <= padded[k] {
      KeyCounted(s, k, now);
    }
    BalanceByKey(s.log, email, low, now, padded);
    TotalPadded(recent, padded);
  }

  // ---------------------------------------------------------------- every step keeps what is remembered

  lemma BeginKeepsRecalled(s: State, key: Key, now: int, code: Code, email: Email)
    requires Recalled(s, email) && Possible(s, Begin(key, now, code))
    ensures Recalled(Begun(s, key, now, code), email)
  {
    var s' := Begun(s, key, now, code);
    forall k: Key | k.email == email ensures RowRecalls(s'.rows, s'.log, now, k) {
      assert RowRecalls(s.rows, s.log, s.clock, k);
    }
    if key.email == email && WithinBudget(s.rows, email, now) {
      forall i | 0 <= i < |s.log| && KeptTo(s.log[i], email) ensures s.log[i].at <= now - RESEND_COOLDOWN {
        EarlierSendsCooled(s, email, now, i);
      }
    }
  }

  lemma BeginKeepsCounted(s: State, key: Key, now: int, code: Code, email: Email)
    requires Recalled(s, email) && Counted(s, email) && Possible(s, Begin(key, now, code))
    ensures Counted(Begun(s, key, now, code), email)
  {
    forall k: Key | k.email == email ensures RowCounts(s.rows, s.log, now, k) {
      assert RowCounts(s.rows, s.log, s.clock, k);
    }
    if key.email == email && WithinBudget(s.rows, email, now) {
      KeyCounted(s, key, now);
      ChallengeCounted(s, key, now, code);
      forall low: int | low >= now - SEND_WINDOW ensures Over(s.log, email, Balance, low, now) < MAX_SENDS {
        RecentSendsCounted(s, email, now, low);
      }
    }
  }

  lemma CleanKeeps(s: State, now: int, email: Email)
    requires Recalled(s, email) && s.clock <= now
    ensures Recalled(After(s, Clean(now)), email)
    ensures Counted(s, email) ==> Counted(After(s, Clean(now)), email)
  {
    var s' := After(s, Clean(now));
    forall k: Key | k.email == email ensures RowRecalls(s'.rows, s'.log, now, k) {
      assert RowRecalls(s.rows, s.log, s.clock, k);
    }
    if Counted(s, email) {
      forall k: Key | k.email == email ensures RowCounts(s'.rows, s'.log, now, k) {
        assert RowRecalls(s.rows, s.log, s.clock, k) && RowCounts(s.rows, s.log, s.clock, k);
        if k in s.rows && k !in s'.rows {
          forall low: int | low >= now - SEND_WINDOW ensures KeyBalance(s.log, k, low) <= 0 {
            NoLaterKept(s.log, k, low);
          }
        }
      }
    }
  }

  // A comparison leaves every measure and every row's count and times as they were.

  lemma TryKeepsRecalled(s: State, step: Step, email: Email)
    requires Recalled(s, email) && Possible(s, step) && step.Try?
    ensures Recalled(After(s, step), email)
  {
    var s' := After(s, step);
    forall k: Key | k.email == email ensures RowRecalls(s'.rows, s'.log, s'.clock, k) {
      assert RowRecalls(s.rows, s.log, s.clock, k);
      ComparisonKeepsTimes(s, step, k);
    }
  }

  lemma ComparisonKeepsTimes(s: State, step: Step, k: Key)
    requires RowRecalls(s.rows, s.log, s.clock, k) && Possible(s, step) && step.Try?
    ensures RowRecalls(After(s, step).rows, After(s, step).log, After(s, step).clock, k)
  {
  }

  lemma ComparisonChangesNoBalance(log: seq<Event>, e: Event, email: Email)
    requires e.Compared?
    ensures forall k: Key, low: int :: KeyBalance(log + [e], k, low) == KeyBalance(log, k, low)
    ensures forall low: int, high: int ::
              Over(log + [e], email, Balance, low, high) == Over(log, email, Balance, low, high)
  {
    forall k: Key, low: int ensures KeyBalance(log + [e], k, low) == KeyBalance(log, k, low) {
      AppendKeyBalance(log, e, k, low);
    }
    forall low: int, high: int
      ensures Over(log + [e], email, Balance, low, high) == Over(log, email, Balance, low, high)
    {
      AppendOver(log, e, email, Balance, low, high);
    }
  }

  /** A compared row keeps its count and its times. */
  lemma TryKeepsRowCount(s: State, step: Step, k: Key)
    requires RowCounts(s.rows, s.log, s.clock, k) && Possible(s, step) && step.Try?
    requires forall low: int :: KeyBalance(After(s, step).log, k, low) == KeyBalance(s.log, k, low)
    ensures RowCounts(After(s, step).rows, After(s, step).log, After(s, step).clock, k)
  {
    var s' := After(s, step);
    assert k in s.rows <==> k in s'.rows;
    if k in s.rows {
      assert s'.rows[k].createdAt == s.rows[k].createdAt && s'.rows[k].sendCount == s.rows[k].sendCount;
    }
  }

  lemma TryKeepsCounted(s: State, step: Step, email: Email)
    requires Recalled(s, email) && Counted(s, email) && Possible(s, step) && step.Try?
    ensures Counted(After(s, step), email)
  {
    var s' := After(s, step);
    if s'.log != s.log {
      ComparisonChangesNoBalance(s.log, s'.log[|s.log|], email);
    }
    forall k: Key | k.email == email ensures RowCounts(s'.rows, s'.log, s'.clock, k) {
      assert RowCounts(s.rows, s.log, s.clock, k);
      TryKeepsRowCount(s, step, k);
    }
  }

  /** An issue of another email is nothing to this one. */
  lemma OtherIssue(log: seq<Event>, e: Event, email: Email)
    requires e.Issued? && e.key.email != email
    ensures forall k: Key, low: int :: k.email == email ==> KeyBalance(log + [e], k, low) == KeyBalance(log, k, low)
    ensures forall m: Measure, low: int, high: int ::
              Over(log + [e], email, m, low, high) == Over(log, email, m, low, high)
  {
    forall k: Key, low: int | k.email == email ensures KeyBalance(log + [e], k, low) == KeyBalance(log, k, low) {
      AppendKeyBalance(log, e, k, low);
    }
    forall m: Measure, low: int, high: int
      ensures Over(log + [e], email, m, low, high) == Over(log, email, m, low, high)
    {
      AppendOver(log, e, email, m, low, high);
    }
  }

  lemma FinishKeepsRecalled(s: State, from: Email, ending: Ending, email: Email)
    requires Recalled(s, email) && from in s.asking
    ensures Recalled(Ended(s, from, ending), email)
  {
    var a, s' := s.asking[from], Ended(s, from, ending);
    forall k: Key | k.email == email ensures RowRecalls(s'.rows, s'.log, s'.clock, k) {
      assert RowRecalls(s.rows, s.log, s.clock, k);
    }
  }

  /** The key of a finished request, by how it ended. */
  lemma FinishedKeyCounted(s: State, email: Email, ending: Ending)
    requires Recalled(s, email) && Counted(s, email) && email in s.asking
    ensures RowCounts(Ended(s, email, ending).rows, Ended(s, email, ending).log, s.clock, s.asking[email].key)
  {
    var a, s' := s.asking[email], Ended(s, email, ending);
    assert RowRecalls(s.rows, s.log, s.clock, a.key) && RowCounts(s.rows, s.log, s.clock, a.key);
    var since := if a.key in s'.rows then s'.rows[a.key].createdAt - SEND_WINDOW + 1 else s.clock - SEND_WINDOW;
    var count := if a.key in s'.rows then s'.rows[a.key].sendCount else 0;
    forall low: int | low >= since ensures KeyBalance(s'.log, a.key, low) <= count {
      if |s'.log| > |s.log| {
        AppendKeyBalance(s.log, s'.log[|s.log|], a.key, low);
      }
      if low > a.now {
        NoLaterKept(s.log, a.key, low);
      }
    }
  }

  lemma FinishKeepsCounted(s: State, from: Email, ending: Ending, email: Email)
    requires Recalled(s, email) && Counted(s, email) && from in s.asking
    ensures Counted(Ended(s, from, ending), email)
  {
    var a, s' := s.asking[from], Ended(s, from, ending);
    if from == email {
      FinishedKeyCounted(s, email, ending);
    } else if |s'.log| > |s.log| {
      OtherIssue(s.log, s'.log[|s.log|], email);
    }
    forall k: Key | k.email == email && k != a.key ensures RowCounts(s'.rows, s'.log, s'.clock, k) {
      assert RowCounts(s.rows, s.log, s.clock, k);
      if |s'.log| > |s.log| {
        forall low: int ensures KeyBalance(s'.log, k, low) == KeyBalance(s.log, k, low) {
          AppendKeyBalance(s.log, s'.log[|s.log|], k, low);
        }
      }
    }
  }

  // ---------------------------------------------------------------- every step keeps the promise

  lemma FinishKeepsSpaced(s: State, from: Email, ending: Ending, email: Email)
    requires Recalled(s, email) && Spaced(s.log, email) && from in s.asking
    ensures Spaced(Ended(s, from, ending).log, email)
  {
  }

  lemma FinishKeepsBudget(s: State, from: Email, ending: Ending, email: Email)
    requires Recalled(s, email) && Counted(s, email) && Budgeted(s.log, email) && from in s.asking
    ensures Budgeted(Ended(s, from, ending).log, email)
  {
    var a, s' := s.asking[from], Ended(s, from, ending);
    forall low: int ensures Window(s'.log, email, Balance, low) <= MAX_SENDS {
      assert Window(s.log, email, Balance, low) <= MAX_SENDS;
      if |s'.log| > |s.log| {
        AppendOver(s.log, s'.log[|s.log|], email, Balance, low, low + SEND_WINDOW);
        if from == email && low <= a.now <= low + SEND_WINDOW {
          OverUpToLast(s.log, email, Balance, low, a.now, low + SEND_WINDOW);
        }
      }
    }
  }

  lemma ComparisonKeepsBudget(log: seq<Event>, e: Event, email: Email)
    requires Budgeted(log, email) && e.Compared?
    ensures Budgeted(log + [e], email)
  {
    forall low: int ensures Window(log + [e], email, Balance, low) <= MAX_SENDS {
      assert Window(log, email, Balance, low) <= MAX_SENDS;
      AppendOver(log, e, email, Balance, low, low + SEND_WINDOW);
    }
  }

  ghost predicate Promised(s: State, email: Email) {
    Recalled(s, email) && Counted(s, email) && Spaced(s.log, email) && Budgeted(s.log, email)
  }

  lemma StepKeepsPromise(s: State, step: Step, email: Email)
    requires Promised(s, email) && Possible(s, step)
    ensures Promised(After(s, step), email)
  {
    match step {
      case Begin(key, now, code) =>
        BeginKeepsRecalled(s, key, now, code, email);
        BeginKeepsCounted(s, key, now, code, email);
      case Clean(now) => CleanKeeps(s, now, email);
      case Try(_, _, _, _, _, _) =>
        TryKeepsRecalled(s, step, email);
        TryKeepsCounted(s, step, email);
        if |After(s, step).log| > |s.log| {
          ComparisonKeepsBudget(s.log, After(s, step).log[|s.log|], email);
        }
      case Finish(from, ending) =>
        FinishKeepsRecalled(s, from, ending, email);
        FinishKeepsCounted(s, from, ending, email);
        FinishKeepsSpaced(s, from, ending, email);
        FinishKeepsBudget(s, from, ending, email);
    }
  }

  lemma {:induction false} RunKeepsPromise(start: int, steps: seq<Step>, email: Email)
    requires Run(start, steps)
    ensures Promised(Reached(start, steps), email)
  {
    if steps != [] {
      var front := steps[..|steps| - 1];
      RunKeepsPromise(start, front, email);
      StepKeepsPromise(Reached(start, front), steps[|steps| - 1], email);
    }
  }

  /** Whatever sessions ask, whenever the cleaner runs and wherever a request dies, an email is sent in any closed
      stretch of 900 seconds at most three codes, plus those whose row the cleaner deleted under the request, plus those
      that rows deleted after refused mails still counted. */
  lemma SendBudget(start: int, steps: seq<Step>, email: Email, low: int)
    requires Run(start, steps)
    ensures var log := Reached(start, steps).log;
            Window(log, email, Sent, low)
            <= MAX_SENDS + Window(log, email, SentLost, low) + Window(log, email, Forgotten, low)
  {
    RunKeepsPromise(start, steps, email);
    BalanceIsSentLess(Reached(start, steps).log, email, low, low + SEND_WINDOW);
    assert Window(Reached(start, steps).log, email, Balance, low) <= MAX_SENDS;
  }

  /** No code of the email was sent under a vanished row, and no refused mail deleted a row that still counted. */
  ghost predicate KeptItsRows(log: seq<Event>, email: Email) {
    forall i :: 0 <= i < |log| && IssuedTo(log[i], email) ==> log[i].outcome.Kept? || log[i].outcome == Unsent(0)
  }

  lemma {:induction false} NothingLost(log: seq<Event>, email: Email, low: int, high: int)
    requires KeptItsRows(log, email)
    ensures Over(log, email, SentLost, low, high) == 0 && Over(log, email, Forgotten, low, high) == 0
  {
    if log != [] {
      NothingLost(log[..|log| - 1], email, low, high);
    }
  }

  /** So three is the limit as long as neither happens. */
  lemma ThreeInTheWindow(start: int, steps: seq<Step>, email: Email, low: int)
    requires Run(start, steps) && KeptItsRows(Reached(start, steps).log, email)
    ensures Window(Reached(start, steps).log, email, Sent, low) <= MAX_SENDS
  {
    SendBudget(start, steps, email, low);
    NothingLost(Reached(start, steps).log, email, low, low + SEND_WINDOW);
  }

  /** A code sent to an email follows every earlier one by at least 60 seconds, except one whose row vanished. */
  lemma SendsAreSpaced(start: int, steps: seq<Step>, email: Email, i: nat, j: nat)
    requires Run(start, steps) && i < j < |Reached(start, steps).log|
    requires SentTo(Reached(start, steps).log[i], email) && SentTo(Reached(start, steps).log[j], email)
    ensures Reached(start, steps).log[i].outcome.Lost?
         || Reached(start, steps).log[i].at + RESEND_COOLDOWN <= Reached(start, steps).log[j].at
  {
    RunKeepsPromise(start, steps, email);
  }

  // ---------------------------------------------------------------- what refused mails cost

  /** The kept sends among those counted. */
  function KeptSends(log: seq<Event>, email: Email, low: int, high: int): int {
    Over(log, email, Sent, low, high) - Over(log, email, SentLost, low, high)
  }

  /** Spaced sends in a stretch that starts at `low` reach as far as their number makes them. */
  lemma {:induction false} SpacedSendsReach(log: seq<Event>, email: Email, low: int, high: int) returns (last: int)
    requires Spaced(log, email) && low <= high
    ensures low <= last <= high && 0 <= KeptSends(log, email, low, high)
    ensures RESEND_COOLDOWN * (KeptSends(log, email, low, high) - 1) <= last - low
    ensures KeptSends(log, email, low, high) > 0 ==>
              exists i :: 0 <= i < |log| && KeptTo(log[i], email) && log[i].at == last
  {
    if log == [] {
      last := low;
    } else {
      var front, e := log[..|log| - 1], log[|log| - 1];
      last := SpacedSendsReach(front, email, low, high);
      if KeptSends(front, email, low, high) > 0 {
        var i :| 0 <= i < |front| && KeptTo(front[i], email) && front[i].at == last;
        assert log[i] == front[i];
      }
      if KeptTo(e, email) && low <= e.at <= high {
        last := e.at;
        assert log[|log| - 1] == e;
      }
    }
  }

  /** Over every run, refused mails included, at most sixteen codes reach an email in 900 seconds, plus those whose row
      vanished: the cooldown is what remains of the budget. */
  lemma SendsEvenWithRefusals(start: int, steps: seq<Step>, email: Email, low: int)
    requires Run(start, steps)
    ensures var log := Reached(start, steps).log;
            Window(log, email, Sent, low) <= SEND_WINDOW / RESEND_COOLDOWN + 1 + Window(log, email, SentLost, low)
  {
    RunKeepsPromise(start, steps, email);
    var last := SpacedSendsReach(Reached(start, steps).log, email, low, low + SEND_WINDOW);
  }
}
