/** The code that a challenge answers to: in every run the one issued last, and so the one that was mailed last. */
module GuestOrderCodes {
  import opened Sums
  import opened GuestOrderVerification

  /** The challenge last issued under a key. */
  function LastIssued(log: seq<Event>, key: Key): (last: Option<Event>)
    ensures last.Some? ==> last.value.Issued? && last.value.key == key && last.value in log
  {
    if log == [] then None
    else if log[|log| - 1].Issued? && log[|log| - 1].key == key then Some(log[|log| - 1])
    else LastIssued(log[..|log| - 1], key)
  }

  lemma AppendIssued(log: seq<Event>, e: Event, key: Key)
    ensures LastIssued(log + [e], key) == if e.Issued? && e.key == key then Some(e) else LastIssued(log, key)
  {
    assert (log + [e])[..|log|] == log;
  }

  /** A row holds the code and the times of the challenge issued last; a code sent with its row written has that row for
      ten minutes and a day. */
  ghost predicate RowHolds(s: State, key: Key) {
    match LastIssued(s.log, key)
    case None => key !in s.rows
    case Some(e) =>
      && e.at <= s.clock
      && (key in s.rows ==> var row := s.rows[key];
                            row.code == e.code && row.createdAt == e.at && row.expiresAt == e.at + 600)
      && (e.outcome.Kept? && key !in s.rows ==> e.at + 600 + 86400 < s.clock)
      && (e.outcome.Lost? ==> key !in s.rows)
  }

  ghost predicate AskingHolds(s: State) {
    forall email :: email in s.asking ==>
      s.asking[email].key.email == email && s.asking[email].now <= s.clock
  }

  ghost predicate Held(s: State) {
    AskingHolds(s) && forall k: Key :: RowHolds(s, k)
  }

  lemma BeginHolds(s: State, key: Key, now: int, code: Code)
    requires Held(s) && s.clock <= now
    ensures Held(Begun(s, key, now, code))
  {
    forall k: Key ensures RowHolds(Begun(s, key, now, code), k) {
      assert RowHolds(s, k);
    }
  }

  lemma FinishHolds(s: State, email: Email, ending: Ending)
    requires Held(s) && email in s.asking
    ensures Held(Ended(s, email, ending))
  {
    var s' := Ended(s, email, ending);
    forall k: Key ensures RowHolds(s', k) {
      assert RowHolds(s, k);
      if |s'.log| > |s.log| {
        AppendIssued(s.log, s'.log[|s.log|], k);
      }
    }
  }

  lemma TryHolds(s: State, step: Step)
    requires Held(s) && step.Try? && Possible(s, step)
    ensures Held(After(s, step))
  {
    var s' := After(s, step);
    forall k: Key ensures RowHolds(s', k) {
      assert RowHolds(s, k);
      if |s'.log| > |s.log| {
        AppendIssued(s.log, s'.log[|s.log|], k);
      }
    }
  }

  lemma CleanHolds(s: State, now: int)
    requires Held(s) && s.clock <= now
    ensures Held(After(s, Clean(now)))
  {
    forall k: Key ensures RowHolds(After(s, Clean(now)), k) {
      assert RowHolds(s, k);
    }
  }

  lemma {:induction false} RunHolds(start: int, steps: seq<Step>)
    requires Run(start, steps)
    ensures Held(Reached(start, steps))
  {
    if steps != [] {
      var front, step := steps[..|steps| - 1], steps[|steps| - 1];
      RunHolds(start, front);
      var s := Reached(start, front);
      match step {
        case Begin(key, now, code) => BeginHolds(s, key, now, code);
        case Finish(email, ending) => FinishHolds(s, email, ending);
        case Try(_, _, _, _, _, _) => TryHolds(s, step);
        case Clean(now) => CleanHolds(s, now);
      }
    }
  }

  // ---------------------------------------------------------------- what wins

  /** An event of a log that agrees with the challenge issued last before it: a comparison is won exactly by its code.
      */
  ghost predicate WonByLastCode(log: seq<Event>, i: nat)
    requires i < |log|
  {
    log[i].Compared? ==>
      var last := LastIssued(log[..i], log[i].key);
      last.Some? && (log[i].granted.Some? <==> log[i].code == last.value.code)
  }

  lemma StepWonByLastCode(start: int, steps: seq<Step>, step: Step)
    requires Run(start, steps) && Possible(Reached(start, steps), step)
    ensures var log, log' := Reached(start, steps).log, After(Reached(start, steps), step).log;
            && log <= log' && |log'| <= |log| + 1
            && (|log'| > |log| ==> WonByLastCode(log', |log|))
  {
    RunHolds(start, steps);
    var s := Reached(start, steps);
    var s' := After(s, step);
    assert s'.log[..|s.log|] == s.log;
    if step.Try? {
      assert RowHolds(s, step.key);
    }
  }

  /** In every run, every comparison is made against the code of the challenge issued last under its key, and is won
      exactly when it brings that code. */
  lemma {:induction false} LastCodeWins(start: int, steps: seq<Step>, i: nat)
    requires Run(start, steps) && i < |Reached(start, steps).log|
    ensures WonByLastCode(Reached(start, steps).log, i)
  {
    if steps != [] {
      var front := steps[..|steps| - 1];
      var log, log' := Reached(start, front).log, Reached(start, steps).log;
      StepWonByLastCode(start, front, steps[|steps| - 1]);
      if i < |log| {
        LastCodeWins(start, front, i);
        assert log'[..i] == log[..i] && log'[i] == log[i];
      }
    }
  }

  /** A trial as its outcome shows in the log: nothing compared, lost, or won. */
  ghost predicate WonTrial(s: State, step: Step)
    requires step.Try?
  {
    After(s, step).log == s.log + [Compared(step.key, step.grantedAt, step.code, Some(step.token))]
  }

  ghost predicate LostTrial(s: State, step: Step)
    requires step.Try?
  {
    After(s, step).log == s.log + [Compared(step.key, step.now, step.code, None)]
  }

  /** After a code that was sent with its row written, a trial in the ten minutes that follow, with fewer than five
      comparisons made and none won, is won by that code and lost by any other; every later trial compares nothing. */
  lemma SentCodeWins(start: int, steps: seq<Step>, step: Step)
    requires Run(start, steps) && step.Try? && Possible(Reached(start, steps), step)
    requires LastIssued(Reached(start, steps).log, step.key).Some?
    requires LastIssued(Reached(start, steps).log, step.key).value.outcome.Kept?
    ensures var s := Reached(start, steps);
            var sent := LastIssued(s.log, step.key).value;
            if step.now <= sent.at + 600 && Comparisons(s.log, step.key) < 5 && Wins(s.log, step.key) == 0 then
              if step.code == sent.code then WonTrial(s, step) else LostTrial(s, step)
            else
              After(s, step) == s.(clock := step.now)
  {
    var s := Reached(start, steps);
    RunHolds(start, steps);
    RunKeepsUsed(start, steps);
    assert RowHolds(s, step.key) && RowUse(s, step.key);
  }

  /** A won trial opens the email's orders to its token for 24 hours from its grant. */
  lemma WonTrialOpens(start: int, steps: seq<Step>, step: Step, now: int)
    requires Run(start, steps) && step.Try? && Possible(Reached(start, steps), step)
    requires WonTrial(Reached(start, steps), step)
    ensures HasAccess(After(Reached(start, steps), step).rows, step.token, step.key.session, step.key.email, now)
      <==> now <= step.grantedAt + 86400
  {
    var s := Reached(start, steps);
    assert |After(s, step).log| == |s.log| + 1 && After(s, step).log[|s.log|].granted == Some(step.token);
  }

  /** The code that a request mails is the one that then wins, whatever code the email and session had before. */
  lemma MailedCodeWins(start: int, steps: seq<Step>, email: Email, token: Token, now: int, grantedAt: int,
                       verifiedAt: int)
    requires Run(start, steps) && email in Reached(start, steps).asking
    requires !Vanished(Reached(start, steps).rows, Reached(start, steps).asking[email])
    requires Reached(start, steps).clock <= now <= grantedAt <= verifiedAt
    requires now <= Reached(start, steps).asking[email].now + 600 && FreshToken(Reached(start, steps).log, token)
    ensures var s, a := Reached(start, steps), Reached(start, steps).asking[email];
            var mailed := After(s, Finish(email, Mailed));
            && mailed.log == s.log + [Issued(a.key, a.now, a.code, Kept)]
            && WonTrial(mailed, Try(a.key, a.code, token, now, grantedAt, verifiedAt))
  {
    var s, a := Reached(start, steps), Reached(start, steps).asking[email];
    var step := Try(a.key, a.code, token, now, grantedAt, verifiedAt);
    RunHolds(start, steps);
    ExtendRun(start, steps, Finish(email, Mailed));
    AppendIssued(s.log, Issued(a.key, a.now, a.code, Kept), a.key);
    AppendEvent(s.log, Issued(a.key, a.now, a.code, Kept), a.key);
    SentCodeWins(start, steps + [Finish(email, Mailed)], step);
  }

  /** The challenge a request writes: its own code, for ten minutes, with no trial and no access; it counts on from
      the row that was read when that is less than 900 seconds old, and from one otherwise. */
  function Written(a: Asking): Row {
    var recent := a.found.Some? && a.now - a.found.value.createdAt < 900;
    Row(a.code, if recent then a.found.value.sendCount + 1 else 1, 0, a.now + 600, a.now, None)
  }

  /** How a request ends: a mailed code leaves its challenge, unless the row that was read is gone; a refused one
      leaves no row, and forgets what that row counted in the last 900 seconds; a request that dies leaves what it had
      written. */
  lemma RequestsEnd(s: State, email: Email, ending: Ending)
    requires email in s.asking
    ensures var a, s' := s.asking[email], After(s, Finish(email, ending));
            var gone := a.found.Some? && a.key !in s.rows;
            var rows := if gone then s.rows else s.rows[a.key := Written(a)];
            var recent := a.found.Some? && a.now - a.found.value.createdAt <= 900;
            var counted := if recent then a.found.value.sendCount else 0;
            && s'.asking == s.asking - {email} && s'.clock == s.clock
            && s'.rows == (match ending
                           case Mailed => rows
                           case Refused => rows - {a.key}
                           case DiedUnsaved => s.rows
                           case DiedUnmailed => rows)
            && s'.log == s.log + (match ending
                                  case Mailed => [Issued(a.key, a.now, a.code, if gone then Lost else Kept)]
                                  case Refused => [Issued(a.key, a.now, a.code, Unsent(counted))]
                                  case DiedUnsaved => []
                                  case DiedUnmailed => [Issued(a.key, a.now, a.code, Unsent(0))])
  {
    assert s.log + [] == s.log;
  }

  /** The cleaner takes exactly the rows whose code ran out more than a day ago and whose access, if any, did too. */
  lemma CleanerTakesOldRows(s: State, now: int, key: Key)
    requires key in s.rows
    ensures var row, s' := s.rows[key], After(s, Clean(now));
            && (key !in s'.rows <==> && row.expiresAt < now - 86400
                                     && (row.access.Some? ==> row.access.value.expiresAt < now - 86400))
            && (key in s'.rows ==> s'.rows[key] == row) && s'.log == s.log && s'.asking == s.asking
  {
  }

  /** A request, a trial and a pass of the cleaner each move the clock to their own reading. */
  lemma StepsReadTheClock(s: State, step: Step)
    requires !step.Finish?
    ensures After(s, step).clock == step.now
  {
  }

  // ---------------------------------------------------------------- who is served

  /** An email that was issued no code in the last 900 seconds is served, whatever happened to it before. */
  lemma QuietEmailIsServed(start: int, steps: seq<Step>, email: Email, now: int)
    requires Run(start, steps) && now >= 60
    requires forall i :: 0 <= i < |Reached(start, steps).log| ==>
               var e := Reached(start, steps).log[i];
               e.Issued? && e.key.email == email ==> e.at < now - 900
    ensures WithinBudget(Reached(start, steps).rows, email, now)
  {
    var s := Reached(start, steps);
    RunHolds(start, steps);
    forall k | k in s.rows && k.email == email ensures s.rows[k].createdAt < now - 900 {
      assert RowHolds(s, k);
    }
    assert Recent(s.rows, email, now - SEND_WINDOW) == map[];
  }

  /** An email that one recent code was sent to, in a session without an earlier one, is served again once a minute has
      passed, and not before. */
  lemma ServedAgainAfterAMinute(rows: Table, email: Email, key: Key, now: int)
    requires key in rows && key.email == email && rows[key].sendCount < 3 && rows[key].createdAt >= now - 900
    requires forall k :: k in rows && k.email == email && k != key ==> rows[k].createdAt < now - 900
    ensures WithinBudget(rows, email, now) <==> rows[key].createdAt <= now - 60
  {
    var recent := Recent(rows, email, now - SEND_WINDOW);
    assert recent == map[key := rows[key].sendCount];
    TotalRemove(recent, Itself, key);
    assert recent - {key} == map[];
  }

  /** Three recent sends in all, in whatever sessions, refuse the next. */
  lemma ThreeSendsRefuse(rows: Table, email: Email, keys: set<Key>, now: int)
    requires forall k :: k in keys ==> k in rows && k.email == email && rows[k].createdAt >= now - 900
    requires |keys| >= 3 && forall k :: k in rows ==> rows[k].sendCount >= 1
    ensures !WithinBudget(rows, email, now)
  {
    var recent := Recent(rows, email, now - SEND_WINDOW);
    assert keys <= recent.Keys;
    TotalAtLeastKeys(recent, keys);
  }

  lemma {:induction false} TotalAtLeastKeys(counts: map<Key, int>, keys: set<Key>)
    requires keys <= counts.Keys && forall k :: k in counts ==> counts[k] >= 1
    ensures Total(counts, Itself) >= |keys|
    decreases |keys|
  {
    if keys == {} {
      TotalNonNegative(counts, Itself);
    } else {
      var k :| k in keys;
      TotalRemove(counts, Itself, k);
      TotalAtLeastKeys(counts - {k}, keys - {k});
    }
  }
}
