/** The runs that show what the send budget's two losses cost: mails refused after their row was read, and rows deleted
    by the cleaner under a request. */
module GuestOrderLosses {
  import opened Sums
  import opened GuestOrderVerification
  import opened GuestOrderBudget

  // ---------------------------------------------------------------- one session at a time

  /** Nothing in flight, and at most the one row, with its count and its time. */
  ghost predicate SoleRow(s: State, key: Key, count: nat, at: int) {
    && s.clock == at && s.asking == map[]
    && if count == 0 then s.rows == map[] else s.rows.Keys == {key} && FreshRow(s.rows[key], count, at)
  }

  predicate FreshRow(row: Row, count: nat, at: int) {
    row.sendCount == count && row.createdAt == at && row.expiresAt == at + OTP_TTL && row.access.None?
  }

  lemma RowWithinBudget(key: Key, row: Row, now: int)
    requires row.createdAt <= now - RESEND_COOLDOWN && now >= RESEND_COOLDOWN
    requires row.sendCount < MAX_SENDS || row.createdAt < now - SEND_WINDOW
    ensures WithinBudget(map[key := row], key.email, now)
  {
    var recent := Recent(map[key := row], key.email, now - SEND_WINDOW);
    if key in recent {
      assert recent == map[key := row.sendCount];
      TotalRemove(recent, Itself, key);
      assert recent - {key} == map[];
    } else {
      assert recent == map[];
    }
  }

  lemma SoleRowWithinBudget(s: State, key: Key, count: nat, before: int, now: int)
    requires SoleRow(s, key, count, before) && count < MAX_SENDS && now >= RESEND_COOLDOWN
    requires count > 0 ==> before + RESEND_COOLDOWN <= now
    ensures WithinBudget(s.rows, key.email, now)
  {
    if count > 0 {
      assert s.rows == map[key := s.rows[key]];
      RowWithinBudget(key, s.rows[key], now);
    } else {
      assert Recent(s.rows, key.email, now - SEND_WINDOW) == map[];
    }
  }

  /** A request that nothing interrupts. */
  function Asks(key: Key, now: int, code: Code, ending: Ending): seq<Step> {
    [Begin(key, now, code), Finish(key.email, ending)]
  }

  lemma AskedState(s: State, key: Key, count: nat, before: int, now: int, code: Code, mailed: bool)
    requires SoleRow(s, key, count, before) && WithinBudget(s.rows, key.email, now)
    requires before <= now < before + SEND_WINDOW
    ensures var s' := Ended(Begun(s, key, now, code), key.email, if mailed then Mailed else Refused);
            && SoleRow(s', key, if mailed then count + 1 else 0, now)
            && s'.log == s.log + [Issued(key, now, code, if mailed then Kept else Unsent(count))]
  {
    var found := Find(s.rows, key);
    assert (found.None? <==> count == 0) && Counting(found, now) == count;
    assert FreshRow(Challenge(found, code, now), count + 1, now);
  }

  lemma AskRun(start: int, steps: seq<Step>, key: Key, count: nat, before: int, now: int, code: Code, mailed: bool)
    requires Run(start, steps) && SoleRow(Reached(start, steps), key, count, before) && count < MAX_SENDS
    requires before <= now < before + SEND_WINDOW && now >= RESEND_COOLDOWN
    requires count > 0 ==> before + RESEND_COOLDOWN <= now
    ensures var longer := steps + Asks(key, now, code, if mailed then Mailed else Refused);
            && Run(start, longer) && SoleRow(Reached(start, longer), key, if mailed then count + 1 else 0, now)
            && Reached(start, longer).log
               == Reached(start, steps).log + [Issued(key, now, code, if mailed then Kept else Unsent(count))]
  {
    var begin, finish := Begin(key, now, code), Finish(key.email, if mailed then Mailed else Refused);
    SoleRowWithinBudget(Reached(start, steps), key, count, before, now);
    ExtendRun(start, steps, begin);
    ExtendRun(start, steps + [begin], finish);
    AskedState(Reached(start, steps), key, count, before, now, code, mailed);
    assert steps + [begin] + [finish] == steps + [begin, finish];
  }

  lemma AppendWindow(log: seq<Event>, e: Event, email: Email, measure: Measure, low: int)
    requires IssuedTo(e, email) && low <= e.at <= low + SEND_WINDOW
    ensures Window(log + [e], email, measure, low) == Window(log, email, measure, low) + Value(e.outcome, measure)
  {
    AppendOver(log, e, email, measure, low, low + SEND_WINDOW);
  }

  // ---------------------------------------------------------------- refused mails

  function RoundAt(start: int, n: nat): int {
    start + 60 * n
  }

  /** One session: a code, then every minute a mail that is refused and one that is not. */
  function Forgetful(start: int, key: Key, code: Code, n: nat): seq<Step> {
    if n == 0 then
      Asks(key, start, code, Mailed)
    else
      var now := RoundAt(start, n);
      Forgetful(start, key, code, n - 1) + Asks(key, now, code, Refused) + Asks(key, now, code, Mailed)
  }

  ghost predicate RoundsDone(start: int, key: Key, code: Code, n: nat) {
    var steps := Forgetful(start, key, code, n);
    && Run(start, steps)
    && SoleRow(Reached(start, steps), key, 1, RoundAt(start, n))
    && Window(Reached(start, steps).log, key.email, Sent, start) == n + 1
    && Window(Reached(start, steps).log, key.email, SentLost, start) == 0
  }

  lemma FirstRound(start: int, key: Key, code: Code)
    requires start >= RESEND_COOLDOWN
    ensures RoundsDone(start, key, code, 0)
  {
    AskRun(start, [], key, 0, start, start, code, true);
    assert [] + Asks(key, start, code, Mailed) == Asks(key, start, code, Mailed);
    AppendWindow([], Issued(key, start, code, Kept), key.email, Sent, start);
    AppendWindow([], Issued(key, start, code, Kept), key.email, SentLost, start);
  }

  lemma NextRound(start: int, key: Key, code: Code, n: nat)
    requires start >= RESEND_COOLDOWN && 0 < n <= 15 && RoundsDone(start, key, code, n - 1)
    ensures RoundsDone(start, key, code, n)
  {
    var earlier, now := Forgetful(start, key, code, n - 1), RoundAt(start, n);
    var refused := earlier + Asks(key, now, code, Refused);
    AskRun(start, earlier, key, 1, RoundAt(start, n - 1), now, code, false);
    AskRun(start, refused, key, 0, now, now, code, true);
    RoundWindow(Reached(start, earlier).log, key, code, now, start);
  }

  lemma RoundWindow(log: seq<Event>, key: Key, code: Code, now: int, low: int)
    requires low <= now <= low + SEND_WINDOW
    ensures var log' := log + [Issued(key, now, code, Unsent(1))] + [Issued(key, now, code, Kept)];
            && Window(log', key.email, Sent, low) == Window(log, key.email, Sent, low) + 1
            && Window(log', key.email, SentLost, low) == Window(log, key.email, SentLost, low)
  {
    var refused, kept := Issued(key, now, code, Unsent(1)), Issued(key, now, code, Kept);
    forall measure: Measure
      ensures Window(log + [refused] + [kept], key.email, measure, low)
           == Window(log, key.email, measure, low) + Value(Unsent(1), measure) + Value(Kept, measure)
    {
      AppendWindow(log, refused, key.email, measure, low);
      AppendWindow(log + [refused], kept, key.email, measure, low);
    }
  }

  lemma {:induction false} Rounds(start: int, key: Key, code: Code, n: nat)
    requires start >= RESEND_COOLDOWN && n <= 15
    ensures RoundsDone(start, key, code, n)
  {
    if n == 0 {
      FirstRound(start, key, code);
    } else {
      Rounds(start, key, code, n - 1);
      NextRound(start, key, code, n);
    }
  }

  /** Refused mails forget: a session whose every second mail is refused, and whose rows never vanish, is sent sixteen
      codes in 900 seconds, as many as the cooldown allows. */
  lemma RefusedMailsForget(start: int, key: Key, code: Code)
    requires start >= RESEND_COOLDOWN
    ensures var steps := Forgetful(start, key, code, 15);
            var log := Reached(start, steps).log;
            && Run(start, steps) && Window(log, key.email, SentLost, start) == 0
            && Window(log, key.email, Sent, start) == SEND_WINDOW / RESEND_COOLDOWN + 1
  {
    Rounds(start, key, code, 15);
  }

  // ---------------------------------------------------------------- a row deleted under a request

  /** The first moment at which the cleaner takes the row of a code issued at `start`. */
  function StaleAt(start: int): int {
    start + OTP_TTL + OTP_GRACE_SECONDS + 1
  }

  /** A code; when its row is stale, a request with the cleaner between its read and its write. */
  function Raced(start: int, key: Key, code: Code): seq<Step> {
    var now := StaleAt(start);
    Asks(key, start, code, Mailed) + [Begin(key, now, code)] + [Clean(now)] + [Finish(key.email, Mailed)]
  }

  lemma RacedState(s: State, key: Key, start: int, code: Code)
    requires SoleRow(s, key, 1, start) && start >= RESEND_COOLDOWN && WithinBudget(s.rows, key.email, StaleAt(start))
    ensures var now := StaleAt(start);
            var s' := Ended(After(Begun(s, key, now, code), Clean(now)), key.email, Mailed);
            SoleRow(s', key, 0, now) && s'.log == s.log + [Issued(key, now, code, Lost)]
  {
    var now := StaleAt(start);
    assert Outdated(s.rows[key], now - OTP_GRACE_SECONDS);
    assert Cleaned(s.rows, now - OTP_GRACE_SECONDS) == map[];
  }

  lemma RacedRun(start: int, key: Key, code: Code)
    requires start >= RESEND_COOLDOWN
    ensures var s := Reached(start, Raced(start, key, code));
            && Run(start, Raced(start, key, code)) && SoleRow(s, key, 0, StaleAt(start))
            && s.log == [Issued(key, start, code, Kept)] + [Issued(key, StaleAt(start), code, Lost)]
  {
    var first, now := Asks(key, start, code, Mailed), StaleAt(start);
    AskRun(start, [], key, 0, start, start, code, true);
    assert [] + first == first && [] + [Issued(key, start, code, Kept)] == [Issued(key, start, code, Kept)];
    var s := Reached(start, first);
    assert s.rows == map[key := s.rows[key]];
    RowWithinBudget(key, s.rows[key], now);
    RacedState(s, key, start, code);
    ExtendRun(start, first, Begin(key, now, code));
    ExtendRun(start, first + [Begin(key, now, code)], Clean(now));
    ExtendRun(start, first + [Begin(key, now, code)] + [Clean(now)], Finish(key.email, Mailed));
  }

  /** The race, then `n` more codes a cooldown apart, the first at the same second. */
  function RacedOn(start: int, key: Key, code: Code, n: nat): seq<Step> {
    if n == 0 then Raced(start, key, code)
    else RacedOn(start, key, code, n - 1) + Asks(key, RoundAt(StaleAt(start), n - 1), code, Mailed)
  }

  function RacedLog(start: int, key: Key, code: Code, n: nat): (log: seq<Event>)
    ensures |log| == n + 2
    ensures log[1] == Issued(key, StaleAt(start), code, Lost)
    ensures n >= 1 ==> log[2] == Issued(key, StaleAt(start), code, Kept)
  {
    if n == 0 then [Issued(key, start, code, Kept)] + [Issued(key, StaleAt(start), code, Lost)]
    else RacedLog(start, key, code, n - 1) + [Issued(key, RoundAt(StaleAt(start), n - 1), code, Kept)]
  }

  ghost predicate RacedSoFar(start: int, key: Key, code: Code, n: nat) {
    var s := Reached(start, RacedOn(start, key, code, n));
    && Run(start, RacedOn(start, key, code, n)) && s.log == RacedLog(start, key, code, n)
    && SoleRow(s, key, n, RoundAt(StaleAt(start), if n == 0 then 0 else n - 1))
  }

  lemma RacedOnward(start: int, key: Key, code: Code, n: nat)
    requires start >= RESEND_COOLDOWN && 0 < n <= MAX_SENDS && RacedSoFar(start, key, code, n - 1)
    ensures RacedSoFar(start, key, code, n)
  {
    var before := RoundAt(StaleAt(start), if n == 1 then 0 else n - 2);
    AskRun(start, RacedOn(start, key, code, n - 1), key, n - 1, before, RoundAt(StaleAt(start), n - 1), code, true);
  }

  lemma {:induction false} RacedMeasure(start: int, key: Key, code: Code, measure: Measure, n: nat)
    requires n <= MAX_SENDS
    ensures Window(RacedLog(start, key, code, n), key.email, measure, StaleAt(start))
         == Value(Lost, measure) + n * Value(Kept, measure)
  {
    var now := StaleAt(start);
    if n == 0 {
      var first := [Issued(key, start, code, Kept)];
      assert [] + first == first;
      AppendOver([], Issued(key, start, code, Kept), key.email, measure, now, now + SEND_WINDOW);
      AppendWindow(first, Issued(key, now, code, Lost), key.email, measure, now);
    } else {
      RacedMeasure(start, key, code, measure, n - 1);
      var next := Issued(key, RoundAt(now, n - 1), code, Kept);
      AppendWindow(RacedLog(start, key, code, n - 1), next, key.email, measure, now);
    }
  }

  /** The cleaner's pass costs one send: a session whose stale row it deletes under a request is sent a second code at
      the same second, and four in the window. */
  lemma VanishedRowForgets(start: int, key: Key, code: Code)
    requires start >= RESEND_COOLDOWN
    ensures var steps, now := RacedOn(start, key, code, MAX_SENDS), StaleAt(start);
            var log := Reached(start, steps).log;
            && Run(start, steps) && |log| == 5
            && log[1] == Issued(key, now, code, Lost) && log[2] == Issued(key, now, code, Kept)
            && Window(log, key.email, Sent, now) == MAX_SENDS + 1
            && Window(log, key.email, SentLost, now) == 1 && Window(log, key.email, Forgotten, now) == 0
  {
    RacedRun(start, key, code);
    RacedOnward(start, key, code, 1);
    RacedOnward(start, key, code, 2);
    RacedOnward(start, key, code, 3);
    RacedMeasure(start, key, code, Sent, MAX_SENDS);
    RacedMeasure(start, key, code, SentLost, MAX_SENDS);
    RacedMeasure(start, key, code, Forgotten, MAX_SENDS);
  }
}
