/** The email one-time code of guest order access: challenge rows, and every operation on them.

    A keyed hash is modelled by the value hashed, so equal hashes are equal codes, tokens or emails. */
module GuestOrderVerification {
  import opened Sums

  const OTP_TTL := 600
  const ACCESS_TTL := 86400
  const MAX_SENDS := 3
  const SEND_WINDOW := 900
  const RESEND_COOLDOWN := 60
  const MAX_ATTEMPTS := 5
  const OTP_GRACE_SECONDS := 86400

  type Email = nat
  type Session = nat
  type Code = nat
  type Token = nat

  datatype Key = Key(email: Email, session: Session)

  datatype Access = Access(token: Token, verifiedAt: int, expiresAt: int)

  /** A challenge row; the unique index on (email, session) makes that pair its key. */
  datatype Row = Row(code: Code, sendCount: nat, attempts: nat, expiresAt: int, createdAt: int, access: Option<Access>)

  type Table = map<Key, Row>

  datatype Response =
    | InvalidInput | EmailUnavailable | RateLimited | SentResponse | InvalidCode
    | Success(token: Token, expiresAt: int)

  // ---------------------------------------------------------------- statements on the rows

  function Itself(x: int): int { x }

  /** The send counts of an email's rows created at or after the cutoff. */
  function Recent(rows: Table, email: Email, cutoff: int): map<Key, int> {
    map k | k in rows && k.email == email && rows[k].createdAt >= cutoff :: rows[k].sendCount
  }

  ghost function SendTotal(rows: Table, email: Email, cutoff: int): int {
    Total(Recent(rows, email, cutoff), Itself)
  }

  /** Whether the latest of an email's recent rows, or the epoch when there is none, is past a moment. */
  ghost predicate LatestAfter(rows: Table, email: Email, cutoff: int, moment: int) {
    if Recent(rows, email, cutoff) == map[] then 0 > moment
    else exists k :: k in Recent(rows, email, cutoff) && rows[k].createdAt > moment
  }

  function Challenge(row: Option<Row>, code: Code, now: int): Row {
    var sendCount := if row.Some? && row.value.createdAt > now - SEND_WINDOW then row.value.sendCount else 0;
    Row(code, sendCount + 1, 0, now + OTP_TTL, now, None)
  }

  function Find(rows: Table, key: Key): Option<Row> {
    if key in rows then Some(rows[key]) else None
  }

  predicate Outdated(row: Row, cutoff: int) {
    row.expiresAt < cutoff && (row.access.None? || row.access.value.expiresAt < cutoff)
  }

  function Cleaned(rows: Table, cutoff: int): Table {
    map k | k in rows && !Outdated(rows[k], cutoff) :: rows[k]
  }

  // ---------------------------------------------------------------- the steps and their log

  /** What became of an issued code: sent with its row written; sent although its row had been deleted before it could
      be written; or not sent, taking with it the earlier sends that the deleted row still counted. */
  datatype Outcome = Kept | Lost | Unsent(forgotten: nat)

  datatype Event =
    | Issued(key: Key, at: int, code: Code, outcome: Outcome)
    | Compared(key: Key, at: int, code: Code, granted: Option<Token>)

  /** A request that passed its checks at `now` and holds its email's lock: what it read, and what it will write. */
  datatype Asking = Asking(key: Key, now: int, found: Option<Row>, code: Code)

  /** The rows, everything that happened to them, the latest clock reading, and the request in flight of each email. */
  datatype State = State(rows: Table, log: seq<Event>, clock: int, asking: map<Email, Asking>)

  /** How a request ends: the mail goes out or is refused, or the request dies before or after writing its row. */
  datatype Ending = Mailed | Refused | DiedUnsaved | DiedUnmailed

  /** A code request is two steps, since the cleaner takes no lock and may run between its reads and its writes. */
  datatype Step =
    | Begin(key: Key, now: int, code: Code)
    | Finish(email: Email, ending: Ending)
    | Try(key: Key, code: Code, token: Token, now: int, grantedAt: int, verifiedAt: int)
    | Clean(now: int)

  ghost predicate WithinBudget(rows: Table, email: Email, now: int) {
    && SendTotal(rows, email, now - SEND_WINDOW) < MAX_SENDS
    && !LatestAfter(rows, email, now - SEND_WINDOW, now - RESEND_COOLDOWN)
  }

  ghost function Begun(s: State, key: Key, now: int, code: Code): State {
    if WithinBudget(s.rows, key.email, now)
    then s.(clock := now, asking := s.asking[key.email := Asking(key, now, Find(s.rows, key), code)])
    else s.(clock := now)
  }

  /** The update by entity id hits nothing when the row that was read has been deleted since. */
  predicate Vanished(rows: Table, a: Asking) {
    a.found.Some? && a.key !in rows
  }

  function Saved(rows: Table, a: Asking): Table {
    if Vanished(rows, a) then rows else rows[a.key := Challenge(a.found, a.code, a.now)]
  }

  /** The sends that a row still counts for the window behind `now`. */
  function Counting(row: Option<Row>, now: int): nat {
    if row.Some? && row.value.createdAt >= now - SEND_WINDOW then row.value.sendCount else 0
  }

  function Ended(s: State, email: Email, ending: Ending): State {
    if email !in s.asking then s else
      var a := s.asking[email];
      var done := s.(asking := s.asking - {email});
      match ending
      case DiedUnsaved => done
      case DiedUnmailed => done.(rows := Saved(s.rows, a), log := s.log + [Issued(a.key, a.now, a.code, Unsent(0))])
      case Refused =>
        var outcome := Unsent(Counting(a.found, a.now));
        done.(rows := Saved(s.rows, a) - {a.key}, log := s.log + [Issued(a.key, a.now, a.code, outcome)])
      case Mailed =>
        var outcome := if Vanished(s.rows, a) then Lost else Kept;
        done.(rows := Saved(s.rows, a), log := s.log + [Issued(a.key, a.now, a.code, outcome)])
  }

  predicate Comparable(rows: Table, key: Key, now: int) {
    key in rows && rows[key].expiresAt >= now && rows[key].attempts < MAX_ATTEMPTS
  }

  function Tried(s: State, key: Key, code: Code, token: Token, now: int, grantedAt: int, verifiedAt: int): State {
    if !Comparable(s.rows, key, now) then
      s.(clock := now)
    else if s.rows[key].code != code then
      var row := s.rows[key].(attempts := s.rows[key].attempts + 1);
      s.(rows := s.rows[key := row], log := s.log + [Compared(key, now, code, None)], clock := now)
    else
      var access := Access(token, verifiedAt, grantedAt + ACCESS_TTL);
      var row := s.rows[key].(attempts := MAX_ATTEMPTS, access := Some(access));
      s.(rows := s.rows[key := row], log := s.log + [Compared(key, grantedAt, code, Some(token))], clock := now)
  }

  ghost predicate FreshToken(log: seq<Event>, token: Token) {
    forall i :: 0 <= i < |log| && log[i].Compared? ==> log[i].granted != Some(token)
  }

  /** The clock never runs backwards, within a step or between steps, and tokens never repeat; requests and trials of
      one email wait for each other, the cleaner waits for nobody. */
  ghost predicate Possible(s: State, step: Step) {
    match step
    case Begin(key, now, _) => s.clock <= now && key.email !in s.asking
    case Finish(email, _) => email in s.asking
    case Try(key, _, token, now, grantedAt, verifiedAt) =>
      s.clock <= now <= grantedAt <= verifiedAt && FreshToken(s.log, token) && key.email !in s.asking
    case Clean(now) => s.clock <= now
  }

  ghost function After(s: State, step: Step): State {
    match step
    case Begin(key, now, code) => Begun(s, key, now, code)
    case Finish(email, ending) => Ended(s, email, ending)
    case Try(key, code, token, now, grantedAt, verifiedAt) => Tried(s, key, code, token, now, grantedAt, verifiedAt)
    case Clean(now) => s.(rows := Cleaned(s.rows, now - OTP_GRACE_SECONDS), clock := now)
  }

  ghost function Reached(start: int, steps: seq<Step>): State {
    if steps == [] then State(map[], [], start, map[])
    else After(Reached(start, steps[..|steps| - 1]), steps[|steps| - 1])
  }

  ghost predicate Run(start: int, steps: seq<Step>) {
    if steps == [] then
      true
    else
      var front := steps[..|steps| - 1];
      Run(start, front) && Possible(Reached(start, front), steps[|steps| - 1])
  }

  lemma ExtendRun(start: int, steps: seq<Step>, step: Step)
    requires Run(start, steps) && Possible(Reached(start, steps), step)
    ensures Run(start, steps + [step]) && Reached(start, steps + [step]) == After(Reached(start, steps), step)
  {
    assert (steps + [step])[..|steps|] == steps;
  }

  // Why one step each is enough for the rest: a cleaner's pass slides past the statements in between.

  /** A trial's read and its write: the row it may compare outlives any pass of the 24 hours after it. */
  lemma CleanSlidesPastTrial(s: State, key: Key, code: Code, token: Token, now: int, grantedAt: int, verifiedAt: int,
                             cutoff: int)
    requires now <= grantedAt && cutoff <= now && Comparable(s.rows, key, now)
    ensures Tried(s.(rows := Cleaned(s.rows, cutoff)), key, code, token, now, grantedAt, verifiedAt).rows
         == Cleaned(Tried(s, key, code, token, now, grantedAt, verifiedAt).rows, cutoff)
  {
  }

  /** A request's two reads: no pass of the day after touches the rows that the send statistics select. */
  lemma CleanSlidesPastStatistics(rows: Table, email: Email, now: int, cutoff: int)
    requires cutoff <= now - SEND_WINDOW + OTP_TTL
    requires forall k :: k in rows ==> rows[k].expiresAt == rows[k].createdAt + OTP_TTL
    ensures Recent(Cleaned(rows, cutoff), email, now - SEND_WINDOW) == Recent(rows, email, now - SEND_WINDOW)
  {
  }

  /** A request's write and the deletion after a refused mail: their order with a pass does not matter. */
  lemma CleanSlidesPastDeletion(rows: Table, key: Key, cutoff: int)
    ensures Cleaned(rows, cutoff) - {key} == Cleaned(rows - {key}, cutoff)
  {
  }

  // ---------------------------------------------------------------- what one code is good for

  /** The comparisons made with the code last issued under a key. */
  function Comparisons(log: seq<Event>, key: Key): nat {
    if log == [] then
      0
    else
      var e, earlier := log[|log| - 1], Comparisons(log[..|log| - 1], key);
      if e.key != key then earlier else if e.Issued? then 0 else earlier + 1
  }

  /** The comparisons that the code last issued under a key has won. */
  function Wins(log: seq<Event>, key: Key): nat {
    if log == [] then
      0
    else
      var e, earlier := log[|log| - 1], Wins(log[..|log| - 1], key);
      if e.key != key then earlier else if e.Issued? then 0 else earlier + if e.granted.Some? then 1 else 0
  }

  datatype Grant = Grant(token: Token, at: int)

  /** The grant made under a key since its last challenge. */
  function Standing(log: seq<Event>, key: Key): Option<Grant> {
    if log == [] then
      None
    else
      var e := log[|log| - 1];
      if e.key == key && e.Issued? then None
      else if e.key == key && e.granted.Some? then Some(Grant(e.granted.value, e.at))
      else Standing(log[..|log| - 1], key)
  }

  lemma AppendEvent(log: seq<Event>, e: Event, key: Key)
    ensures e.key != key ==>
              Comparisons(log + [e], key) == Comparisons(log, key) && Wins(log + [e], key) == Wins(log, key)
    ensures e.key != key ==> Standing(log + [e], key) == Standing(log, key)
    ensures e.key == key && e.Issued? ==>
              Comparisons(log + [e], key) == Wins(log + [e], key) == 0 && Standing(log + [e], key) == None
    ensures e.key == key && e.Compared? ==> Comparisons(log + [e], key) == Comparisons(log, key) + 1
    ensures e.key == key && e.Compared? ==> Wins(log + [e], key) == Wins(log, key) + if e.granted.Some? then 1 else 0
    ensures e.key == key && e.Compared? ==>
              Standing(log + [e], key)
              == if e.granted.Some? then Some(Grant(e.granted.value, e.at)) else Standing(log, key)
  {
    assert (log + [e])[..|log|] == log;
  }

  /** A standing grant is an event of the log that no challenge under its key has followed. */
  ghost predicate GrantedAt(log: seq<Event>, key: Key, token: Token, at: int, i: nat) {
    && i < |log| && log[i].Compared? && log[i] == Compared(key, at, log[i].code, Some(token))
    && forall j :: i < j < |log| ==> !(log[j].Issued? && log[j].key == key)
  }

  predicate Grants(access: Access, grant: Grant) {
    access.token == grant.token && access.expiresAt == grant.at + ACCESS_TTL && access.verifiedAt >= grant.at
  }

  /** What the row of a key remembers of its code and of its grant. */
  ghost predicate RowUse(s: State, key: Key) {
    var standing := Standing(s.log, key);
    && Comparisons(s.log, key) <= MAX_ATTEMPTS && Wins(s.log, key) <= 1
    && (standing.None? <==> Wins(s.log, key) == 0)
    && if key in s.rows then
         var row := s.rows[key];
         && row.attempts == (if Wins(s.log, key) == 1 then MAX_ATTEMPTS else Comparisons(s.log, key))
         && (row.access.Some? <==> standing.Some?)
         && (standing.Some? ==> Grants(row.access.value, standing.value))
       else
         standing.Some? ==> standing.value.at + ACCESS_TTL < s.clock - OTP_GRACE_SECONDS
  }

  ghost predicate Granted(log: seq<Event>, token: Token) {
    exists i :: 0 <= i < |log| && log[i].Compared? && log[i].granted == Some(token)
  }

  predicate SameToken(row: Row, row': Row) {
    row.access.Some? && row'.access.Some? && row.access.value.token == row'.access.value.token
  }

  ghost predicate TokensApart(s: State) {
    && (forall k :: k in s.rows && s.rows[k].access.Some? ==> Granted(s.log, s.rows[k].access.value.token))
    && (forall k, k' :: k in s.rows && k' in s.rows && SameToken(s.rows[k], s.rows[k']) ==> k == k')
  }

  ghost predicate Used(s: State) {
    TokensApart(s) && forall k: Key :: RowUse(s, k)
  }

  lemma BeginKeepsUsed(s: State, key: Key, now: int, code: Code)
    requires Used(s) && s.clock <= now
    ensures Used(Begun(s, key, now, code))
  {
    forall k: Key ensures RowUse(Begun(s, key, now, code), k) {
      assert RowUse(s, k);
    }
    GrantsKept(s, Begun(s, key, now, code));
  }

  lemma FinishKeepsUsed(s: State, email: Email, ending: Ending)
    requires Used(s) && email in s.asking
    ensures Used(Ended(s, email, ending))
  {
    var s' := Ended(s, email, ending);
    forall k: Key ensures RowUse(s', k) {
      assert RowUse(s, k);
      if |s'.log| > |s.log| {
        AppendEvent(s.log, s'.log[|s.log|], k);
      }
    }
    GrantsKept(s, s');
  }

  /** Steps that add no access leave the tokens apart. */
  lemma GrantsKept(s: State, s': State)
    requires TokensApart(s) && s.log <= s'.log
    requires forall k :: k in s'.rows && s'.rows[k].access.Some? ==>
               k in s.rows && s'.rows[k].access == s.rows[k].access
    ensures TokensApart(s')
  {
    forall k | k in s'.rows && s'.rows[k].access.Some? ensures Granted(s'.log, s'.rows[k].access.value.token) {
      GrantedExtends(s.log, s'.log, s'.rows[k].access.value.token);
    }
  }

  lemma GrantedExtends(log: seq<Event>, log': seq<Event>, token: Token)
    requires Granted(log, token) && log <= log'
    ensures Granted(log', token)
  {
    var i :| 0 <= i < |log| && log[i].Compared? && log[i].granted == Some(token);
    assert log'[i] == log[i];
  }

  lemma TryKeepsUsed(s: State, key: Key, code: Code, token: Token, now: int, grantedAt: int, verifiedAt: int)
    requires Used(s) && s.clock <= now <= grantedAt <= verifiedAt && FreshToken(s.log, token)
    ensures Used(Tried(s, key, code, token, now, grantedAt, verifiedAt))
  {
    var s' := Tried(s, key, code, token, now, grantedAt, verifiedAt);
    forall k: Key ensures RowUse(s', k) {
      assert RowUse(s, k);
      if |s'.log| > |s.log| {
        AppendEvent(s.log, s'.log[|s.log|], k);
      }
    }
    if Comparable(s.rows, key, now) && s.rows[key].code == code {
      var e := Compared(key, grantedAt, code, Some(token));
      assert s'.log[|s.log|] == e;
      forall k | k in s.rows && s.rows[k].access.Some?
        ensures Granted(s'.log, s.rows[k].access.value.token) && s.rows[k].access.value.token != token
      {
        GrantedExtends(s.log, s'.log, s.rows[k].access.value.token);
      }
    } else {
      GrantsKept(s, s');
    }
  }

  lemma CleanKeepsUsed(s: State, now: int)
    requires Used(s) && s.clock <= now
    ensures Used(After(s, Clean(now)))
  {
    var s' := After(s, Clean(now));
    forall k: Key ensures RowUse(s', k) {
      assert RowUse(s, k);
    }
    GrantsKept(s, s');
  }

  lemma {:induction false} RunKeepsUsed(start: int, steps: seq<Step>)
    requires Run(start, steps)
    ensures Used(Reached(start, steps))
  {
    if steps != [] {
      var front, step := steps[..|steps| - 1], steps[|steps| - 1];
      RunKeepsUsed(start, front);
      var s := Reached(start, front);
      match step {
        case Begin(key, now, code) => BeginKeepsUsed(s, key, now, code);
        case Finish(email, ending) => FinishKeepsUsed(s, email, ending);
        case Try(key, code, token, now, grantedAt, verifiedAt) =>
          TryKeepsUsed(s, key, code, token, now, grantedAt, verifiedAt);
        case Clean(now) => CleanKeepsUsed(s, now);
      }
    }
  }

  /** Each issued code undergoes at most five comparisons and wins at most one: counted since the last challenge
      of its email and session, at every moment of every run. */
  lemma ChallengeUse(start: int, steps: seq<Step>, key: Key)
    requires Run(start, steps)
    ensures Comparisons(Reached(start, steps).log, key) <= MAX_ATTEMPTS
    ensures Wins(Reached(start, steps).log, key) <= 1
  {
    RunKeepsUsed(start, steps);
    assert RowUse(Reached(start, steps), key);
  }

  /** The code that has won once is never compared again. */
  lemma WonCodeIsSpent(start: int, steps: seq<Step>, key: Key, now: int)
    requires Run(start, steps) && Wins(Reached(start, steps).log, key) == 1
    ensures !Comparable(Reached(start, steps).rows, key, now)
  {
    RunKeepsUsed(start, steps);
    assert RowUse(Reached(start, steps), key);
  }

  // ---------------------------------------------------------------- access

  /** The row found by its token and session, before its email is compared. */
  predicate TokenRow(rows: Table, key: Key, token: Token, session: Session) {
    key in rows && key.session == session && rows[key].access.Some? && rows[key].access.value.token == token
  }

  ghost predicate HasAccess(rows: Table, token: Token, session: Session, email: Email, now: int) {
    TokenRow(rows, Key(email, session), token, session) && rows[Key(email, session)].access.value.expiresAt >= now
  }

  ghost predicate HasFreshAccess(rows: Table, token: Token, session: Session, email: Email, now: int) {
    HasAccess(rows, token, session, email, now) && rows[Key(email, session)].access.value.verifiedAt >= now - ACCESS_TTL
  }

  lemma {:induction false} StandingIsGranted(log: seq<Event>, key: Key, token: Token, at: int)
    ensures Standing(log, key) == Some(Grant(token, at)) ==> exists i :: GrantedAt(log, key, token, at, i)
  {
    if log != [] && Standing(log, key) == Some(Grant(token, at)) {
      var front, e := log[..|log| - 1], log[|log| - 1];
      if e.key == key && e.Compared? && e.granted.Some? {
        assert GrantedAt(log, key, token, at, |log| - 1);
      } else {
        StandingIsGranted(front, key, token, at);
        var i :| GrantedAt(front, key, token, at, i);
        assert GrantedAt(log, key, token, at, i);
      }
    }
  }

  lemma GrantedEarlier(log: seq<Event>, e: Event, key: Key, token: Token, at: int, i: nat)
    requires GrantedAt(log + [e], key, token, at, i) && i < |log|
    ensures GrantedAt(log, key, token, at, i) && !(e.Issued? && e.key == key)
  {
    assert (log + [e])[|log|] == e && forall j :: 0 <= j < |log| ==> (log + [e])[j] == log[j];
  }

  /** A code wins once, so a standing grant outlives any event but a challenge. */
  lemma StandingOutlives(s: State, s': State, e: Event, key: Key, grant: Grant)
    requires Used(s) && Used(s') && s'.log == s.log + [e]
    requires Standing(s.log, key) == Some(grant) && !(e.Issued? && e.key == key)
    ensures Standing(s'.log, key) == Some(grant)
  {
    AppendEvent(s.log, e, key);
    assert RowUse(s, key) && RowUse(s', key);
  }

  /** A grant that no challenge has followed still stands: a code wins once, so no other grant followed it. */
  lemma {:induction false} GrantStands(start: int, steps: seq<Step>, key: Key, token: Token, at: int, i: nat)
    requires Run(start, steps) && GrantedAt(Reached(start, steps).log, key, token, at, i)
    ensures Standing(Reached(start, steps).log, key) == Some(Grant(token, at))
  {
    if steps != [] {
      var front := steps[..|steps| - 1];
      var s, s' := Reached(start, front), Reached(start, steps);
      if |s'.log| == |s.log| {
        assert s'.log == s.log;
        GrantStands(start, front, key, token, at, i);
      } else {
        var e := s'.log[|s.log|];
        assert s'.log == s.log + [e];
        if i < |s.log| {
          GrantedEarlier(s.log, e, key, token, at, i);
          GrantStands(start, front, key, token, at, i);
          RunKeepsUsed(start, front);
          RunKeepsUsed(start, steps);
          StandingOutlives(s, s', e, key, Grant(token, at));
        } else {
          AppendEvent(s.log, e, key);
        }
      }
    }
  }

  /** A token opens an email's orders exactly when it was granted to that email and session within the last 24
      hours and no newer challenge was issued for them since. */
  lemma AccessMeansRecentGrant(start: int, steps: seq<Step>, token: Token, session: Session, email: Email, now: int)
    requires Run(start, steps) && Reached(start, steps).clock <= now
    ensures HasAccess(Reached(start, steps).rows, token, session, email, now)
      <==> exists at, i ::
             now - ACCESS_TTL <= at && GrantedAt(Reached(start, steps).log, Key(email, session), token, at, i)
  {
    var s, key := Reached(start, steps), Key(email, session);
    RunKeepsUsed(start, steps);
    assert RowUse(s, key);
    if HasAccess(s.rows, token, session, email, now) {
      var at := Standing(s.log, key).value.at;
      StandingIsGranted(s.log, key, token, at);
      var i :| GrantedAt(s.log, key, token, at, i);
      assert now - ACCESS_TTL <= at;
    }
    forall at, i: nat | now - ACCESS_TTL <= at && GrantedAt(s.log, key, token, at, i)
      ensures HasAccess(s.rows, token, session, email, now)
    {
      GrantStands(start, steps, key, token, at, i);
    }
  }

  /** The two access checks agree at any one instant. */
  lemma AccessIsFresh(start: int, steps: seq<Step>, token: Token, session: Session, email: Email, now: int)
    requires Run(start, steps)
    ensures var rows := Reached(start, steps).rows;
            HasAccess(rows, token, session, email, now) <==> HasFreshAccess(rows, token, session, email, now)
  {
    RunKeepsUsed(start, steps);
    assert RowUse(Reached(start, steps), Key(email, session));
  }
}
