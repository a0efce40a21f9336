/** The challenge table's repository and the service that owns the code's life, each method proved against
    the step it takes. */
module GuestOrderServices {
  import opened Sums
  import opened Otp = GuestOrderVerification

  class GuestOrderAccessRepository {
    var rows: Table

    constructor ()
      ensures rows == map[]
    {
      rows := map[];
    }

    /** SUM over the selected send counts. */
    method SumOf(counts: map<Key, int>) returns (sum: int)
      ensures sum == Total(counts, Itself)
    {
      sum := 0;
      var left := counts;
      while left != map[]
        invariant sum + Total(left, Itself) == Total(counts, Itself)
        decreases |left|
      {
        var k :| k in left;
        TotalRemove(left, Itself, k);
        sum := sum + left[k];
        left := left - {k};
      }
    }

    /** MAX(created_at) over the selected rows, 0 for none. */
    method LatestOf(keys: set<Key>) returns (latest: int)
      requires keys <= rows.Keys
      ensures keys == {} ==> latest == 0
      ensures keys != {} ==> exists k :: k in keys && rows[k].createdAt == latest
      ensures forall k :: k in keys ==> rows[k].createdAt <= latest
    {
      latest := 0;
      var left := keys;
      while left != {}
        invariant left <= keys
        invariant keys == {} ==> latest == 0
        invariant left != keys ==> exists k :: k in keys && rows[k].createdAt == latest
        invariant forall k :: k in keys && k !in left ==> rows[k].createdAt <= latest
        decreases |left|
      {
        var k :| k in left;
        if left == keys || rows[k].createdAt > latest {
          latest := rows[k].createdAt;
        }
        left := left - {k};
      }
    }

    /** SUM(send_count) and MAX(created_at) over the email's rows since the cutoff. */
    method GetEmailSendStats(email: Email, createdAfter: int) returns (sendCount: int, lastSentAt: int)
      ensures sendCount == SendTotal(rows, email, createdAfter)
      ensures forall moment: int :: lastSentAt > moment <==> LatestAfter(rows, email, createdAfter, moment)
    {
      var recent := Recent(rows, email, createdAfter);
      var sum := SumOf(recent);
      TotalNonNegative(recent, Itself);
      sendCount := Clamp(sum);
      lastSentAt := LatestOf(recent.Keys);
    }

    /** An update of the row that was read, which hits nothing when the row is gone, or an insert. */
    method SaveChallenge(key: Key, row: Row, wasFound: bool)
      modifies this
      ensures rows == if wasFound && key !in old(rows) then old(rows) else old(rows)[key := row]
    {
      if wasFound {
        if key in rows {
          rows := rows[key := row];
        }
        return;
      }
      rows := rows[key := row];
    }

    method IncrementAttempts(key: Key, attempts: nat)
      requires key in rows
      modifies this
      ensures rows == old(rows)[key := old(rows)[key].(attempts := attempts)]
    {
      rows := rows[key := rows[key].(attempts := attempts)];
    }

    method GrantAccess(key: Key, attempts: nat, access: Access)
      requires key in rows
      modifies this
      ensures rows == old(rows)[key := old(rows)[key].(attempts := attempts, access := Some(access))]
    {
      rows := rows[key := rows[key].(attempts := attempts, access := Some(access))];
    }

    method DeleteChallenge(key: Key)
      modifies this
      ensures rows == old(rows) - {key}
    {
      rows := rows - {key};
    }

    /** Some row of the token and the session: the query orders nothing, so any of them may come first. */
    method FindAccess(token: Token, session: Session) returns (found: Option<Key>)
      ensures found.Some? ==> TokenRow(rows, found.value, token, session)
      ensures found.None? ==> forall k: Key :: !TokenRow(rows, k, token, session)
    {
      var matching := set k | k in rows && TokenRow(rows, k, token, session);
      if matching == {} {
        assert forall k: Key :: TokenRow(rows, k, token, session) ==> k in matching;
        return None;
      }
      var k :| k in matching;
      found := Some(k);
    }

    method DeleteExpired(cutoff: int)
      modifies this
      ensures rows == Cleaned(old(rows), cutoff)
    {
      rows := Cleaned(rows, cutoff);
    }
  }

  /** A request from its reads to its answer, with the cleaner's pass in between when there is one. */
  ghost function Requested(s: State, key: Key, now: int, code: Code, cleanedAt: Option<int>, delivered: bool): State {
    var begun := Begun(s, key, now, code);
    if key.email !in begun.asking then
      begun
    else
      var cleaned := if cleanedAt.Some? then After(begun, Clean(cleanedAt.value)) else begun;
      Ended(cleaned, key.email, if delivered then Mailed else Refused)
  }

  class GuestOrderVerification {
    const repository: GuestOrderAccessRepository
    ghost var log: seq<Event>
    ghost var clock: int
    ghost var asking: map<Email, Asking>

    constructor (repository: GuestOrderAccessRepository)
      requires repository.rows == map[]
      ensures this.repository == repository && Current() == State(map[], [], 0, map[])
    {
      this.repository := repository;
      log, clock, asking := [], 0, map[];
    }

    ghost function Current(): State
      reads this, repository
    {
      State(repository.rows, log, clock, asking)
    }

    /** What a request that reaches the checks is told. */
    ghost function Answer(email: Email, now: int, delivered: bool): Response
      reads repository
    {
      if SendTotal(repository.rows, email, now - SEND_WINDOW) >= MAX_SENDS then RateLimited
      else if LatestAfter(repository.rows, email, now - SEND_WINDOW, now - RESEND_COOLDOWN) then SentResponse
      else if delivered then SentResponse
      else EmailUnavailable
    }

    ghost predicate Winning(key: Key, code: Code, now: int)
      reads this, repository
    {
      Comparable(repository.rows, key, now) && repository.rows[key].code == code
    }

    ghost predicate Opens(token: Option<Token>, session: Option<Session>, email: Option<Email>, now: int)
      reads this, repository
    {
      && token.Some? && session.Some? && email.Some?
      && HasAccess(repository.rows, token.value, session.value, email.value, now)
    }

    /** `email` and `session` are None when normalisation rejects them; `cleanedAt` is the time of a cleaner's pass that
        falls between the reads of the request and its write. */
    method RequestOtp(email: Option<Email>, session: Option<Session>, locked: bool, available: bool, now: int,
                      code: Code, delivered: bool, cleanedAt: Option<int>)
      returns (response: Response)
      requires clock <= now && (cleanedAt.Some? ==> now <= cleanedAt.value)
      requires locked && email.Some? ==> email.value !in asking
      modifies this, repository
      ensures email.None? || session.None? || !locked || !available ==> Current() == old(Current())
      ensures email.None? || session.None? ==> response == InvalidInput
      ensures email.Some? && session.Some? && !locked ==> response == RateLimited
      ensures email.Some? && session.Some? && locked && !available ==> response == EmailUnavailable
      ensures email.Some? && session.Some? && locked && available ==>
                Current() == Requested(old(Current()), Key(email.value, session.value), now, code, cleanedAt, delivered)
      ensures email.Some? && session.Some? && locked && available ==>
                response == old(Answer(email.value, now, delivered))
      ensures email.Some? && session.Some? && locked && available ==>
                var sends := old(SendTotal(repository.rows, email.value, now - 900));
                var cooling := old(LatestAfter(repository.rows, email.value, now - 900, now - 60));
                && (response == RateLimited <==> sends >= 3)
                && (response == SentResponse <==> sends < 3 && (cooling || delivered))
                && (response == EmailUnavailable <==> sends < 3 && !cooling && !delivered)
    {
      if email.None? || session.None? {
        return InvalidInput;
      }
      if !locked {
        return RateLimited;
      }
      response := CreateChallenge(Key(email.value, session.value), available, now, code, delivered, cleanedAt);
    }

    method CreateChallenge(key: Key, available: bool, now: int, code: Code, delivered: bool, cleanedAt: Option<int>)
      returns (response: Response)
      requires clock <= now && (cleanedAt.Some? ==> now <= cleanedAt.value) && key.email !in asking
      modifies this, repository
      ensures !available ==> Current() == old(Current()) && response == EmailUnavailable
      ensures available ==> Current() == Requested(old(Current()), key, now, code, cleanedAt, delivered)
      ensures available ==> response == old(Answer(key.email, now, delivered))
    {
      if !available {
        return EmailUnavailable;
      }
      var row := Find(repository.rows, key);
      var early := CheckBudget(key, now, code);
      if early.Some? {
        assert early.value == Answer(key.email, now, delivered);
        return early.value;
      }
      if cleanedAt.Some? {
        RunCleaner(cleanedAt.value);
      }
      response := SendChallenge(key, now, row, code, delivered);
    }

    /** The two checks, and the answer of the one that stops the request. */
    method CheckBudget(key: Key, now: int, code: Code) returns (early: Option<Response>)
      requires key.email !in asking
      modifies this
      ensures Current() == Begun(old(Current()), key, now, code)
      ensures early.None? <==> WithinBudget(repository.rows, key.email, now)
      ensures forall delivered: bool :: early.Some? ==> early.value == Answer(key.email, now, delivered)
    {
      var sendCount, lastSentAt := repository.GetEmailSendStats(key.email, now - SEND_WINDOW);
      clock := now;
      if sendCount >= MAX_SENDS {
        return Some(RateLimited);
      }
      if lastSentAt > now - RESEND_COOLDOWN {
        return Some(SentResponse);
      }
      asking := asking[key.email := Asking(key, now, Find(repository.rows, key), code)];
      early := None;
    }

    /** The cleaner of another process. */
    method RunCleaner(now: int)
      modifies this, repository
      ensures Current() == After(old(Current()), Clean(now))
    {
      repository.DeleteExpired(now - OTP_GRACE_SECONDS);
      clock := now;
    }

    /** The write, the mail, and the deletion when the mail is refused. */
    method SendChallenge(key: Key, now: int, row: Option<Row>, code: Code, delivered: bool) returns (response: Response)
      requires key.email in asking && asking[key.email] == Asking(key, now, row, code)
      modifies this, repository
      ensures Current() == Ended(old(Current()), key.email, if delivered then Mailed else Refused)
      ensures response == if delivered then SentResponse else EmailUnavailable
    {
      ghost var lost := Vanished(repository.rows, asking[key.email]);
      asking := asking - {key.email};
      repository.SaveChallenge(key, Challenge(row, code, now), row.Some?);
      if !delivered {
        repository.DeleteChallenge(key);
        log := log + [Issued(key, now, code, Unsent(Counting(row, now)))];
        return EmailUnavailable;
      }
      log := log + [Issued(key, now, code, if lost then Lost else Kept)];
      response := SentResponse;
    }

    /** The clock is read for the expiry check, again for the access deadline and again for the verification time. */
    method VerifyOtp(email: Option<Email>, session: Option<Session>, code: Option<Code>, locked: bool, token: Token,
                     now: int, grantedAt: int, verifiedAt: int)
      returns (response: Response)
      requires clock <= now <= grantedAt <= verifiedAt
      modifies this, repository
      ensures email.None? || session.None? || code.None? || !locked ==>
                Current() == old(Current()) && !response.Success?
      ensures email.Some? && session.Some? && code.Some? && locked ==>
                Current() == Tried(old(Current()), Key(email.value, session.value), code.value, token, now, grantedAt,
                    verifiedAt)
      ensures response.Success? ==> response == Success(token, grantedAt + ACCESS_TTL)
      ensures !response.Success? ==> response == InvalidCode || (response == RateLimited && !locked)
      ensures email.Some? && session.Some? && code.Some? && locked ==>
                response.Success? == old(Winning(Key(email.value, session.value), code.value, now))
    {
      if email.None? || session.None? || code.None? {
        return InvalidCode;
      }
      if !locked {
        return RateLimited;
      }
      var key := Key(email.value, session.value);
      var row := Find(repository.rows, key);
      clock := now;
      if row.None? || row.value.expiresAt < now || row.value.attempts >= MAX_ATTEMPTS {
        return InvalidCode;
      }
      if row.value.code != code.value {
        repository.IncrementAttempts(key, row.value.attempts + 1);
        log := log + [Compared(key, now, code.value, None)];
        return InvalidCode;
      }
      repository.GrantAccess(key, MAX_ATTEMPTS, Access(token, verifiedAt, grantedAt + ACCESS_TTL));
      log := log + [Compared(key, grantedAt, code.value, Some(token))];
      response := Success(token, grantedAt + ACCESS_TTL);
    }

    method FindValidAccess(token: Option<Token>, session: Option<Session>, email: Option<Email>, now: int)
        returns (row: Option<Row>)
      requires TokensApart(Current())
      ensures row.Some? <==> Opens(token, session, email, now)
      ensures row.Some? ==> row.value == repository.rows[Key(email.value, session.value)]
    {
      if email.None? || session.None? || token.None? {
        return None;
      }
      var found := repository.FindAccess(token.value, session.value);
      if found.None? {
        return None;
      }
      var access := repository.rows[found.value];
      if TokenRow(repository.rows, Key(email.value, session.value), token.value, session.value) {
        assert SameToken(access, repository.rows[Key(email.value, session.value)]);
      }
      if access.access.value.expiresAt < now || found.value.email != email.value {
        return None;
      }
      row := Some(access);
    }

    /** The freshness check reads the clock after the validity check. */
    method CheckFreshAccess(token: Option<Token>, session: Option<Session>, email: Option<Email>, now: int,
                            later: int) returns (isFresh: bool)
      requires TokensApart(Current()) && now <= later
      ensures isFresh ==> Opens(token, session, email, now)
      ensures later == now && email.Some? && session.Some? && token.Some? ==>
                isFresh == HasFreshAccess(repository.rows, token.value, session.value, email.value, now)
    {
      var row := FindValidAccess(token, session, email, now);
      isFresh := row.Some? && row.value.access.value.verifiedAt >= later - ACCESS_TTL;
    }
  }
}
