/** The lock-protected fixed-window throttle, and what it promises over any window. */
module ActionRateLimiter {
  import opened Sums

  datatype Record = Record(count: nat, expiresAt: int)

  const LOCK_RETRY_SECONDS := 2

  /** The counter's own part of a call, past normalisation and the lock. */
  function Counted(record: Option<Record>, window: int, now: int): Record {
    if record.None? || record.value.expiresAt <= now then Record(1, now + window)
        else Record(record.value.count + 1, record.value.expiresAt)
  }

  function Allowed(record: Option<Record>, limit: int, window: int, now: int): bool {
    Counted(record, window, now).count <= limit
  }

  /** One action of one identity. */
  class Limiter {
    var cache: Option<Record>

    constructor ()
      ensures cache == None
    {
      cache := None;
    }

    method Consume(limit: int, window: int, now: int, locked: bool) returns (allowed: bool, retryAfter: int)
      modifies this
      ensures !locked ==> !allowed && retryAfter == 2 && cache == old(cache)
      ensures locked ==> cache == Some(Counted(old(cache), Between(10, 86400, window), now))
      ensures locked ==> allowed == Allowed(old(cache), Between(1, 100, limit), Between(10, 86400, window), now)
      ensures locked ==> retryAfter == if allowed then 0 else cache.value.expiresAt - now
    {
      var clampedLimit := Between(1, 100, limit);
      var clampedWindow := Between(10, 86400, window);
      if !locked {
        return false, LOCK_RETRY_SECONDS;
      }
      var record := if cache.Some? then cache.value else Record(0, now);
      if record.expiresAt <= now {
        record := Record(0, now + clampedWindow);
      }
      record := record.(count := record.count + 1);
      var ttl := if record.expiresAt - now < 1 then 1 else record.expiresAt - now;
      cache := Some(record);
      allowed := record.count <= clampedLimit;
      retryAfter := if allowed then 0 else ttl;
    }

    /** The cache drops a record only once its time to live has run out. */
    method Evict(now: int)
      modifies this
      ensures cache == Evicted(old(cache), now)
    {
      if cache.Some? && cache.value.expiresAt <= now {
        cache := None;
      }
    }
  }

  function Evicted(record: Option<Record>, now: int): Option<Record> {
    if record.Some? && record.value.expiresAt <= now then None else record
  }

  /** An eviction drops a record only once its window is over, so it makes no difference to the call after it. */
  lemma EvictionChangesNothing(record: Option<Record>, limit: int, window: int, now: int)
    ensures Evicted(record, now) == record || (record.Some? && record.value.expiresAt <= now)
    ensures Counted(Evicted(record, now), window, now) == Counted(record, window, now)
    ensures Allowed(Evicted(record, now), limit, window, now) == Allowed(record, limit, window, now)
  {
  }

  // ---------------------------------------------------------------- a history of calls

  /** A call at a time, which the cache may or may not have preceded with an eviction. */
  datatype Call = Call(at: int, evicted: bool)

  /** The record, and the times of the admitted calls, after a history. */
  datatype Past = Past(record: Option<Record>, admitted: seq<int>)

  function Followed(past: Past, call: Call, limit: int, window: int): Past {
    var record := if call.evicted then Evicted(past.record, call.at) else past.record;
    Past(Some(Counted(record, window, call.at)),
         if Allowed(record, limit, window, call.at) then past.admitted + [call.at] else past.admitted)
  }

  function Replay(calls: seq<Call>, limit: int, window: int): Past {
    if calls == [] then Past(None, [])
        else Followed(Replay(calls[..|calls| - 1], limit, window), calls[|calls| - 1], limit, window)
  }

  lemma ReplayAppend(calls: seq<Call>, call: Call, limit: int, window: int)
    ensures Replay(calls + [call], limit, window) == Followed(Replay(calls, limit, window), call, limit, window)
  {
    assert (calls + [call])[..|calls|] == calls;
  }

  predicate Monotone(calls: seq<Call>) {
    forall i, j :: 0 <= i <= j < |calls| ==> calls[i].at <= calls[j].at
  }

  /** How many admitted calls fall in `[low, high)`. */
  function Admitted(times: seq<int>, low: int, high: int): nat {
    if times == [] then
      0
    else
      Admitted(times[..|times| - 1], low, high) + if low <= times[|times| - 1] < high then 1 else 0
  }

  /** How many admitted calls fall in the stretch of one window's length from `low`. */
  function Stretch(times: seq<int>, low: int, window: int): nat {
    Admitted(times, low, low + window)
  }

  lemma {:induction false} AdmittedSplits(times: seq<int>, low: int, middle: int, high: int)
    requires low <= middle <= high
    ensures Admitted(times, low, high) == Admitted(times, low, middle) + Admitted(times, middle, high)
  {
    if times != [] {
      AdmittedSplits(times[..|times| - 1], low, middle, high);
    }
  }

  lemma {:induction false} NoneAdmitted(times: seq<int>, low: int, high: int)
    requires forall i :: 0 <= i < |times| ==> times[i] < low
    ensures Admitted(times, low, high) == 0
  {
    if times != [] {
      NoneAdmitted(times[..|times| - 1], low, high);
    }
  }

  lemma AppendAdmitted(times: seq<int>, t: int, low: int, high: int)
    ensures Admitted(times + [t], low, high) == Admitted(times, low, high) + if low <= t < high then 1 else 0
  {
    assert (times + [t])[..|times|] == times;
  }

  /** The open window has admitted the call that opened it, and no more than its count and the limit; a stretch
      that ends where it opened misses the earlier window's opening call; no stretch anywhere passes the bound. */
  ghost predicate Bounded(past: Past, limit: int, window: int, now: int) {
    && (past.record.None? ==> past.admitted == [])
    && (forall s: int :: Stretch(past.admitted, s, window) <= 2 * limit - 1)
    && (past.record.Some? ==> WindowBounded(past.record.value, past.admitted, limit, window, now))
  }

  ghost predicate WindowBounded(record: Record, admitted: seq<int>, limit: int, window: int, now: int) {
    var start := record.expiresAt - window;
    && start <= now
    && Admitted(admitted, start, start + 1) >= 1
    && (forall i :: 0 <= i < |admitted| ==> admitted[i] < record.expiresAt)
    && Admitted(admitted, start, record.expiresAt) <= record.count
    && Admitted(admitted, start, record.expiresAt) <= limit
    && (forall s: int :: start - window < s <= start ==> Admitted(admitted, s, start) <= limit - 1)
  }

  /** The calls of a spent window, seen from the start of the next. */
  lemma SpentWindow(past: Past, limit: int, window: int, before: int, now: int, s: int)
    requires limit >= 1 && window > 0 && Bounded(past, limit, window, before) && now - window < s <= now
    requires past.record.Some? ==> past.record.value.expiresAt <= now
    ensures Admitted(past.admitted, s, now) <= limit - 1
    ensures forall high: int :: Admitted(past.admitted, now, high) == 0
  {
    forall high: int ensures Admitted(past.admitted, now, high) == 0 {
      NoneAdmitted(past.admitted, now, high);
    }
    if past.record.Some? {
      var expiresAt := past.record.value.expiresAt;
      AdmittedSplits(past.admitted, expiresAt - window, expiresAt - window + 1, now);
      AdmittedSplits(past.admitted, expiresAt - window + 1, s, now);
      AdmittedSplits(past.admitted, expiresAt - window, expiresAt, now);
      NoneAdmitted(past.admitted, expiresAt, now);
    }
  }

  /** A call that opens a window is admitted. */
  lemma OpenKeepsBounded(past: Past, limit: int, window: int, before: int, now: int)
    requires limit >= 1 && window > 0 && Bounded(past, limit, window, before)
    requires past.record.Some? ==> past.record.value.expiresAt <= now
    ensures Bounded(Past(Some(Record(1, now + window)), past.admitted + [now]), limit, window, now)
  {
    var times := past.admitted + [now];
    SpentWindow(past, limit, window, before, now, now);
    AppendAdmitted(past.admitted, now, now, now + window);
    AppendAdmitted(past.admitted, now, now, now + 1);
    forall s: int ensures Stretch(times, s, window) <= 2 * limit - 1 {
      assert Stretch(past.admitted, s, window) <= 2 * limit - 1;
      AppendAdmitted(past.admitted, now, s, s + window);
      if now - window < s <= now {
        SpentWindow(past, limit, window, before, now, s);
        AdmittedSplits(past.admitted, s, now, s + window);
      }
    }
    forall s: int | now - window < s <= now ensures Admitted(times, s, now) <= limit - 1 {
      AppendAdmitted(past.admitted, now, s, now);
      SpentWindow(past, limit, window, before, now, s);
    }
  }

  /** A stretch that holds a call of the open window. */
  lemma OpenWindow(record: Record, admitted: seq<int>, limit: int, window: int, now: int, s: int)
    requires limit >= 1 && window > 0 && WindowBounded(record, admitted, limit, window, now)
    requires record.expiresAt - 2 * window < s < record.expiresAt
    ensures Stretch(admitted, s, window) <= limit - 1 + Admitted(admitted, record.expiresAt - window, record.expiresAt)
  {
    var start := record.expiresAt - window;
    if s <= start {
      AdmittedSplits(admitted, s, start, s + window);
      AdmittedSplits(admitted, start, s + window, record.expiresAt);
    } else {
      AdmittedSplits(admitted, s, record.expiresAt, s + window);
      NoneAdmitted(admitted, record.expiresAt, s + window);
      AdmittedSplits(admitted, start, s, record.expiresAt);
    }
  }

  /** A call inside the open window, admitted or refused. */
  lemma ContinueKeepsBounded(past: Past, limit: int, window: int, before: int, now: int)
    requires limit >= 1 && window > 0 && before <= now && Bounded(past, limit, window, before)
    requires past.record.Some? && now < past.record.value.expiresAt
    ensures var record := past.record.value.(count := past.record.value.count + 1);
            var admitted := if record.count <= limit then past.admitted + [now] else past.admitted;
            Bounded(Past(Some(record), admitted), limit, window, now)
  {
    var record := past.record.value.(count := past.record.value.count + 1);
    var start := record.expiresAt - window;
    if record.count <= limit {
      var times := past.admitted + [now];
      AppendAdmitted(past.admitted, now, start, record.expiresAt);
      AppendAdmitted(past.admitted, now, start, start + 1);
      forall s: int | start - window < s <= start ensures Admitted(times, s, start) <= limit - 1 {
        AppendAdmitted(past.admitted, now, s, start);
      }
      assert WindowBounded(record, times, limit, window, now);
      forall s: int ensures Stretch(times, s, window) <= 2 * limit - 1 {
        assert Stretch(past.admitted, s, window) <= 2 * limit - 1;
        AppendAdmitted(past.admitted, now, s, s + window);
        if s <= now < s + window {
          OpenWindow(record, times, limit, window, now, s);
        }
      }
    }
  }

  lemma {:induction false} ReplayBounded(calls: seq<Call>, limit: int, window: int)
    requires limit >= 1 && window > 0 && Monotone(calls)
    ensures Bounded(Replay(calls, limit, window), limit, window, if calls == [] then 0 else calls[|calls| - 1].at)
  {
    if calls != [] {
      var front, call := calls[..|calls| - 1], calls[|calls| - 1];
      ReplayBounded(front, limit, window);
      var past := Replay(front, limit, window);
      var before := if front == [] then 0 else front[|front| - 1].at;
      if past.record.Some? && call.at < past.record.value.expiresAt {
        ContinueKeepsBounded(past, limit, window, before, call.at);
      } else {
        OpenKeepsBounded(past, limit, window, before, call.at);
      }
    }
  }

  // ---------------------------------------------------------------- what the throttle promises

  /** Any stretch of one window's length admits fewer than twice the limit, over any history of calls. */
  lemma FewerThanTwiceTheLimit(calls: seq<Call>, limit: int, window: int, s: int)
    requires Monotone(calls)
    ensures var clampedLimit, clampedWindow := Between(1, 100, limit), Between(10, 86400, window);
            Stretch(Replay(calls, clampedLimit, clampedWindow).admitted, s, clampedWindow) <= 2 * clampedLimit - 1
  {
    ReplayBounded(calls, Between(1, 100, limit), Between(10, 86400, window));
  }

  /** Limits of 1 to 100 calls and windows of ten seconds to a day are taken as they are, so for them the bound is on
      the caller's own numbers; anything else counts as the nearest of these. */
  lemma UsualLimitsAreKept(calls: seq<Call>, limit: int, window: int, s: int)
    requires Monotone(calls) && 1 <= limit <= 100 && 10 <= window <= 86400
    ensures Between(1, 100, limit) == limit && Between(10, 86400, window) == window
    ensures Stretch(Replay(calls, limit, window).admitted, s, window) < 2 * limit
    ensures forall x: int :: x < 1 ==> Between(1, 100, x) == 1
    ensures forall x: int :: x > 100 ==> Between(1, 100, x) == 100
  {
    FewerThanTwiceTheLimit(calls, limit, window, s);
  }

  /** A refused call never extends the window, and once the advised wait is over the next call is admitted. */
  lemma RefusalsDoNotExtend(record: Option<Record>, limit: int, window: int, now: int, later: int)
    requires limit >= 1 && window > 0 && !Allowed(record, limit, window, now)
    ensures record.Some? && Counted(record, window, now).expiresAt == record.value.expiresAt
    ensures var refused := Some(Counted(record, window, now));
            var retryAfter := refused.value.expiresAt - now;
            && retryAfter > 0
            && (later >= now + retryAfter ==> Allowed(refused, limit, window, later))
  {
  }

  /** While a window is open, its first `limit` calls are admitted and every later one is refused. */
  lemma {:induction false} WindowAdmitsExactlyTheLimit(calls: seq<Call>, limit: int, window: int)
    requires limit >= 1 && window > 0 && Monotone(calls) && calls != []
    requires forall i :: 0 <= i < |calls| ==> calls[i].at < calls[0].at + window
    ensures Replay(calls, limit, window).record == Some(Record(|calls|, calls[0].at + window))
    ensures |Replay(calls, limit, window).admitted| == if |calls| <= limit then |calls| else limit
  {
    if |calls| == 1 {
      assert Replay(calls[..0], limit, window) == Past(None, []);
    } else {
      WindowAdmitsExactlyTheLimit(calls[..|calls| - 1], limit, window);
    }
  }

  function Repeated(at: int, n: nat): seq<Call>
    ensures |Repeated(at, n)| == n
  {
    if n == 0 then [] else Repeated(at, n - 1) + [Call(at, false)]
  }

  /** One opening call, then a burst at the end of its window, then a burst in the next. */
  function Burst(limit: int, window: int, early: nat, late: nat): seq<Call> {
    [Call(0, false)] + Repeated(window - 1, early) + Repeated(window, late)
  }

  /** The record and the admissions after a burst. */
  ghost predicate Struck(limit: int, window: int, early: nat, late: nat, past: Past) {
    && past == Replay(Burst(limit, window, early, late), limit, window)
    && past.record == Some(if late == 0 then Record(1 + early, window) else Record(late, 2 * window))
    && Stretch(past.admitted, window - 1, window) == early + late
  }

  lemma OpeningCall(limit: int, window: int) returns (past: Past)
    requires window > 1 && limit > 0
    ensures Struck(limit, window, 0, 0, past)
  {
    assert Burst(limit, window, 0, 0) == [] + [Call(0, false)];
    ReplayAppend([], Call(0, false), limit, window);
    past := Followed(Past(None, []), Call(0, false), limit, window);
    AppendAdmitted([], 0, window - 1, 2 * window - 1);
    assert past.admitted == [] + [0];
  }

  lemma EarlyCall(limit: int, window: int, early: nat, past: Past)
    requires window > 1 && early + 1 < limit && Struck(limit, window, early, 0, past)
    ensures Struck(limit, window, early + 1, 0, Followed(past, Call(window - 1, false), limit, window))
  {
    assert Burst(limit, window, early + 1, 0) == Burst(limit, window, early, 0) + [Call(window - 1, false)];
    ReplayAppend(Burst(limit, window, early, 0), Call(window - 1, false), limit, window);
    AppendAdmitted(past.admitted, window - 1, window - 1, 2 * window - 1);
  }

  lemma LateCall(limit: int, window: int, early: nat, late: nat, past: Past)
    requires window > 1 && early < limit && late < limit && Struck(limit, window, early, late, past)
    ensures Struck(limit, window, early, late + 1, Followed(past, Call(window, false), limit, window))
  {
    assert Burst(limit, window, early, late + 1) == Burst(limit, window, early, late) + [Call(window, false)];
    ReplayAppend(Burst(limit, window, early, late), Call(window, false), limit, window);
    AppendAdmitted(past.admitted, window, window - 1, 2 * window - 1);
  }

  lemma {:induction false} EarlyBurst(limit: int, window: int, early: nat) returns (past: Past)
    requires window > 1 && early < limit
    ensures Struck(limit, window, early, 0, past)
  {
    if early == 0 {
      past := OpeningCall(limit, window);
    } else {
      past := EarlyBurst(limit, window, early - 1);
      EarlyCall(limit, window, early - 1, past);
      past := Followed(past, Call(window - 1, false), limit, window);
    }
  }

  lemma {:induction false} LateBurst(limit: int, window: int, early: nat, late: nat) returns (past: Past)
    requires window > 1 && early < limit && late <= limit
    ensures Struck(limit, window, early, late, past)
  {
    if late == 0 {
      past := EarlyBurst(limit, window, early);
    } else {
      past := LateBurst(limit, window, early, late - 1);
      LateCall(limit, window, early, late - 1, past);
      past := Followed(past, Call(window, false), limit, window);
    }
  }

  /** The bound is met: some history admits exactly one fewer than twice the limit in one stretch. */
  lemma BoundIsTight(limit: int, window: int)
    requires 1 <= limit && 1 < window
    ensures var past := Replay(Burst(limit, window, limit - 1, limit), limit, window);
            Stretch(past.admitted, window - 1, window) == 2 * limit - 1
  {
    var past := LateBurst(limit, window, limit - 1, limit);
  }
}
