/**
 * The gateway's in-memory guards: a fixed-window rate limiter, and the lockout
 * after failed logins. Both forget expired entries in a periodic sweep. Times are
 * milliseconds; each call is given the clock it reads.
 */
module RateLimit {
  import opened Common

  type Key = string

  function CeilSeconds(ms: int): int {
    -((-ms) / 1000)
  }

  // ----------------------------------------------------------------- limiter

  datatype Bucket = Bucket(count: nat, resetAt: int)

  datatype Answer = Answer(allowed: bool, retryAfterSeconds: int)

  type Buckets = map<Key, Bucket>

  datatype Limits = Limits(limit: nat, windowMs: nat)

  function Consumed(l: Limits, buckets: Buckets, key: Key, now: int): (Buckets, Answer) {
    if key !in buckets || buckets[key].resetAt <= now then
      (buckets[key := Bucket(1, now + l.windowMs)], Answer(true, 0))
    else if buckets[key].count >= l.limit then
      (buckets, Answer(false, CeilSeconds(buckets[key].resetAt - now)))
    else
      (buckets[key := buckets[key].(count := buckets[key].count + 1)], Answer(true, 0))
  }

  function Swept(buckets: Buckets, now: int): Buckets {
    map k | k in buckets && now < buckets[k].resetAt :: buckets[k]
  }

  class RateLimiter {
    const limits: Limits
    var buckets: Buckets

    constructor (limits: Limits)
      ensures this.limits == limits && buckets == map[]
    {
      this.limits, buckets := limits, map[];
    }

    method TryConsume(key: Key, now: int) returns (a: Answer)
      modifies this
      ensures (buckets, a) == Consumed(limits, old(buckets), key, now)
      ensures a.allowed <==> key !in old(buckets) || old(buckets)[key].resetAt <= now || old(buckets)[key].count < limits.limit
      ensures a.allowed ==> a.retryAfterSeconds == 0
      ensures a.allowed && (key !in old(buckets) || old(buckets)[key].resetAt <= now) ==>
                buckets == old(buckets)[key := Bucket(1, now + limits.windowMs)]
      ensures a.allowed && key in old(buckets) && now < old(buckets)[key].resetAt ==>
                buckets == old(buckets)[key := Bucket(old(buckets)[key].count + 1, old(buckets)[key].resetAt)]
      ensures !a.allowed ==>
                var left := old(buckets)[key].resetAt - now;
                buckets == old(buckets) && left <= 1000 * a.retryAfterSeconds < left + 1000
    {
      if key !in buckets || buckets[key].resetAt <= now {
        buckets := buckets[key := Bucket(1, now + limits.windowMs)];
        return Answer(true, 0);
      }
      var bucket := buckets[key];
      if bucket.count >= limits.limit {
        return Answer(false, CeilSeconds(bucket.resetAt - now));
      }
      buckets := buckets[key := bucket.(count := bucket.count + 1)];
      return Answer(true, 0);
    }

    method Sweep(now: int)
      modifies this
      ensures buckets == Swept(old(buckets), now)
      ensures forall k :: k in buckets <==> k in old(buckets) && now < old(buckets)[k].resetAt
      ensures forall k :: k in buckets ==> buckets[k] == old(buckets)[k]
    {
      var left := buckets.Keys;
      while left != {}
        invariant left <= old(buckets).Keys
        invariant buckets == map k | k in old(buckets) && (k in left || now < old(buckets)[k].resetAt) :: old(buckets)[k]
        decreases |left|
      {
        var key :| key in left;
        if buckets[key].resetAt <= now {
          buckets := buckets - {key};
        }
        left := left - {key};
      }
    }
  }

  /** A trace of calls; what a prefix of it answers and leaves behind is computed from its end. */
  datatype Call = Try(key: Key, now: int) | Sweep(now: int)

  predicate ClockRuns(trace: seq<Call>) {
    forall i, j :: 0 <= i < j < |trace| ==> trace[i].now <= trace[j].now
  }

  function BucketsAfter(l: Limits, trace: seq<Call>): Buckets {
    if trace == [] then map[]
    else
      var before := BucketsAfter(l, trace[..|trace| - 1]);
      match trace[|trace| - 1]
      case Try(key, now) => Consumed(l, before, key, now).0
      case Sweep(now) => Swept(before, now)
  }

  /** The answers to the requests of a trace. */
  function Answers(l: Limits, trace: seq<Call>): seq<Answer> {
    if trace == [] then []
    else
      var front := trace[..|trace| - 1];
      match trace[|trace| - 1]
      case Try(key, now) => Answers(l, front) + [Consumed(l, BucketsAfter(l, front), key, now).1]
      case Sweep(_) => Answers(l, front)
  }

  /** Requests of `key` allowed at a time in [from, from + windowMs). */
  function AllowedWithin(l: Limits, trace: seq<Call>, key: Key, from: int): nat {
    if trace == [] then 0
    else
      var front := trace[..|trace| - 1];
      var call := trace[|trace| - 1];
      AllowedWithin(l, front, key, from) +
      if call.Try? && call.key == key && from <= call.now < from + l.windowMs
         && Consumed(l, BucketsAfter(l, front), key, call.now).1.allowed then 1 else 0
  }

  function Unswept(trace: seq<Call>): seq<Call> {
    if trace == [] then []
    else if trace[|trace| - 1].Sweep? then Unswept(trace[..|trace| - 1])
    else Unswept(trace[..|trace| - 1]) + [trace[|trace| - 1]]
  }

  /** What still counts of a bucket at `now`: an expired one is as good as none. */
  function Current(buckets: Buckets, key: Key, now: int): Option<Bucket> {
    if key in buckets && now < buckets[key].resetAt then Some(buckets[key]) else None
  }

  ghost predicate SameFrom(a: Buckets, b: Buckets, from: int) {
    forall key, now :: from <= now ==> Current(a, key, now) == Current(b, key, now)
  }

  lemma ConsumedAlike(l: Limits, a: Buckets, b: Buckets, key: Key, now: int)
    requires SameFrom(a, b, now)
    ensures Consumed(l, a, key, now).1 == Consumed(l, b, key, now).1
    ensures SameFrom(Consumed(l, a, key, now).0, Consumed(l, b, key, now).0, now)
  {
    assert Current(a, key, now) == Current(b, key, now);
    forall k, at | now <= at
      ensures Current(Consumed(l, a, key, now).0, k, at) == Current(Consumed(l, b, key, now).0, k, at)
    {
      assert Current(a, k, at) == Current(b, k, at);
    }
  }

  lemma {:induction false} SweepsChangeNothing(l: Limits, trace: seq<Call>, from: int)
    requires ClockRuns(trace) && forall i :: 0 <= i < |trace| ==> trace[i].now <= from
    ensures SameFrom(BucketsAfter(l, trace), BucketsAfter(l, Unswept(trace)), from)
    ensures Answers(l, trace) == Answers(l, Unswept(trace))
  {
    if trace != [] {
      var front := trace[..|trace| - 1];
      var call := trace[|trace| - 1];
      SweepsChangeNothing(l, front, call.now);
      if call.Try? {
        assert Unswept(trace)[..|Unswept(front)|] == Unswept(front);
        ConsumedAlike(l, BucketsAfter(l, front), BucketsAfter(l, Unswept(front)), call.key, call.now);
      }
    }
  }

  /** Inserting sweeps anywhere, or leaving them all out, changes no answer. */
  lemma SweepIsInvisible(l: Limits, trace: seq<Call>)
    requires ClockRuns(trace)
    ensures Answers(l, trace) == Answers(l, Unswept(trace))
  {
    if trace != [] {
      SweepsChangeNothing(l, trace, trace[|trace| - 1].now);
    }
  }

  // ------------------------------------------------------ at most two windows

  /** The last window a key opened, from its history alone: when, and how many requests it let through. */
  datatype Window = Window(start: int, count: nat)

  function LastWindow(l: Limits, trace: seq<Call>, key: Key): Option<Window> {
    if trace == [] then None
    else
      var before := LastWindow(l, trace[..|trace| - 1], key);
      var call := trace[|trace| - 1];
      if call.Sweep? || call.key != key then before
      else if before.None? || before.value.start + l.windowMs <= call.now then Some(Window(call.now, 1))
      else if before.value.count < l.limit then Some(before.value.(count := before.value.count + 1))
      else before
  }

  function BucketOf(l: Limits, w: Option<Window>, now: int): Option<Bucket> {
    if w.Some? && now < w.value.start + l.windowMs then Some(Bucket(w.value.count, w.value.start + l.windowMs)) else None
  }

  /** Swept or not, the live bucket of a key is its last window. */
  lemma {:induction false} BucketIsLastWindow(l: Limits, trace: seq<Call>, key: Key, at: int)
    requires ClockRuns(trace) && forall i :: 0 <= i < |trace| ==> trace[i].now <= at
    ensures Current(BucketsAfter(l, trace), key, at) == BucketOf(l, LastWindow(l, trace, key), at)
  {
    if trace != [] {
      var front := trace[..|trace| - 1];
      var call := trace[|trace| - 1];
      BucketIsLastWindow(l, front, key, call.now);
      BucketIsLastWindow(l, front, key, at);
    }
  }

  /** How many requests in [from, from + windowMs) the windows so far can account for. */
  function Accounted(l: Limits, w: Option<Window>, from: int): nat {
    if w.None? then 0
    else if w.value.start < from then w.value.count
    else if w.value.start < from + l.windowMs then l.limit + w.value.count
    else 2 * l.limit
  }

  lemma {:induction false} AllowedIsAccounted(l: Limits, trace: seq<Call>, key: Key, from: int)
    requires l.limit >= 1 && ClockRuns(trace)
    ensures AllowedWithin(l, trace, key, from) <= Accounted(l, LastWindow(l, trace, key), from)
    ensures LastWindow(l, trace, key).Some? ==>
              LastWindow(l, trace, key).value.count <= l.limit
              && trace != [] && LastWindow(l, trace, key).value.start <= trace[|trace| - 1].now
    ensures trace != [] && trace[|trace| - 1].now < from ==> AllowedWithin(l, trace, key, from) == 0
  {
    if trace != [] {
      var front := trace[..|trace| - 1];
      var call := trace[|trace| - 1];
      AllowedIsAccounted(l, front, key, from);
      BucketIsLastWindow(l, front, key, call.now);
      if front != [] {
        assert front[|front| - 1] == trace[|trace| - 2];
      }
    }
  }

  /** Every half-open interval as long as the window lets at most twice the limit through, per key. */
  lemma AtMostTwiceTheLimit(l: Limits, trace: seq<Call>, key: Key, from: int)
    requires l.limit >= 1 && ClockRuns(trace)
    ensures AllowedWithin(l, trace, key, from) <= 2 * l.limit
  {
    AllowedIsAccounted(l, trace, key, from);
  }

  /** A refused client that waits the announced seconds is let through, if its key stayed quiet. */
  lemma RetryAfterIsEnough(l: Limits, buckets: Buckets, key: Key, now: int, later: int)
    requires !Consumed(l, buckets, key, now).1.allowed
    requires now + 1000 * Consumed(l, buckets, key, now).1.retryAfterSeconds <= later
    ensures Consumed(l, buckets, key, now).1.retryAfterSeconds > 0
    ensures Consumed(l, Consumed(l, buckets, key, now).0, key, later).1.allowed
  {
    CeilSecondsCovers(buckets[key].resetAt - now);
  }

  lemma CeilSecondsCovers(ms: int)
    requires ms > 0
    ensures CeilSeconds(ms) > 0 && ms <= 1000 * CeilSeconds(ms) < ms + 1000
  {
  }

  // ------------------------------------------------------ failed-login lockout

  datatype Entry = Entry(count: nat, lastAt: int)

  type Failures = map<Key, Entry>

  datatype Lockout = Lockout(maxFailures: nat, lockoutMs: nat)

  function Forgotten(c: Lockout, failures: Failures, key: Key, now: int): Failures {
    if key in failures && failures[key].lastAt + c.lockoutMs <= now then failures - {key} else failures
  }

  function LockedSeconds(c: Lockout, failures: Failures, key: Key, now: int): int {
    if key !in failures || failures[key].lastAt + c.lockoutMs <= now then 0
    else if failures[key].count >= c.maxFailures then CeilSeconds(failures[key].lastAt + c.lockoutMs - now)
    else 0
  }

  function AfterFailure(c: Lockout, failures: Failures, key: Key, now: int): Failures {
    var restart := key !in failures || failures[key].lastAt + c.lockoutMs <= now;
    failures[key := Entry(if restart then 1 else failures[key].count + 1, now)]
  }

  function AfterLoginSweep(c: Lockout, failures: Failures, now: int): Failures {
    map k | k in failures && now < failures[k].lastAt + c.lockoutMs :: failures[k]
  }

  class FailedLoginTracker {
    const config: Lockout
    var failures: Failures

    constructor (config: Lockout)
      ensures this.config == config && failures == map[]
    {
      this.config, failures := config, map[];
    }

    /** Seconds left on the lockout, 0 if the key may try; an expired entry is dropped on the way. */
    method LockedFor(key: Key, now: int) returns (seconds: int)
      modifies this
      ensures seconds == LockedSeconds(config, old(failures), key, now)
      ensures failures == Forgotten(config, old(failures), key, now)
      ensures var locked := key in old(failures) && now < old(failures)[key].lastAt + config.lockoutMs
                            && config.maxFailures <= old(failures)[key].count;
              if locked then
                var left := old(failures)[key].lastAt + config.lockoutMs - now; left <= 1000 * seconds < left + 1000
              else seconds == 0
      ensures failures == if key in old(failures) && old(failures)[key].lastAt + config.lockoutMs <= now
                          then old(failures) - {key} else old(failures)
    {
      if key !in failures {
        return 0;
      }
      var entry := failures[key];
      var left := entry.lastAt + config.lockoutMs - now;
      if left <= 0 {
        failures := failures - {key};
        return 0;
      }
      return if entry.count >= config.maxFailures then CeilSeconds(left) else 0;
    }

    method RecordFailure(key: Key, now: int)
      modifies this
      ensures failures == AfterFailure(config, old(failures), key, now)
      ensures failures == old(failures)[key := Entry(
                if key in old(failures) && now < old(failures)[key].lastAt + config.lockoutMs then old(failures)[key].count + 1 else 1, now)]
    {
      var restart := key !in failures || failures[key].lastAt + config.lockoutMs <= now;
      failures := failures[key := Entry(if restart then 1 else failures[key].count + 1, now)];
    }

    method RecordSuccess(key: Key)
      modifies this
      ensures failures == old(failures) - {key}
    {
      failures := failures - {key};
    }

    method Sweep(now: int)
      modifies this
      ensures failures == AfterLoginSweep(config, old(failures), now)
      ensures forall k :: k in failures <==> k in old(failures) && now < old(failures)[k].lastAt + config.lockoutMs
      ensures forall k :: k in failures ==> failures[k] == old(failures)[k]
    {
      var left := failures.Keys;
      while left != {}
        invariant left <= old(failures).Keys
        invariant failures == map k | k in old(failures) && (k in left || now < old(failures)[k].lastAt + config.lockoutMs) :: old(failures)[k]
        decreases |left|
      {
        var key :| key in left;
        if failures[key].lastAt + config.lockoutMs <= now {
          failures := failures - {key};
        }
        left := left - {key};
      }
    }
  }

  datatype LoginEvent =
    | Failed(key: Key, now: int)
    | Succeeded(key: Key, now: int)
    | Asked(key: Key, now: int)
    | Cleaned(now: int)

  predicate LoginClockRuns(history: seq<LoginEvent>) {
    forall i, j :: 0 <= i < j < |history| ==> history[i].now <= history[j].now
  }

  function FailuresAfter(c: Lockout, history: seq<LoginEvent>): Failures {
    if history == [] then map[]
    else
      var before := FailuresAfter(c, history[..|history| - 1]);
      match history[|history| - 1]
      case Failed(key, now) => AfterFailure(c, before, key, now)
      case Succeeded(key, _) => before - {key}
      case Asked(key, now) => Forgotten(c, before, key, now)
      case Cleaned(now) => AfterLoginSweep(c, before, now)
  }

  /**
   * The streak at time `at`, read off the history backwards: failures of the key since its
   * last success, each within the lockout of the next, the last within the lockout of `at`.
   */
  function Streak(c: Lockout, history: seq<LoginEvent>, key: Key, at: int): nat {
    if history == [] then 0
    else
      var front := history[..|history| - 1];
      match history[|history| - 1]
      case Failed(k, now) =>
        if k != key then Streak(c, front, key, at)
        else if now + c.lockoutMs <= at then 0
        else Streak(c, front, key, now) + 1
      case Succeeded(k, _) => if k == key then 0 else Streak(c, front, key, at)
      case _ => Streak(c, front, key, at)
  }

  /** When the key last failed, at or before any event of the history. */
  function LastFailure(history: seq<LoginEvent>, key: Key): Option<int> {
    if history == [] then None
    else
      var last := history[|history| - 1];
      if last.Failed? && last.key == key then Some(last.now) else LastFailure(history[..|history| - 1], key)
  }

  lemma {:induction false} EntryIsStreak(c: Lockout, history: seq<LoginEvent>, key: Key, at: int)
    requires LoginClockRuns(history) && forall i :: 0 <= i < |history| ==> history[i].now <= at
    ensures var f := FailuresAfter(c, history);
            if key in f && at < f[key].lastAt + c.lockoutMs
            then Streak(c, history, key, at) == f[key].count && f[key].count > 0 && LastFailure(history, key) == Some(f[key].lastAt)
            else Streak(c, history, key, at) == 0
  {
    if history != [] {
      var front := history[..|history| - 1];
      var last := history[|history| - 1];
      EntryIsStreak(c, front, key, at);
      EntryIsStreak(c, front, key, last.now);
    }
  }

  /** A key is locked exactly while its streak has reached the limit, for as long as the lockout of its last failure runs. */
  lemma LockedIffStreakReached(c: Lockout, history: seq<LoginEvent>, key: Key, at: int)
    requires c.maxFailures >= 1 && LoginClockRuns(history) && forall i :: 0 <= i < |history| ==> history[i].now <= at
    ensures LockedSeconds(c, FailuresAfter(c, history), key, at) >= 0
    ensures LockedSeconds(c, FailuresAfter(c, history), key, at) > 0 <==> Streak(c, history, key, at) >= c.maxFailures
    ensures Streak(c, history, key, at) >= c.maxFailures ==>
              && LastFailure(history, key).Some?
              && LockedSeconds(c, FailuresAfter(c, history), key, at) == CeilSeconds(LastFailure(history, key).value + c.lockoutMs - at)
  {
    EntryIsStreak(c, history, key, at);
    var f := FailuresAfter(c, history);
    if key in f && at < f[key].lastAt + c.lockoutMs {
      CeilSecondsCovers(f[key].lastAt + c.lockoutMs - at);
    }
  }

  function WithoutCleaning(history: seq<LoginEvent>): seq<LoginEvent> {
    if history == [] then []
    else
      var last := history[|history| - 1];
      WithoutCleaning(history[..|history| - 1]) + if last.Cleaned? || last.Asked? then [] else [last]
  }

  lemma {:induction false} CleaningKeepsStreaks(c: Lockout, history: seq<LoginEvent>, key: Key, at: int)
    ensures Streak(c, WithoutCleaning(history), key, at) == Streak(c, history, key, at)
    ensures LastFailure(WithoutCleaning(history), key) == LastFailure(history, key)
    decreases |history|
  {
    if history != [] {
      var front := history[..|history| - 1];
      var last := history[|history| - 1];
      var clean := WithoutCleaning(front);
      CleaningKeepsStreaks(c, front, key, at);
      CleaningKeepsStreaks(c, front, key, last.now);
      if last.Cleaned? || last.Asked? {
        assert WithoutCleaning(history) == clean;
      } else {
        assert WithoutCleaning(history) == clean + [last];
        assert (clean + [last])[..|clean|] == clean;
        hide WithoutCleaning;
      }
    }
  }

  lemma {:induction false} CleaningKeepsOrder(history: seq<LoginEvent>, at: int)
    requires LoginClockRuns(history) && forall i :: 0 <= i < |history| ==> history[i].now <= at
    ensures LoginClockRuns(WithoutCleaning(history))
    ensures forall i :: 0 <= i < |WithoutCleaning(history)| ==> WithoutCleaning(history)[i].now <= at
  {
    if history != [] {
      CleaningKeepsOrder(history[..|history| - 1], history[|history| - 1].now);
    }
  }

  /** Neither sweeps nor questions change who is locked, or for how long. */
  lemma CleaningIsInvisible(c: Lockout, history: seq<LoginEvent>, key: Key, at: int)
    requires c.maxFailures >= 1 && LoginClockRuns(history) && forall i :: 0 <= i < |history| ==> history[i].now <= at
    ensures LockedSeconds(c, FailuresAfter(c, WithoutCleaning(history)), key, at) == LockedSeconds(c, FailuresAfter(c, history), key, at)
  {
    hide WithoutCleaning;
    hide FailuresAfter;
    hide Streak;
    hide LastFailure;
    hide LockedSeconds;
    CleaningKeepsStreaks(c, history, key, at);
    LockedIffStreakReached(c, history, key, at);
    CleaningKeepsOrder(history, at);
    LockedIffStreakReached(c, WithoutCleaning(history), key, at);
  }
}
