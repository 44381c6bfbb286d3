/** Temporary login delays per account and network origin. */
module LoginLimiter {
  import opened Revisions

  // Times and durations in nanoseconds.
  const MINUTE: int := 60 * 1_000_000_000
  const FAILURE_RESET: int := 24 * 60 * MINUTE

  datatype Key = Key(account: string, source: string)
  // lastFailed is None for the zero time of a key never seen.
  datatype Attempt = Attempt(failures: nat, lastFailed: Option<int>)

  const NO_ATTEMPT := Attempt(0, None)

  function AttemptOf(attempts: map<Key, Attempt>, key: Key): Attempt {
    if key in attempts then attempts[key] else NO_ATTEMPT
  }

  function Failed(a: Attempt, now: int): Attempt {
    if a.lastFailed.Some? && now - a.lastFailed.value >= FAILURE_RESET then Attempt(1, Some(now))
    else Attempt(a.failures + 1, Some(now))
  }

  /** The wait after so many failures. */
  function Delay(failures: nat): int {
    if failures < 5 then 0
    else if failures == 5 then MINUTE
    else if failures == 6 then 5 * MINUTE
    else if failures == 7 then 10 * MINUTE
    else 15 * MINUTE
  }

  function Retry(a: Attempt, now: int): int {
    if a.failures < 5 || a.lastFailed.None? then 0 else
      var remaining := a.lastFailed.value + Delay(a.failures) - now;
      if remaining <= 0 then 0 else remaining
  }

  /** A recorded attempt always has a time. */
  predicate Timed(a: Attempt) {
    a.failures > 0 <==> a.lastFailed.Some?
  }

  class LoginLimiter {
    var attempts: map<Key, Attempt>

    ghost predicate Valid()
      reads this
    {
      forall key :: key in attempts ==> Timed(attempts[key])
    }

    constructor ()
      ensures Valid() && attempts == map[]
    {
      attempts := map[];
    }

    method RecordFailure(account: string, source: string, now: int)
      requires Valid()
      modifies this
      ensures Valid()
      ensures attempts == old(attempts)[Key(account, source) := Failed(AttemptOf(old(attempts), Key(account, source)), now)]
    {
      var key := Key(account, source);
      var attempt := AttemptOf(attempts, key);
      if attempt.lastFailed.Some? && now - attempt.lastFailed.value >= FAILURE_RESET {
        attempt := attempt.(failures := 0);
      }
      attempt := attempt.(failures := attempt.failures + 1, lastFailed := Some(now));
      attempts := attempts[key := attempt];
    }

    method RetryAfter(account: string, source: string, now: int) returns (wait: int)
      requires Valid()
      ensures wait == Retry(AttemptOf(attempts, Key(account, source)), now)
      ensures wait >= 0
    {
      var attempt := AttemptOf(attempts, Key(account, source));
      if attempt.failures < 5 {
        return 0;
      }
      var delay := MINUTE;
      match attempt.failures {
        case 6 => delay := 5 * MINUTE;
        case 7 => delay := 10 * MINUTE;
        case _ => if attempt.failures >= 8 { delay := 15 * MINUTE; }
      }
      assert Timed(attempt);
      var remaining := attempt.lastFailed.value + delay - now;
      wait := if remaining <= 0 then 0 else remaining;
    }

    method Reset(account: string, source: string)
      requires Valid()
      modifies this
      ensures Valid() && attempts == old(attempts) - {Key(account, source)}
    {
      attempts := attempts - {Key(account, source)};
    }
  }

  // ------------------------------------------------------------------ runs

  // One login start: the delay is read at checked, the failure recorded at recorded.
  datatype Start = Start(checked: int, recorded: int)

  /** The clock never goes back and starts are handled one at a time. */
  ghost predicate Ordered(starts: seq<Start>) {
    && (forall i :: 0 <= i < |starts| ==> starts[i].checked <= starts[i].recorded)
    && forall i :: 0 <= i < |starts| - 1 ==> starts[i].recorded <= starts[i + 1].checked
  }

  /** The record of one key after some starts; a delayed start changes nothing. */
  function After(starts: seq<Start>, n: nat): Attempt
    requires n <= |starts|
  {
    if n == 0 then NO_ATTEMPT else
      var before := After(starts, n - 1);
      if Retry(before, starts[n - 1].checked) > 0 then before else Failed(before, starts[n - 1].recorded)
  }

  /** When the accepted ones among the first n starts were recorded. */
  function Accepted(starts: seq<Start>, n: nat): seq<int>
    requires n <= |starts|
  {
    if n == 0 then [] else
      var before := Accepted(starts, n - 1);
      if Retry(After(starts, n - 1), starts[n - 1].checked) > 0 then before else before + [starts[n - 1].recorded]
  }

  ghost predicate UnderADay(times: seq<int>) {
    forall i :: 0 <= i < |times| - 1 ==> times[i + 1] - times[i] < FAILURE_RESET
  }

  /** Without a day's pause every accepted start counts, and each keeps its distance. */
  lemma {:induction false} EveryStartCounts(starts: seq<Start>, n: nat)
    requires n <= |starts| && Ordered(starts) && UnderADay(Accepted(starts, n))
    ensures var times := Accepted(starts, n);
            && After(starts, n).failures == |times|
            && After(starts, n).lastFailed == (if times == [] then None else Some(times[|times| - 1]))
            && (times != [] ==> n > 0 && times[|times| - 1] <= starts[n - 1].recorded)
            && forall i :: 0 <= i < |times| - 1 ==> times[i + 1] - times[i] >= Delay(i + 1)
  {
    if n > 0 {
      var before, times := Accepted(starts, n - 1), Accepted(starts, n);
      assert before <= times;
      assert UnderADay(before) by {
        forall i | 0 <= i < |before| - 1 ensures before[i + 1] - before[i] < FAILURE_RESET {
          assert times[i + 1] - times[i] < FAILURE_RESET;
        }
      }
      EveryStartCounts(starts, n - 1);
      var at := starts[n - 1];
      if Retry(After(starts, n - 1), at.checked) <= 0 && before != [] {
        var last := before[|before| - 1];
        assert times[|before| - 1] == last && times[|before|] == at.recorded;
        assert at.recorded - last < FAILURE_RESET;
        assert last <= starts[n - 2].recorded <= at.checked;
        assert at.checked - last >= Delay(|before|);
        forall i | 0 <= i < |times| - 1 ensures times[i + 1] - times[i] >= Delay(i + 1) {
          if i < |before| - 1 { assert before[i + 1] - before[i] >= Delay(i + 1); }
        }
      }
    }
  }

  /** The rate bound: without success and without a day's pause, the n-th accepted
      start (n >= 8) comes at least 16 + 15 (n - 8) minutes after the fifth. */
  lemma {:induction false} RateBound(starts: seq<Start>, n: nat)
    requires Ordered(starts) && UnderADay(Accepted(starts, |starts|))
    requires 8 <= n <= |Accepted(starts, |starts|)|
    ensures Accepted(starts, |starts|)[n - 1] - Accepted(starts, |starts|)[4] >= (16 + 15 * (n - 8)) * MINUTE
  {
    EveryStartCounts(starts, |starts|);
    var times := Accepted(starts, |starts|);
    if n == 8 {
      assert times[5] - times[4] >= Delay(5) && times[6] - times[5] >= Delay(6) && times[7] - times[6] >= Delay(7);
    } else {
      RateBound(starts, n - 1);
      assert times[n - 2 + 1] - times[n - 2] >= Delay(n - 1);
    }
  }

  /** Nobody waits longer than a quarter of an hour, and after that wait the next
      start is accepted. */
  lemma {:induction false} DelayIsTemporary(starts: seq<Start>, n: nat, now: int)
    requires n <= |starts| && Ordered(starts) && (n > 0 ==> starts[n - 1].recorded <= now)
    ensures 0 <= Retry(After(starts, n), now) <= 15 * MINUTE
    ensures Retry(After(starts, n), now + Retry(After(starts, n), now)) == 0
    ensures After(starts, n).lastFailed.Some? ==> n > 0 && After(starts, n).lastFailed.value <= starts[n - 1].recorded
  {
    if n > 0 {
      if n > 1 { assert starts[n - 2].recorded <= starts[n - 2 + 1].checked; }
      DelayIsTemporary(starts, n - 1, starts[n - 1].recorded);
    }
  }

  /** Four failures never delay anyone; five within a day always do. */
  lemma {:induction false} FifthFailureDelays(starts: seq<Start>, n: nat)
    requires n <= |starts| && Ordered(starts) && UnderADay(Accepted(starts, n))
    ensures |Accepted(starts, n)| < 5 ==> forall now :: Retry(After(starts, n), now) == 0
    ensures |Accepted(starts, n)| >= 5 ==>
              forall now :: now < Accepted(starts, n)[|Accepted(starts, n)| - 1] + MINUTE ==> Retry(After(starts, n), now) > 0
  {
    EveryStartCounts(starts, n);
  }

  // ------------------------------------------------- counts across long pauses

  /** How many of the times come after the last pause of 24 hours or more. */
  function SincePause(times: seq<int>): (n: nat)
    ensures n <= |times| && (times != [] ==> n > 0)
  {
    var last := |times| - 1;
    if times == [] then 0
    else if last > 0 && times[last] - times[last - 1] >= 24 * 60 * 60 * 1_000_000_000 then 1
    else SincePause(times[..last]) + 1
  }

  /** What that number says: no pause among the times it counts, and one just before. */
  lemma {:induction false} SincePauseMeaning(times: seq<int>)
    ensures var first := |times| - SincePause(times);
            && (forall i :: first < i < |times| ==> times[i] - times[i - 1] < 24 * 60 * 60 * 1_000_000_000)
            && (0 < first < |times| ==> times[first] - times[first - 1] >= 24 * 60 * 60 * 1_000_000_000)
            && (first == 0 || times != [])
  {
    var last := |times| - 1;
    if times != [] && !(last > 0 && times[last] - times[last - 1] >= 24 * 60 * 60 * 1_000_000_000) {
      SincePauseMeaning(times[..last]);
    }
  }

  lemma {:induction false} OneMoreTime(times: seq<int>, at: int)
    ensures SincePause(times + [at]) ==
            if times != [] && at - times[|times| - 1] >= 24 * 60 * 60 * 1_000_000_000 then 1 else SincePause(times) + 1
  {
    assert (times + [at])[..|times|] == times;
  }

  lemma {:induction false} OneMoreFailure(a: Attempt, times: seq<int>, at: int)
    requires a.failures == SincePause(times) && a.lastFailed == if times == [] then None else Some(times[|times| - 1])
    ensures Failed(a, at) == Attempt(SincePause(times + [at]), Some(at))
  {
    OneMoreTime(times, at);
  }

  /** The record of a key is the number of accepted starts since the last pause of 24
      hours or more between two of them, and the time of the last one. */
  lemma {:induction false} FailuresSincePause(starts: seq<Start>, n: nat)
    requires n <= |starts|
    ensures After(starts, n).failures == SincePause(Accepted(starts, n))
    ensures After(starts, n).lastFailed == if Accepted(starts, n) == [] then None else Some(Accepted(starts, n)[|Accepted(starts, n)| - 1])
  {
    if n > 0 {
      FailuresSincePause(starts, n - 1);
      OneMoreFailure(After(starts, n - 1), Accepted(starts, n - 1), starts[n - 1].recorded);
    }
  }

  /** How long a start has to wait, over whole runs: not at all before the fifth accepted
      start since the last long pause, then until 1, 5, 10 and from the eighth on 15
      minutes after the last accepted one. */
  lemma {:induction false} WaitIsExact(starts: seq<Start>, n: nat, now: int)
    requires n <= |starts|
    ensures var times := Accepted(starts, n); var count := SincePause(times);
            if count < 5 then Retry(After(starts, n), now) == 0 else
              var minutes := if count == 5 then 1 else if count == 6 then 5 else if count == 7 then 10 else 15;
              var until := times[|times| - 1] + minutes * 60_000_000_000;
              Retry(After(starts, n), now) == if until <= now then 0 else until - now
  {
    FailuresSincePause(starts, n);
  }

  /** After a pause of 24 hours fewer than five further starts never delay. */
  lemma {:induction false} PauseForgives(starts: seq<Start>, n: nat, first: nat, now: int)
    requires n <= |starts| && 0 < first < |Accepted(starts, n)| < first + 5
    requires Accepted(starts, n)[first] - Accepted(starts, n)[first - 1] >= 24 * 60 * 60 * 1_000_000_000
    ensures Retry(After(starts, n), now) == 0
  {
    FailuresSincePause(starts, n);
    SincePauseMeaning(Accepted(starts, n));
  }
}
