/** The login limiter: a table from rate-limit key to the failures counted
    since the first failure of the current window. Each operation is one
    atomic transition of the table; the clock reading is a parameter. */
module LoginRateLimiter {
  import opened Outcomes

  const MaxAttempts: nat := 5
  const BlockDurationSeconds: nat := 300
  const NanosPerSecond: nat := 1_000_000_000

  /** `windowStart.plusSeconds(300)`, measured in the clock's unit. */
  const BlockDuration: nat := BlockDurationSeconds * NanosPerSecond

  /** An `Instant`, in nanoseconds. */
  type Instant = int

  datatype AttemptInfo = AttemptInfo(count: nat, windowStart: Instant)

  type Attempts = map<string, AttemptInfo>

  /** `isExpired`: strictly after the end of the window, so the last instant
      of the window still counts. */
  predicate IsExpired(info: AttemptInfo, now: Instant) {
    now > info.windowStart + BlockDuration
  }

  /** `new AttemptInfo()`: the first failure of a window. */
  function NewAttemptInfo(now: Instant): AttemptInfo {
    AttemptInfo(1, now)
  }

  function Lookup(attempts: Attempts, key: string): Option<AttemptInfo> {
    if key in attempts then Some(attempts[key]) else None
  }

  /** What the limiter holds against `key` at `now`: the count of a live entry,
      and 0 for an absent or expired one. This is the table as callers observe it. */
  function LiveCount(attempts: Attempts, key: string, now: Instant): nat {
    if key in attempts && !IsExpired(attempts[key], now) then attempts[key].count else 0
  }

  /** The answer of `isBlocked` and the table after its lazy purge. */
  datatype Check = Check(blocked: bool, attempts: Attempts)

  /** `isBlocked`: drops the key's entry if it has expired. */
  function IsBlocked(attempts: Attempts, key: string, now: Instant): (r: Check)
    ensures r.blocked <==> LiveCount(attempts, key, now) >= MaxAttempts
    ensures forall k :: LiveCount(r.attempts, k, now) == LiveCount(attempts, k, now)
    ensures key !in attempts ==> r.attempts == attempts
    ensures key in attempts && IsExpired(attempts[key], now) ==> r.attempts == attempts - {key}
    ensures key in attempts && !IsExpired(attempts[key], now) ==> r.attempts == attempts
    ensures r.attempts - {key} == attempts - {key}
  {
    match Lookup(attempts, key)
    case None => Check(false, attempts)
    case Some(info) =>
      if IsExpired(info, now) then Check(false, attempts - {key})
      else Check(info.count >= MaxAttempts, attempts)
  }

  /** `recordFailedAttempt`: a fresh window on an absent or expired key,
      one more failure in the current window otherwise. */
  function RecordFailedAttempt(attempts: Attempts, key: string, now: Instant): (r: Attempts)
    ensures key in r
    ensures key !in attempts || IsExpired(attempts[key], now) ==> r[key] == AttemptInfo(1, now)
    ensures key in attempts && !IsExpired(attempts[key], now) ==>
              r[key] == AttemptInfo(attempts[key].count + 1, attempts[key].windowStart)
    ensures LiveCount(r, key, now) == LiveCount(attempts, key, now) + 1
    ensures r - {key} == attempts - {key}
  {
    var info :=
      match Lookup(attempts, key)
      case None => NewAttemptInfo(now)
      case Some(existing) =>
        if IsExpired(existing, now) then NewAttemptInfo(now)
        else AttemptInfo(existing.count + 1, existing.windowStart);
    attempts[key := info]
  }

  /** `recordSuccessfulLogin`: forgets the key, so it is unblocked at once. */
  function RecordSuccessfulLogin(attempts: Attempts, key: string): (r: Attempts)
    ensures key !in r
    ensures forall now :: LiveCount(r, key, now) == 0
    ensures forall now :: !IsBlocked(r, key, now).blocked
    ensures r - {key} == attempts - {key}
  {
    attempts - {key}
  }

  /** Whether a key is blocked depends on that key's entry alone. */
  lemma BlockedDependsOnOwnEntry(a1: Attempts, a2: Attempts, key: string, now: Instant)
    requires Lookup(a1, key) == Lookup(a2, key)
    ensures IsBlocked(a1, key, now).blocked == IsBlocked(a2, key, now).blocked
  {
    assert LiveCount(a1, key, now) == LiveCount(a2, key, now);
  }

  /** Purging an entry that has expired makes no difference to a failure
      recorded then or later: the entry would have expired by then anyway. */
  lemma PurgeThenFailIsFail(attempts: Attempts, key: string, now: Instant, later: Instant)
    ensures now <= later ==>
              RecordFailedAttempt(IsBlocked(attempts, key, now).attempts, key, later)
              == RecordFailedAttempt(attempts, key, later)
  {
  }

  /** The table after failures for `key` at the given instants, in order. */
  function FailAll(attempts: Attempts, key: string, times: seq<Instant>): Attempts
    decreases |times|
  {
    if times == [] then attempts
    else RecordFailedAttempt(FailAll(attempts, key, times[..|times| - 1]), key, times[|times| - 1])
  }

  /** No failure in `times` falls after the window opened by the first one. */
  predicate WithinFirstWindow(times: seq<Instant>) {
    |times| > 0 && forall i :: 0 <= i < |times| ==> times[i] <= times[0] + BlockDuration
  }

  /** A key that is free when the first failure arrives: absent or expired. */
  predicate FreeAt(attempts: Attempts, key: string, now: Instant) {
    key !in attempts || IsExpired(attempts[key], now)
  }

  /** Failures inside one window count up from 1, and the window stays
      anchored at the first failure. */
  lemma {:induction false} FailuresAccumulate(attempts: Attempts, key: string, times: seq<Instant>)
    requires WithinFirstWindow(times)
    requires FreeAt(attempts, key, times[0])
    ensures key in FailAll(attempts, key, times)
    ensures FailAll(attempts, key, times)[key] == AttemptInfo(|times|, times[0])
    decreases |times|
  {
    if |times| == 1 {
      assert times[..0] == [];
    } else {
      var init := times[..|times| - 1];
      assert init[0] == times[0];
      assert forall i :: 0 <= i < |init| ==> init[i] == times[i];
      FailuresAccumulate(attempts, key, init);
      var last := times[|times| - 1];
      assert !IsExpired(AttemptInfo(|init|, times[0]), last);
    }
  }

  /** Five failures within five minutes of the first block the key until the
      end of that first window, whenever the fifth one came; after it the key is
      free again. */
  lemma FiveFailuresBlockUntilWindowEnds(attempts: Attempts, key: string, times: seq<Instant>, now: Instant)
    requires WithinFirstWindow(times) && |times| >= MaxAttempts
    requires FreeAt(attempts, key, times[0])
    ensures now <= times[0] + BlockDuration ==> IsBlocked(FailAll(attempts, key, times), key, now).blocked
    ensures now > times[0] + BlockDuration ==> !IsBlocked(FailAll(attempts, key, times), key, now).blocked
  {
    FailuresAccumulate(attempts, key, times);
  }

  /** Four failures are not enough. */
  lemma FewerThanFiveFailuresDoNotBlock(attempts: Attempts, key: string, times: seq<Instant>, now: Instant)
    requires WithinFirstWindow(times) && |times| < MaxAttempts
    requires FreeAt(attempts, key, times[0])
    ensures !IsBlocked(FailAll(attempts, key, times), key, now).blocked
  {
    FailuresAccumulate(attempts, key, times);
  }

  /** Failures on one key never disturb another key's entry. */
  lemma {:induction false} FailAllFramesOtherKeys(attempts: Attempts, key: string, times: seq<Instant>)
    ensures FailAll(attempts, key, times) - {key} == attempts - {key}
    decreases |times|
  {
    if times != [] {
      FailAllFramesOtherKeys(attempts, key, times[..|times| - 1]);
    }
  }
}
