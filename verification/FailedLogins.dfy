/** The failed-login counter: an expiring count against the full history of failures. */
module FailedLogins {
  const MAX_ATTEMPTS := 5
  const LOCKOUT_SECONDS := 900

  /** Times of the failures since the last clear, oldest first. */
  type Failures = seq<int>

  /** Reference: the m latest failures exist, and each came less than the lockout time after the one before it. */
  ghost predicate LatestLinked(f: Failures, m: nat) {
    && |f| >= m
    && forall k :: |f| - m < k < |f| && k > 0 ==> f[k] - f[k - 1] < 900
  }

  /** Reference: the account is locked at time t. */
  ghost predicate Locked(f: Failures, t: int) {
    LatestLinked(f, 5) && t - f[|f| - 1] < 900
  }

  /** How many of the latest failures an expiring counter remembers. */
  function Streak(f: Failures): nat {
    if |f| <= 1 then |f|
    else if f[|f| - 1] - f[|f| - 2] < LOCKOUT_SECONDS then Streak(f[..|f| - 1]) + 1
    else 1
  }

  lemma {:induction false} StreakIsLinked(f: Failures, m: nat)
    requires m >= 1
    ensures Streak(f) >= m <==> LatestLinked(f, m)
  {
    if |f| >= 2 && m >= 2 {
      var n := |f| - 1;
      StreakIsLinked(f[..n], m - 1);
      if f[n] - f[n - 1] < LOCKOUT_SECONDS && LatestLinked(f[..n], m - 1) {
        forall k | |f| - m < k < |f| && k > 0 ensures f[k] - f[k - 1] < LOCKOUT_SECONDS {
          if k < n {
            assert f[..n][k] - f[..n][k - 1] < LOCKOUT_SECONDS;
          }
        }
      }
      if LatestLinked(f, m) {
        assert f[n] - f[n - 1] < LOCKOUT_SECONDS;
        forall k | n - (m - 1) < k < n && k > 0 ensures f[..n][k] - f[..n][k - 1] < LOCKOUT_SECONDS {
          assert f[k] - f[k - 1] < LOCKOUT_SECONDS;
        }
      }
    }
  }

  /** One Redis counter key. A key is absent from its expiry time on. */
  class FailureCounter {
    var count: nat      // 0 when the key is absent
    var expiresAt: int
    ghost var failures: Failures

    constructor ()
      ensures Valid() && failures == []
    {
      count, expiresAt, failures := 0, 0, [];
    }

    ghost predicate Valid()
      reads this
    {
      && count == Streak(failures)
      && (failures != [] ==> expiresAt == failures[|failures| - 1] + LOCKOUT_SECONDS)
    }

    /** What GET returns at time t, an absent key read as zero. */
    function Stored(t: int): nat
      reads this
    {
      if t < expiresAt then count else 0
    }

    method IsAccountLocked(t: int) returns (locked: bool)
      requires Valid()
      ensures locked <==> Locked(failures, t)
    {
      StreakIsLinked(failures, MAX_ATTEMPTS);
      locked := Stored(t) >= MAX_ATTEMPTS;
    }

    /** INCR, which starts an absent key at one, then EXPIRE. */
    method RecordFailedLogin(t: int)
      requires Valid()
      modifies this
      ensures Valid() && failures == old(failures) + [t]
    {
      count := Stored(t) + 1;
      expiresAt := t + LOCKOUT_SECONDS;
      assert (failures + [t])[..|failures|] == failures;
      failures := failures + [t];
    }

    method ClearFailedLogins()
      requires Valid()
      modifies this
      ensures Valid() && failures == []
    {
      count, failures := 0, [];
    }
  }
}
