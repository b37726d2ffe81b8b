/** The sliding-window limiter: an expiring sorted set of recent attempts against the full history.
    The clock is in milliseconds. Scores are whole seconds, the clock truncated. */
module RateLimit {
  import opened Common

  datatype Attempt = Attempt(time: nat, member: nat)

  function Second(a: Attempt): nat { a.time / 1000 }

  ghost predicate InClockOrder(h: seq<Attempt>) {
    forall i, j :: 0 <= i < j < |h| ==> h[i].time <= h[j].time && h[i].member != h[j].member
  }

  lemma NewestLast(h: seq<Attempt>, a: Attempt)
    requires InClockOrder(h + [a])
    ensures InClockOrder(h)
    ensures forall i :: 0 <= i < |h| ==> h[i].time <= a.time
  {
    var g := h + [a];
    assert forall i :: 0 <= i < |h| ==> g[i] == h[i];
    assert g[|h|] == a;
  }

  // ---- The reference: counting in the full history ----

  function Within(lo: int, hi: int): Attempt -> int {
    (a: Attempt) => if lo < Second(a) <= hi then 1 else 0
  }

  /** Attempts, admitted or refused, in (lo, hi]. */
  function AttemptsIn(h: seq<Attempt>, lo: int, hi: int): int { SumBy(h, Within(lo, hi)) }

  /** Whether the last attempt of h is admitted: at most the limit in the window that ends with it. */
  predicate Admitted(h: seq<Attempt>, limit: int, window: nat)
    requires h != []
  {
    var now := Second(h[|h| - 1]);
    AttemptsIn(h, now - window, now) <= limit
  }

  // ---- The stored set ----

  /** What the sorted set holds after pruning scores up to lo. */
  function Live(h: seq<Attempt>, lo: int): map<nat, nat> {
    if h == [] then map[]
    else
      var a := h[|h| - 1];
      var rest := Live(h[..|h| - 1], lo);
      if Second(a) > lo then rest[a.member := Second(a)] else rest
  }

  lemma {:induction false} LiveMembers(h: seq<Attempt>, lo: int, m: nat)
    ensures m in Live(h, lo) ==> exists i :: 0 <= i < |h| && h[i].member == m
  {
    if h != [] {
      var n := |h| - 1;
      LiveMembers(h[..n], lo, m);
      if m in Live(h[..n], lo) {
        var i :| 0 <= i < n && h[..n][i].member == m;
        assert h[i].member == m;
      } else if m in Live(h, lo) {
        assert h[n].member == m;
      }
    }
  }

  lemma LiveSnoc(h: seq<Attempt>, a: Attempt, lo: int)
    requires Second(a) > lo
    ensures Live(h + [a], lo) == Live(h, lo)[a.member := Second(a)]
  {
    assert (h + [a])[..|h|] == h;
  }

  lemma {:induction false} LiveCounts(h: seq<Attempt>, lo: int, hi: int)
    requires InClockOrder(h)
    requires forall i :: 0 <= i < |h| ==> Second(h[i]) <= hi
    ensures |Live(h, lo)| == AttemptsIn(h, lo, hi)
  {
    if h != [] {
      var n := |h| - 1;
      LiveCounts(h[..n], lo, hi);
      LiveMembers(h[..n], lo, h[n].member);
    }
  }

  lemma {:induction false} LivePrunes(h: seq<Attempt>, lo: int, lo': int)
    requires lo <= lo' && InClockOrder(h)
    ensures Live(h, lo') == map m | m in Live(h, lo) && Live(h, lo)[m] > lo' :: Live(h, lo)[m]
  {
    if h != [] {
      var n := |h| - 1;
      LivePrunes(h[..n], lo, lo');
      LiveMembers(h[..n], lo, h[n].member);
    }
  }

  lemma {:induction false} NothingLive(h: seq<Attempt>, lo: int)
    requires forall i :: 0 <= i < |h| ==> Second(h[i]) <= lo
    ensures Live(h, lo) == map[]
  {
    if h != [] {
      NothingLive(h[..|h| - 1], lo);
    }
  }

  /** The stored set stands for the part of the history in the last attempt's window. */
  ghost predicate Represents(zset: map<nat, nat>, expiresAt: int, h: seq<Attempt>, window: nat) {
    && InClockOrder(h)
    && (h == [] ==> zset == map[])
    && (h != [] ==>
          && zset == Live(h, Second(h[|h| - 1]) - window)
          && expiresAt == h[|h| - 1].time + (window + 1) * 1000)
  }

  /** What is stored and not expired, pruned. */
  function Pruned(zset: map<nat, nat>, expiresAt: int, time: nat, window: nat): map<nat, nat> {
    var stored := if time < expiresAt then zset else map[];
    map m | m in stored && !(0 <= stored[m] <= time / 1000 - window) :: stored[m]
  }

  /** Neither expiry nor pruning loses an attempt that still counts. */
  lemma PrunedIsLive(zset: map<nat, nat>, expiresAt: int, h: seq<Attempt>, window: nat, a: Attempt)
    requires Represents(zset, expiresAt, h, window) && InClockOrder(h + [a])
    ensures Pruned(zset, expiresAt, a.time, window) == Live(h, Second(a) - window)
  {
    NewestLast(h, a);
    if h != [] {
      if a.time < expiresAt {
        LivePrunes(h, Second(h[|h| - 1]) - window, Second(a) - window);
      } else {
        NothingLive(h, Second(a) - window);
      }
    }
  }

  lemma NextIsRepresented(zset: map<nat, nat>, expiresAt: int, h: seq<Attempt>, window: nat, a: Attempt)
    requires Represents(zset, expiresAt, h, window) && InClockOrder(h + [a]) && window >= 1
    ensures var next := Pruned(zset, expiresAt, a.time, window)[a.member := Second(a)];
            && Represents(next, a.time + (window + 1) * 1000, h + [a], window)
            && |next| == AttemptsIn(h + [a], Second(a) - window, Second(a))
  {
    PrunedIsLive(zset, expiresAt, h, window, a);
    NewestLast(h, a);
    LiveSnoc(h, a, Second(a) - window);
    LiveCounts(h + [a], Second(a) - window, Second(a));
  }

  /** One Redis key of the limiter, with the limit and window its callers always use. */
  class LimiterKey {
    const limit: int
    const window: nat
    var zset: map<nat, nat>  // member to score
    var expiresAt: int
    ghost var history: seq<Attempt>

    constructor (limit: int, window: nat)
      requires window >= 1
      ensures Valid() && history == [] && this.limit == limit && this.window == window
    {
      this.limit, this.window, this.zset, this.expiresAt, this.history := limit, window, map[], 0, [];
    }

    ghost predicate Valid()
      reads this
    {
      window >= 1 && Represents(zset, expiresAt, history, window)
    }

    /** The attempt can come next: not before the last one, and with a member of its own. */
    ghost predicate Next(a: Attempt)
      reads this
    {
      InClockOrder(history + [a])
    }

    /** The pipeline: prune, add, count, and set the expiry. */
    method Pipeline(time: nat, member: nat) returns (count: nat)
      requires Valid() && Next(Attempt(time, member))
      modifies this
      ensures Valid() && history == old(history) + [Attempt(time, member)]
      ensures count == AttemptsIn(history, time / 1000 - window, time / 1000)
      ensures count > limit <==> !Admitted(history, limit, window)
    {
      ghost var h := history + [Attempt(time, member)];
      NextIsRepresented(zset, expiresAt, history, window, Attempt(time, member));
      var now := time / 1000;
      zset := Pruned(zset, expiresAt, time, window);
      zset := zset[member := now];
      count := |zset|;
      expiresAt := time + (window + 1) * 1000;
      assert Represents(zset, expiresAt, h, window);
      history := h;
    }

    /** The middleware's own copy of the pipeline and the test. */
    method SlidingWindow(time: nat, member: nat) returns (exceeded: bool)
      requires Valid() && Next(Attempt(time, member))
      modifies this
      ensures Valid() && history == old(history) + [Attempt(time, member)]
      ensures exceeded <==> !Admitted(history, limit, window)
      ensures exceeded <==> AttemptsIn(history, time / 1000 - window, time / 1000) > limit
    {
      ghost var h := history + [Attempt(time, member)];
      NextIsRepresented(zset, expiresAt, history, window, Attempt(time, member));
      var now := time / 1000;
      zset := Pruned(zset, expiresAt, time, window)[member := now];
      var count := |zset|;
      expiresAt := time + (window + 1) * 1000;
      assert Represents(zset, expiresAt, h, window);
      history := h;
      exceeded := count > limit;
    }
  }

  /** Without a Redis connection nothing is limited. */
  method CheckRateLimit(redis: LimiterKey?, time: nat, member: nat) returns (refused: bool)
    requires redis != null ==> redis.Valid() && redis.Next(Attempt(time, member))
    modifies redis
    ensures redis == null ==> !refused
    ensures redis != null ==>
              && redis.Valid() && redis.history == old(redis.history) + [Attempt(time, member)]
              && (refused <==> !Admitted(redis.history, redis.limit, redis.window))
              && (refused <==>
                    AttemptsIn(redis.history, time / 1000 - redis.window, time / 1000) > redis.limit)
  {
    if redis == null {
      return false;
    }
    var count := redis.Pipeline(time, member);
    refused := count > redis.limit;
  }

  // ---- What the decisions add up to ----

  /** Admitted attempts whose second lies in (lo, hi]. */
  function AdmittedIn(h: seq<Attempt>, limit: int, window: nat, lo: int, hi: int): nat {
    if h == [] then 0
    else
      AdmittedIn(h[..|h| - 1], limit, window, lo, hi)
      + (if lo < Second(h[|h| - 1]) <= hi && Admitted(h, limit, window) then 1 else 0)
  }

  lemma {:induction false} AdmittedAreAttempts(h: seq<Attempt>, limit: int, window: nat, lo: int, hi: int)
    ensures AdmittedIn(h, limit, window, lo, hi) <= AttemptsIn(h, lo, hi)
  {
    if h != [] {
      AdmittedAreAttempts(h[..|h| - 1], limit, window, lo, hi);
    }
  }

  /** No window of whole seconds contains more admitted attempts than the limit. */
  lemma {:induction false} AtMostLimitPerWindow(h: seq<Attempt>, limit: int, window: nat, lo: int)
    requires InClockOrder(h)
    ensures AdmittedIn(h, limit, window, lo, lo + window) <= Max(0, limit)
  {
    if h != [] {
      var n := |h| - 1;
      var now := Second(h[n]);
      AtMostLimitPerWindow(h[..n], limit, window, lo);
      if lo < now <= lo + window && Admitted(h, limit, window) {
        AdmittedAreAttempts(h, limit, window, lo, lo + window);
        forall a | a in h ensures Within(lo, lo + window)(a) <= Within(now - window, now)(a) {
          var i :| 0 <= i < |h| && h[i] == a;
          assert a.time <= h[n].time;
        }
        SumByMonotone(h, Within(lo, lo + window), Within(now - window, now));
      }
    }
  }

  /** Admitted attempts in the milliseconds [from, from + length). */
  function AdmittedDuring(h: seq<Attempt>, limit: int, window: nat, from: nat, length: nat): nat {
    if h == [] then 0
    else
      AdmittedDuring(h[..|h| - 1], limit, window, from, length)
      + (if from <= h[|h| - 1].time < from + length && Admitted(h, limit, window) then 1 else 0)
  }

  lemma {:induction false} DuringIsWithin(h: seq<Attempt>, limit: int, window: nat, from: nat, length: nat)
    requires length <= 1000 * (window - 1) + 1
    ensures AdmittedDuring(h, limit, window, from, length)
            <= AdmittedIn(h, limit, window, from / 1000 - 1, from / 1000 - 1 + window)
  {
    if h != [] {
      DuringIsWithin(h[..|h| - 1], limit, window, from, length);
    }
  }

  /** n attempts in the last millisecond of second zero. */
  function Burst(n: nat): seq<Attempt> {
    seq(n, i requires 0 <= i < n => Attempt(999, i))
  }

  lemma {:induction false} BurstIsAdmitted(n: nat, limit: int, window: nat, length: nat)
    requires n <= limit && window >= 1 && length >= 1
    ensures forall lo :: AttemptsIn(Burst(n), lo, 0) == if lo < 0 then n else 0
    ensures AdmittedDuring(Burst(n), limit, window, 999, length) == n
  {
    if n > 0 {
      assert Burst(n)[..n - 1] == Burst(n - 1);
      BurstIsAdmitted(n - 1, limit, window, length);
      assert forall lo ::
          AttemptsIn(Burst(n), lo, 0) == AttemptsIn(Burst(n - 1), lo, 0) + Within(lo, 0)(Attempt(999, n - 1));
    }
  }

  lemma {:induction false} NoneAfter(n: nat, hi: nat)
    ensures AttemptsIn(Burst(n), 0, hi) == 0
  {
    if n > 0 {
      assert Burst(n)[..n - 1] == Burst(n - 1);
      NoneAfter(n - 1, hi);
    }
  }

  /** Any longer stretch of time can see one attempt more than the limit. */
  lemma LongStretchExceeds(limit: nat, window: nat, length: nat) returns (h: seq<Attempt>)
    requires limit >= 1 && window >= 1 && length > 1000 * (window - 1) + 1
    ensures InClockOrder(h) && AdmittedDuring(h, limit, window, 999, length) == limit + 1
  {
    var late := Attempt(1000 * window, limit);
    h := Burst(limit) + [late];
    assert h[..limit] == Burst(limit);
    BurstIsAdmitted(limit, limit, window, length);
    NoneAfter(limit, window);
    assert AttemptsIn(h, 0, window) == 1;
  }

  /** In real time the limit holds exactly for stretches of up to a second less than the window, plus one tick:
      truncating the clock to seconds lets a burst at the end of one second and another attempt `window` seconds
      on count as a full window apart. */
  lemma RealTimeLimitIff(limit: nat, window: nat, length: nat)
    requires limit >= 1 && window >= 1
    ensures (forall h, from: nat :: InClockOrder(h) ==> AdmittedDuring(h, limit, window, from, length) <= limit)
            <==> length <= 1000 * (window - 1) + 1
  {
    if length <= 1000 * (window - 1) + 1 {
      forall h, from: nat | InClockOrder(h) ensures AdmittedDuring(h, limit, window, from, length) <= limit {
        DuringIsWithin(h, limit, window, from, length);
        AtMostLimitPerWindow(h, limit, window, from / 1000 - 1);
      }
    } else {
      var h := LongStretchExceeds(limit, window, length);
      assert AdmittedDuring(h, limit, window, 999, length) > limit;
    }
  }
}
