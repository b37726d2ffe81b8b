/** The settlement is the only one that keeps the rules it is for. */
module OnlySettlement {
  import opened Common
  import opened CustomerLedger
  import opened Settlement

  function Share(): int -> int { (x: int) => x }

  /** What each order gets from the pool is at most its debt, goes to an order only when all older ones are covered, and
      adds up to the pool, or to all debts if those are less. */
  ghost predicate Fair(entries: seq<Entry>, orders: seq<OrderRow>, shares: seq<int>) {
    && |shares| == |orders|
    && (forall i :: 0 <= i < |orders| ==> 0 <= shares[i] <= Debt(entries)(orders[i]))
    && (forall i, j :: 0 <= i < j < |orders| && shares[j] > 0 ==> shares[i] == Debt(entries)(orders[i]))
    && SumBy(shares, Share()) == Min(PoolOf(entries), SumBy(orders, Debt(entries)))
  }

  lemma {:induction false} SharesWithinDebts(entries: seq<Entry>, orders: seq<OrderRow>, shares: seq<int>, n: nat)
    requires Fair(entries, orders, shares) && n <= |orders|
    ensures 0 <= SumBy(shares[..n], Share()) <= DebtBefore(entries, orders, n)
  {
    if n > 0 {
      SharesWithinDebts(entries, orders, shares, n - 1);
      SumByStep(shares, n - 1, Share());
      SumByStep(orders, n - 1, Debt(entries));
    }
  }

  /** Once an order is not covered, no later one gets anything. */
  lemma {:induction false} NothingLater(entries: seq<Entry>, orders: seq<OrderRow>, shares: seq<int>, k: nat, n: nat)
    requires Fair(entries, orders, shares) && k < n <= |orders| && shares[k] < Debt(entries)(orders[k])
    ensures SumBy(shares[..n], Share()) == SumBy(shares[..k + 1], Share())
    decreases n
  {
    if n > k + 1 {
      NothingLater(entries, orders, shares, k, n - 1);
      SumByStep(shares, n - 1, Share());
      assert shares[n - 1] == 0;
    }
  }

  /** The older orders get all they owe, or one of them is not covered. */
  lemma {:induction false} CoveredOrNot(entries: seq<Entry>, orders: seq<OrderRow>, shares: seq<int>, n: nat)
    requires Fair(entries, orders, shares) && n <= |orders|
    ensures || SumBy(shares[..n], Share()) == DebtBefore(entries, orders, n)
            || exists k :: 0 <= k < n && shares[k] < Debt(entries)(orders[k])
  {
    if n > 0 {
      CoveredOrNot(entries, orders, shares, n - 1);
      SumByStep(shares, n - 1, Share());
      SumByStep(orders, n - 1, Debt(entries));
    }
  }

  lemma {:induction false} SharesGrow(entries: seq<Entry>, orders: seq<OrderRow>, shares: seq<int>, n: nat, m: nat)
    requires Fair(entries, orders, shares) && n <= m <= |orders|
    ensures SumBy(shares[..n], Share()) <= SumBy(shares[..m], Share())
    decreases m
  {
    if n < m {
      SharesGrow(entries, orders, shares, n, m - 1);
      SumByStep(shares, m - 1, Share());
    }
  }

  lemma SharesBefore(entries: seq<Entry>, orders: seq<OrderRow>, shares: seq<int>, n: nat)
    requires Fair(entries, orders, shares) && n <= |orders| && PoolOf(entries) >= 0
    ensures SumBy(shares[..n], Share()) == Min(PoolOf(entries), DebtBefore(entries, orders, n))
  {
    var all := |orders|;
    assert shares[..all] == shares && orders[..all] == orders;
    SharesWithinDebts(entries, orders, shares, n);
    CoveredOrNot(entries, orders, shares, n);
    if k :| 0 <= k < n && shares[k] < Debt(entries)(orders[k]) {
      NothingLater(entries, orders, shares, k, n);
      NothingLater(entries, orders, shares, k, all);
    } else {
      SharesGrow(entries, orders, shares, n, all);
    }
    if n < all {
      DebtBeforeGrows(entries, orders, n, all);
      DebtsAreNonNegative(entries, [orders[n]]);
    }
  }

  /** Any way of pouring the pool that keeps the rules gives every order what the settlement gives it. */
  lemma SettlementIsTheOnlyFairOne(entries: seq<Entry>, orders: seq<OrderRow>, shares: seq<int>, i: nat)
    requires Fair(entries, orders, shares) && i < |orders| && forall e <- entries :: PositivePayment(e)
    ensures Settled(entries, orders, i) == Checkout(entries, orders[i].id) + shares[i]
  {
    PoolIsNonNegative(entries);
    SharesBefore(entries, orders, shares, i);
    SharesBefore(entries, orders, shares, i + 1);
    SumByStep(shares, i, Share());
    SumByStep(orders, i, Debt(entries));
    DebtsAreNonNegative(entries, orders[..i]);
  }

  function Shares(entries: seq<Entry>, orders: seq<OrderRow>): (shares: seq<int>)
    ensures |shares| == |orders|
    ensures forall i :: 0 <= i < |orders| ==> shares[i] == Poured(entries, orders, i)
  {
    seq(|orders|, i requires 0 <= i < |orders| => Poured(entries, orders, i))
  }

  lemma {:induction false} SharesAreSummed(entries: seq<Entry>, orders: seq<OrderRow>, n: nat)
    requires n <= |orders|
    ensures SumBy(Shares(entries, orders)[..n], Share()) == PouredBefore(entries, orders, n)
  {
    if n > 0 {
      SharesAreSummed(entries, orders, n - 1);
      SumByStep(Shares(entries, orders), n - 1, Share());
    }
  }

  /** And the settlement keeps them. */
  lemma SettlementIsFair(entries: seq<Entry>, orders: seq<OrderRow>)
    requires forall e <- entries :: PositivePayment(e)
    ensures Fair(entries, orders, Shares(entries, orders))
  {
    var all, shares := |orders|, Shares(entries, orders);
    PoolIsConserved(entries, orders, all);
    SharesAreSummed(entries, orders, all);
    assert shares[..all] == shares && orders[..all] == orders;
    forall i, j | 0 <= i < j < all && shares[j] > 0 ensures shares[i] == Debt(entries)(orders[i]) {
      OldestFirst(entries, orders, i, j);
    }
  }
}
