/** The query for a customer's orders sorts them by date and fixes no order among those with one date. Exactly when
    does the settlement not depend on what it returns? */
module TiedOrders {
  import opened Common
  import opened CustomerLedger
  import opened Settlement

  /** Oldest first. */
  ghost predicate Sorted(orders: seq<OrderRow>) {
    forall i, j :: 0 <= i < j < |orders| ==> orders[i].createdAt <= orders[j].createdAt
  }

  /** Another answer of the same query. */
  ghost predicate Rearranged(orders: seq<OrderRow>, orders': seq<OrderRow>) {
    multiset(orders) == multiset(orders') && Sorted(orders')
  }

  function OlderDebt(entries: seq<Entry>, t: int): OrderRow -> int {
    (o: OrderRow) => if o.createdAt < t then Debt(entries)(o) else 0
  }

  /** The debts of all orders dated before t. */
  function OwedBefore(entries: seq<Entry>, orders: seq<OrderRow>, t: int): int { SumBy(orders, OlderDebt(entries, t)) }

  /** The pool's share of order o is the same in every order of the rows: o owes nothing, no other order of its date
      does, or the pool ends before that date or covers it. */
  ghost predicate ShareIsFixed(entries: seq<Entry>, orders: seq<OrderRow>, o: OrderRow) {
    var before, upTo := OwedBefore(entries, orders, o.createdAt), OwedBefore(entries, orders, o.createdAt + 1);
    || Debt(entries)(o) == 0 || upTo == before + Debt(entries)(o)
    || PoolOf(entries) <= before || PoolOf(entries) >= upTo
  }

  ghost predicate TiesAreHarmless(entries: seq<Entry>, orders: seq<OrderRow>) {
    forall o <- orders :: ShareIsFixed(entries, orders, o)
  }

  /** Both answers settle every order alike. */
  ghost predicate SettleAlike(entries: seq<Entry>, orders: seq<OrderRow>, orders': seq<OrderRow>) {
    forall i, j :: 0 <= i < |orders| && 0 <= j < |orders'| && orders[i] == orders'[j] ==>
      Settled(entries, orders, i) == Settled(entries, orders', j)
  }

  // ---- Debts by date ----

  /** Where the orders dated t or later begin. */
  lemma Split(orders: seq<OrderRow>, t: int) returns (k: nat)
    requires Sorted(orders)
    ensures k <= |orders|
    ensures forall i :: 0 <= i < |orders| ==> (orders[i].createdAt < t <==> i < k)
  {
    k := |orders|;
    while k > 0 && orders[k - 1].createdAt >= t
      invariant k <= |orders|
      invariant forall i :: k <= i < |orders| ==> orders[i].createdAt >= t
    {
      k := k - 1;
    }
  }

  /** What the orders before that place owe is what those dated before t owe. */
  lemma OwedAtSplit(entries: seq<Entry>, orders: seq<OrderRow>, t: int, k: nat)
    requires k <= |orders| && forall i :: 0 <= i < |orders| ==> (orders[i].createdAt < t <==> i < k)
    ensures DebtBefore(entries, orders, k) == OwedBefore(entries, orders, t)
  {
    assert orders == orders[..k] + orders[k..];
    SumByConcat(orders[..k], orders[k..], OlderDebt(entries, t));
    SumByEqual(orders[..k], Debt(entries), OlderDebt(entries, t));
    SumByZero(orders[k..], OlderDebt(entries, t));
  }

  lemma DebtBeforeIsMonotone(entries: seq<Entry>, orders: seq<OrderRow>, i: nat, j: nat)
    requires i <= j <= |orders|
    ensures DebtBefore(entries, orders, i) <= DebtBefore(entries, orders, j)
  {
    if i < j {
      DebtBeforeGrows(entries, orders, i, j);
    }
  }

  /** In a sorted answer an order stands somewhere among those of its date. */
  lemma PlaceInDate(entries: seq<Entry>, orders: seq<OrderRow>, i: nat)
    requires Sorted(orders) && i < |orders|
    ensures var t, debt := orders[i].createdAt, Debt(entries)(orders[i]);
            && OwedBefore(entries, orders, t) <= DebtBefore(entries, orders, i)
            && DebtBefore(entries, orders, i) + debt <= OwedBefore(entries, orders, t + 1)
  {
    var t := orders[i].createdAt;
    var k := Split(orders, t);
    OwedAtSplit(entries, orders, t, k);
    DebtBeforeIsMonotone(entries, orders, k, i);
    var k' := Split(orders, t + 1);
    OwedAtSplit(entries, orders, t + 1, k');
    DebtBeforeGrows(entries, orders, i, k');
  }

  // ---- Harmless ties ----

  /** If its share is fixed, an order is settled by sums that do not depend on the order of the rows. */
  lemma FixedShare(entries: seq<Entry>, orders: seq<OrderRow>, i: nat)
    requires Sorted(orders) && i < |orders| && ShareIsFixed(entries, orders, orders[i])
    ensures var before := OwedBefore(entries, orders, orders[i].createdAt);
            Poured(entries, orders, i) == Max(0, Min(Debt(entries)(orders[i]), PoolOf(entries) - before))
  {
    PlaceInDate(entries, orders, i);
  }

  lemma HarmlessTiesSettleAlike(entries: seq<Entry>, orders: seq<OrderRow>, orders': seq<OrderRow>)
    requires Sorted(orders) && Rearranged(orders, orders') && TiesAreHarmless(entries, orders)
    ensures SettleAlike(entries, orders, orders')
  {
    forall i, j | 0 <= i < |orders| && 0 <= j < |orders'| && orders[i] == orders'[j]
      ensures Settled(entries, orders, i) == Settled(entries, orders', j)
    {
      var t := orders[i].createdAt;
      SumByPermutation(orders, orders', OlderDebt(entries, t));
      SumByPermutation(orders, orders', OlderDebt(entries, t + 1));
      FixedShare(entries, orders, i);
      FixedShare(entries, orders', j);
    }
  }

  // ---- Harmful ties ----

  /** Element i taken out and put back before place k of the others. */
  function Moved<T>(s: seq<T>, i: nat, k: nat): seq<T>
    requires i < |s| && k < |s|
  {
    Insert(Without(s, i), k, s[i])
  }

  lemma MovedKeepsBag<T>(s: seq<T>, i: nat, k: nat)
    requires i < |s| && k < |s|
    ensures multiset(Moved(s, i, k)) == multiset(s) && Moved(s, i, k)[k] == s[i]
  {
    RemoveFromBag(s, i);
    InsertIntoBag(Without(s, i), k, s[i]);
    assert s[i] in s && multiset(s)[s[i]] > 0;
  }

  lemma WithoutIsSorted(s: seq<OrderRow>, i: nat)
    requires Sorted(s) && i < |s|
    ensures Sorted(Without(s, i))
  {
  }

  lemma InsertIsSorted(s: seq<OrderRow>, k: nat, o: OrderRow)
    requires Sorted(s) && k <= |s|
    requires forall j :: 0 <= j < k ==> s[j].createdAt <= o.createdAt
    requires forall j :: k <= j < |s| ==> o.createdAt <= s[j].createdAt
    ensures Sorted(Insert(s, k, o))
  {
    var r := Insert(s, k, o);
    forall j | 0 <= j < |r| ensures r[j] == if j < k then s[j] else if j == k then o else s[j - 1] {}
  }

  lemma InsertKeepsIdsDistinct(s: seq<OrderRow>, k: nat, o: OrderRow)
    requires DistinctIds(s) && k <= |s| && forall i :: 0 <= i < |s| ==> s[i].id != o.id
    ensures DistinctIds(Insert(s, k, o))
  {
  }

  lemma MovedIsRearranged(orders: seq<OrderRow>, i: nat, k: nat)
    requires Sorted(orders) && i < |orders| && k < |orders|
    requires forall j :: 0 <= j < k ==> Without(orders, i)[j].createdAt <= orders[i].createdAt
    requires forall j :: k <= j < |orders| - 1 ==> orders[i].createdAt <= Without(orders, i)[j].createdAt
    ensures Rearranged(orders, Moved(orders, i, k)) && Moved(orders, i, k)[k] == orders[i]
  {
    MovedKeepsBag(orders, i, k);
    WithoutIsSorted(orders, i);
    InsertIsSorted(Without(orders, i), k, orders[i]);
  }

  /** An order may come first of its date. */
  lemma MovedFirst(entries: seq<Entry>, orders: seq<OrderRow>, i: nat) returns (k: nat)
    requires Sorted(orders) && i < |orders|
    ensures k < |orders| && Rearranged(orders, Moved(orders, i, k)) && Moved(orders, i, k)[k] == orders[i]
    ensures DebtBefore(entries, Moved(orders, i, k), k) == OwedBefore(entries, orders, orders[i].createdAt)
  {
    var t, others := orders[i].createdAt, Without(orders, i);
    k := Split(others, t);
    MovedIsRearranged(orders, i, k);
    assert Moved(orders, i, k)[..k] == others[..k];
    OwedAtSplit(entries, others, t, k);
    SumByRemove(orders, i, OlderDebt(entries, t));
  }

  /** Or last. */
  lemma MovedLast(entries: seq<Entry>, orders: seq<OrderRow>, i: nat) returns (k: nat)
    requires Sorted(orders) && i < |orders|
    ensures k < |orders| && Rearranged(orders, Moved(orders, i, k)) && Moved(orders, i, k)[k] == orders[i]
    ensures DebtBefore(entries, Moved(orders, i, k), k) + Debt(entries)(orders[i])
            == OwedBefore(entries, orders, orders[i].createdAt + 1)
  {
    var t, others := orders[i].createdAt, Without(orders, i);
    k := Split(others, t + 1);
    MovedIsRearranged(orders, i, k);
    assert Moved(orders, i, k)[..k] == others[..k];
    OwedAtSplit(entries, others, t + 1, k);
    SumByRemove(orders, i, OlderDebt(entries, t + 1));
  }

  /** If its share is not fixed, an order is settled less when it comes last of its date than when it comes first. */
  lemma HarmfulTie(entries: seq<Entry>, orders: seq<OrderRow>, i: nat)
    requires Sorted(orders) && i < |orders| && !ShareIsFixed(entries, orders, orders[i])
    ensures exists orders' :: Rearranged(orders, orders') && !SettleAlike(entries, orders, orders')
  {
    var k := MovedFirst(entries, orders, i);
    var k' := MovedLast(entries, orders, i);
    PlaceInDate(entries, orders, i);
    var first, last := Moved(orders, i, k), Moved(orders, i, k');
    assert Poured(entries, first, k) > Poured(entries, last, k');
    if SettleAlike(entries, orders, first) {
      assert Settled(entries, orders, i) == Settled(entries, first, k);
      assert Settled(entries, orders, i) > Settled(entries, last, k');
      assert !SettleAlike(entries, orders, last);
    }
  }

  /** Every answer of the query settles every order alike if and only if every order's share is fixed. */
  lemma TiesAreHarmlessIff(entries: seq<Entry>, orders: seq<OrderRow>)
    requires Sorted(orders)
    ensures (forall orders' :: Rearranged(orders, orders') ==> SettleAlike(entries, orders, orders'))
            <==> TiesAreHarmless(entries, orders)
  {
    if TiesAreHarmless(entries, orders) {
      forall orders' | Rearranged(orders, orders') ensures SettleAlike(entries, orders, orders') {
        HarmlessTiesSettleAlike(entries, orders, orders');
      }
    } else {
      var o :| o in orders && !ShareIsFixed(entries, orders, o);
      var i: nat :| i < |orders| && orders[i] == o;
      HarmfulTie(entries, orders, i);
    }
  }

  lemma PoolAlone(first: OrderRow, second: OrderRow, pool: Entry)
    requires TargetOf(pool.posting) == Pool && pool.posting.amount > 0
    requires first.total >= pool.posting.amount && second.total >= pool.posting.amount
    ensures Settled([pool], [first, second], 0) == pool.posting.amount
    ensures Settled([pool], [first, second], 1) == 0
  {
    SumBySnoc([], pool, PaidTo(Pool));
    SumBySnoc([], pool, PaidTo(Order(first.id)));
    SumBySnoc([], pool, PaidTo(Order(second.id)));
    assert [] + [pool] == [pool];
    SumByStep([first, second], 0, Debt([pool]));
    assert [first, second][..0] == [];
  }

  /** Two orders of one date that each could take the whole pool: whichever the query returns first gets it. */
  lemma TiesCompete(a: OrderRow, b: OrderRow, pool: Entry)
    requires TargetOf(pool.posting) == Pool && pool.posting.amount > 0
    requires a.id != b.id && a.createdAt == b.createdAt
    requires a.total >= pool.posting.amount && b.total >= pool.posting.amount
    ensures Sorted([a, b]) && Rearranged([a, b], [b, a])
    ensures Settled([pool], [a, b], 0) == Settled([pool], [b, a], 0) == pool.posting.amount
    ensures Settled([pool], [a, b], 1) == Settled([pool], [b, a], 1) == 0
    ensures !TiesAreHarmless([pool], [a, b])
  {
    assert multiset([a, b]) == multiset([b, a]);
    PoolAlone(a, b, pool);
    PoolAlone(b, a, pool);
    assert [a, b][0] == [b, a][1];
    assert !SettleAlike([pool], [a, b], [b, a]);
    if TiesAreHarmless([pool], [a, b]) {
      HarmlessTiesSettleAlike([pool], [a, b], [b, a]);
    }
  }

  // ---- Statuses ----

  /** What order o is settled to behind debts of the given size. */
  function SettledBehindDebts(entries: seq<Entry>, o: OrderRow, owed: int): int {
    Checkout(entries, o.id) + Max(0, Min(Debt(entries)(o), PoolOf(entries) - owed))
  }

  /** The status of order o when it comes first of its date. */
  function StatusIfFirst(entries: seq<Entry>, orders: seq<OrderRow>, o: OrderRow): PaymentStatus {
    StatusFor(SettledBehindDebts(entries, o, OwedBefore(entries, orders, o.createdAt)), o.total)
  }

  /** And when it comes last. */
  function StatusIfLast(entries: seq<Entry>, orders: seq<OrderRow>, o: OrderRow): PaymentStatus {
    StatusFor(SettledBehindDebts(entries, o, OwedBefore(entries, orders, o.createdAt + 1) - Debt(entries)(o)), o.total)
  }

  ghost predicate StatusesAreFixed(entries: seq<Entry>, orders: seq<OrderRow>) {
    forall o <- orders :: StatusIfFirst(entries, orders, o) == StatusIfLast(entries, orders, o)
  }

  /** Both answers give every order the same status. */
  ghost predicate StatusesAlike(entries: seq<Entry>, orders: seq<OrderRow>, orders': seq<OrderRow>) {
    forall i, j :: 0 <= i < |orders| && 0 <= j < |orders'| && orders[i] == orders'[j] ==>
      StatusAt(entries, orders, i) == StatusAt(entries, orders', j)
  }

  /** Harmless ties fix the statuses too. */
  lemma HarmlessTiesFixStatuses(entries: seq<Entry>, orders: seq<OrderRow>)
    requires Sorted(orders) && TiesAreHarmless(entries, orders)
    ensures StatusesAreFixed(entries, orders)
  {
    forall o <- orders ensures StatusIfFirst(entries, orders, o) == StatusIfLast(entries, orders, o) {
      var i: nat :| i < |orders| && orders[i] == o;
      PlaceInDate(entries, orders, i);
      assert ShareIsFixed(entries, orders, o);
    }
  }

  /** Wherever an order stands among those of its date, its status is between the two. */
  lemma FixedStatus(entries: seq<Entry>, orders: seq<OrderRow>, i: nat)
    requires Sorted(orders) && i < |orders|
    requires StatusIfFirst(entries, orders, orders[i]) == StatusIfLast(entries, orders, orders[i])
    ensures StatusAt(entries, orders, i) == StatusIfFirst(entries, orders, orders[i])
  {
    PlaceInDate(entries, orders, i);
  }

  lemma FixedStatusesAreAlike(entries: seq<Entry>, orders: seq<OrderRow>, orders': seq<OrderRow>)
    requires Sorted(orders) && Rearranged(orders, orders') && StatusesAreFixed(entries, orders)
    ensures StatusesAlike(entries, orders, orders')
  {
    forall i, j | 0 <= i < |orders| && 0 <= j < |orders'| && orders[i] == orders'[j]
      ensures StatusAt(entries, orders, i) == StatusAt(entries, orders', j)
    {
      var t := orders[i].createdAt;
      SumByPermutation(orders, orders', OlderDebt(entries, t));
      SumByPermutation(orders, orders', OlderDebt(entries, t + 1));
      FixedStatus(entries, orders, i);
      FixedStatus(entries, orders', j);
    }
  }

  lemma ComesFirst(entries: seq<Entry>, orders: seq<OrderRow>, i: nat) returns (k: nat)
    requires Sorted(orders) && i < |orders|
    ensures k < |orders| && Rearranged(orders, Moved(orders, i, k)) && Moved(orders, i, k)[k] == orders[i]
    ensures StatusAt(entries, Moved(orders, i, k), k) == StatusIfFirst(entries, orders, orders[i])
  {
    k := MovedFirst(entries, orders, i);
  }

  lemma ComesLast(entries: seq<Entry>, orders: seq<OrderRow>, i: nat) returns (k: nat)
    requires Sorted(orders) && i < |orders|
    ensures k < |orders| && Rearranged(orders, Moved(orders, i, k)) && Moved(orders, i, k)[k] == orders[i]
    ensures StatusAt(entries, Moved(orders, i, k), k) == StatusIfLast(entries, orders, orders[i])
  {
    k := MovedLast(entries, orders, i);
  }

  /** If an order's status differs between the two, so do two answers. */
  lemma VaryingStatus(entries: seq<Entry>, orders: seq<OrderRow>, i: nat)
    requires Sorted(orders) && i < |orders|
    requires StatusIfFirst(entries, orders, orders[i]) != StatusIfLast(entries, orders, orders[i])
    ensures exists orders' :: Rearranged(orders, orders') && !StatusesAlike(entries, orders, orders')
  {
    var k := ComesFirst(entries, orders, i);
    var k' := ComesLast(entries, orders, i);
    var first, last := Moved(orders, i, k), Moved(orders, i, k');
    if StatusAt(entries, orders, i) == StatusAt(entries, first, k) {
      assert !StatusesAlike(entries, orders, last);
    } else {
      assert !StatusesAlike(entries, orders, first);
    }
  }

  /** Every answer gives every order the same status if and only if each order has one status first of its date and
      last. */
  lemma TiesKeepStatusesIff(entries: seq<Entry>, orders: seq<OrderRow>)
    requires Sorted(orders)
    ensures (forall orders' :: Rearranged(orders, orders') ==> StatusesAlike(entries, orders, orders'))
            <==> StatusesAreFixed(entries, orders)
  {
    if StatusesAreFixed(entries, orders) {
      forall orders' | Rearranged(orders, orders') ensures StatusesAlike(entries, orders, orders') {
        FixedStatusesAreAlike(entries, orders, orders');
      }
    } else {
      var o :| o in orders && StatusIfFirst(entries, orders, o) != StatusIfLast(entries, orders, o);
      var i: nat :| i < |orders| && orders[i] == o;
      VaryingStatus(entries, orders, i);
    }
  }
}
