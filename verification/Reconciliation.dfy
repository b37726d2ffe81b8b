/** The ledger and the settlement tell one story: the stored balance is what the orders still lack, less what was paid
    on top. */
module Reconciliation {
  import opened Common
  import opened CustomerLedger
  import opened Settlement

  /** The amounts of the rows of one kind. */
  function AmountOf(kind: EntryType): Entry -> int {
    (e: Entry) => if e.posting.entryType == kind then e.posting.amount else 0
  }

  /** The order a row is for, among rows of some sort. */
  type Tag = Entry -> Option<string>

  function SaleFor(): Tag { (e: Entry) => if e.posting.entryType.SaleDebt? then e.posting.refId else None }

  function CheckoutFor(): Tag {
    (e: Entry) => match TargetOf(e.posting) case Order(id) => Some(id) case _ => None
  }

  function Tagged(tag: Tag): Entry -> int { (e: Entry) => if tag(e).Some? then e.posting.amount else 0 }

  function TaggedWith(tag: Tag, id: string): Entry -> int {
    (e: Entry) => if tag(e) == Some(id) then e.posting.amount else 0
  }

  /** Rows tagged with orders that are not among the customer's. */
  function Foreign(tag: Tag, orders: seq<OrderRow>): Entry -> int {
    (e: Entry) => if tag(e).Some? && tag(e).value !in Ids(orders) then e.posting.amount else 0
  }

  /** What the rows tagged with each order add up to. */
  function PerOrder(entries: seq<Entry>, tag: Tag): OrderRow -> int {
    (o: OrderRow) => SumBy(entries, TaggedWith(tag, o.id))
  }

  function TotalOf(): OrderRow -> int { (o: OrderRow) => o.total }

  function SettledBefore(entries: seq<Entry>, orders: seq<OrderRow>, n: nat): int
    requires n <= |orders|
  {
    if n == 0 then 0 else SettledBefore(entries, orders, n - 1) + Settled(entries, orders, n - 1)
  }

  /** What the pool holds beyond the orders' debts. */
  function Leftover(entries: seq<Entry>, orders: seq<OrderRow>): int {
    PoolOf(entries) - PouredBefore(entries, orders, |orders|)
  }

  /** Every sale row is for one of the orders, and each order's add up to its total. Checkout posts one, or none if the
      total is zero. */
  ghost predicate SalesAreOrders(entries: seq<Entry>, orders: seq<OrderRow>) {
    && (forall e <- entries :: e.posting.entryType.SaleDebt? ==>
          e.posting.refId.Some? && e.posting.refId.value in Ids(orders))
    && (forall o <- orders :: PerOrder(entries, SaleFor())(o) == o.total)
  }

  // ---- Every tagged row counts for one order, or for a foreign one ----

  /** What one row counts for each order. */
  function CountsFor(tag: Tag, e: Entry): OrderRow -> int {
    (o: OrderRow) => if tag(e) == Some(o.id) then e.posting.amount else 0
  }

  lemma {:induction false} CountsOnce(tag: Tag, orders: seq<OrderRow>, e: Entry)
    requires DistinctIds(orders)
    ensures SumBy(orders, CountsFor(tag, e))
            == if tag(e).Some? && tag(e).value in Ids(orders) then e.posting.amount else 0
  {
    if orders != [] {
      var n := |orders| - 1;
      CountsOnce(tag, orders[..n], e);
      assert orders[n].id !in Ids(orders[..n]) by {
        IdsAreOrderIds(orders[..n], orders[n].id);
      }
    }
  }

  lemma {:induction false} NothingTagged(tag: Tag, orders: seq<OrderRow>)
    ensures SumBy(orders, PerOrder([], tag)) == 0
  {
    if orders != [] {
      NothingTagged(tag, orders[..|orders| - 1]);
    }
  }

  lemma {:induction false} TagsSplit(entries: seq<Entry>, tag: Tag, orders: seq<OrderRow>)
    requires DistinctIds(orders)
    ensures SumBy(entries, Tagged(tag)) == SumBy(orders, PerOrder(entries, tag)) + SumBy(entries, Foreign(tag, orders))
  {
    if entries == [] {
      NothingTagged(tag, orders);
    } else {
      var n := |entries| - 1;
      TagsSplit(entries[..n], tag, orders);
      CountsOnce(tag, orders, entries[n]);
      SumByDifference(orders, PerOrder(entries, tag), PerOrder(entries[..n], tag), CountsFor(tag, entries[n]));
    }
  }

  lemma SalesSplit(entries: seq<Entry>, orders: seq<OrderRow>)
    requires DistinctIds(orders) && SalesAreOrders(entries, orders)
    ensures SumBy(entries, AmountOf(SaleDebt)) == SumBy(orders, TotalOf())
  {
    TagsSplit(entries, SaleFor(), orders);
    SumByEqual(entries, AmountOf(SaleDebt), Tagged(SaleFor()));
    SumByZero(entries, Foreign(SaleFor(), orders));
    SumByEqual(orders, PerOrder(entries, SaleFor()), TotalOf());
  }

  /** Every payment goes to the pool or is tagged. */
  lemma PaymentsSplit(entries: seq<Entry>, orders: seq<OrderRow>)
    requires DistinctIds(orders)
    ensures SumBy(entries, AmountOf(Payment))
            == PoolOf(entries) + SumBy(orders, PerOrder(entries, CheckoutFor()))
               + SumBy(entries, Foreign(CheckoutFor(), orders))
  {
    TagsSplit(entries, CheckoutFor(), orders);
    SumByDifference(entries, AmountOf(Payment), PaidTo(Pool), Tagged(CheckoutFor()));
  }

  lemma {:induction false} SettledIsCheckoutAndShare(entries: seq<Entry>, orders: seq<OrderRow>, n: nat)
    requires n <= |orders|
    ensures SettledBefore(entries, orders, n)
            == SumBy(orders[..n], PerOrder(entries, CheckoutFor())) + PouredBefore(entries, orders, n)
  {
    if n > 0 {
      var id := orders[n - 1].id;
      SettledIsCheckoutAndShare(entries, orders, n - 1);
      SumByStep(orders, n - 1, PerOrder(entries, CheckoutFor()));
      SumByEqual(entries, PaidTo(Order(id)), TaggedWith(CheckoutFor(), id));
    }
  }

  /** Every row moves the balance by its kind. */
  lemma {:induction false} KindsSplit(entries: seq<Entry>)
    ensures SumBy(entries, EntryDelta())
            == SumBy(entries, AmountOf(SaleDebt)) - SumBy(entries, AmountOf(Payment))
               - SumBy(entries, AmountOf(RefundCredit)) + SumBy(entries, AmountOf(Adjustment))
  {
    if entries != [] {
      KindsSplit(entries[..|entries| - 1]);
    }
  }

  // ---- Main result ----

  /** If the sale rows are the orders', the stored balance is the orders' totals less their settled amounts, less what
      is left of the pool and what was paid for foreign orders, less refund credits, plus adjustments. What is left of
      the pool is what it holds beyond all debts. */
  lemma BalanceIsWhatOrdersLack(c: Customer, orders: seq<OrderRow>)
    requires Chained(c) && DistinctIds(orders) && SalesAreOrders(c.ledger, orders)
    ensures c.balance
            == SumBy(orders, TotalOf()) - SettledBefore(c.ledger, orders, |orders|)
               - Leftover(c.ledger, orders) - SumBy(c.ledger, Foreign(CheckoutFor(), orders))
               - SumBy(c.ledger, AmountOf(RefundCredit)) + SumBy(c.ledger, AmountOf(Adjustment))
    ensures (forall e <- c.ledger :: PositivePayment(e)) ==>
              Leftover(c.ledger, orders) == Max(0, PoolOf(c.ledger) - DebtBefore(c.ledger, orders, |orders|))
  {
    BalanceIsSum(c);
    KindsSplit(c.ledger);
    SalesSplit(c.ledger, orders);
    PaymentsSplit(c.ledger, orders);
    assert orders[..|orders|] == orders;
    SettledIsCheckoutAndShare(c.ledger, orders, |orders|);
    if forall e <- c.ledger :: PositivePayment(e) {
      PoolIsConserved(c.ledger, orders, |orders|);
    }
  }
}
