/** How a customer's payments settle orders: money tagged with an order first, then the standalone pool poured
    over the orders, oldest first. */
module Settlement {
  import opened Common
  import opened CustomerLedger

  datatype OrderRow = OrderRow(id: string, total: int, createdAt: int)

  /** What one ledger row pays for. An empty reference id counts as no reference. */
  datatype Target = Nothing | Order(id: string) | Pool

  function TargetOf(p: Posting): Target {
    if !p.entryType.Payment? then Nothing
    else if p.refType == Some("ORDER") && p.refId.Some? && p.refId.value != "" then Order(p.refId.value)
    else Pool
  }

  function PaidTo(target: Target): Entry -> int {
    (e: Entry) => if TargetOf(e.posting) == target then e.posting.amount else 0
  }

  /** Money recorded at checkout for one order. */
  function Checkout(entries: seq<Entry>, id: string): int { SumBy(entries, PaidTo(Order(id))) }

  /** Money recorded on the debt-payment screen. */
  function PoolOf(entries: seq<Entry>): int { SumBy(entries, PaidTo(Pool)) }

  /** What an order still owes after its checkout money. */
  function Debt(entries: seq<Entry>): OrderRow -> int {
    (o: OrderRow) => Max(0, o.total - Checkout(entries, o.id))
  }

  /** The debts of the i oldest orders. */
  function DebtBefore(entries: seq<Entry>, orders: seq<OrderRow>, i: nat): int
    requires i <= |orders|
  {
    SumBy(orders[..i], Debt(entries))
  }

  /** Closed form of the pool's share of order i. */
  function Poured(entries: seq<Entry>, orders: seq<OrderRow>, i: nat): int
    requires i < |orders|
  {
    Max(0, Min(Debt(entries)(orders[i]), PoolOf(entries) - DebtBefore(entries, orders, i)))
  }

  function Settled(entries: seq<Entry>, orders: seq<OrderRow>, i: nat): int
    requires i < |orders|
  {
    Checkout(entries, orders[i].id) + Poured(entries, orders, i)
  }

  /** Order ids are a primary key. */
  ghost predicate DistinctIds(orders: seq<OrderRow>) {
    forall i, j :: 0 <= i < j < |orders| ==> orders[i].id != orders[j].id
  }

  function Ids(orders: seq<OrderRow>): set<string> {
    if orders == [] then {} else Ids(orders[..|orders| - 1]) + {orders[|orders| - 1].id}
  }

  /** What one more row does, by its fields: a payment that names an order counts for that order and no other, any other
      payment for the pool, and other rows for nothing. */
  lemma RowPays(entries: seq<Entry>, e: Entry, id: string)
    ensures var p := e.posting;
            var named := p.entryType == Payment && p.refType == Some("ORDER") && p.refId.Some? && p.refId.value != "";
            && Checkout(entries + [e], id)
               == Checkout(entries, id) + (if named && p.refId.value == id then p.amount else 0)
            && PoolOf(entries + [e])
               == PoolOf(entries) + (if p.entryType == Payment && !named then p.amount else 0)
    ensures Checkout([], id) == 0 && PoolOf([]) == 0
  {
    SumBySnoc(entries, e, PaidTo(Order(id)));
    SumBySnoc(entries, e, PaidTo(Pool));
  }

  // ---- The two loops ----

  function Lookup(m: map<string, int>, id: string): int {
    if id in m then m[id] else 0
  }

  /** The first loop: payments into per-order checkout money and the standalone pool. */
  method SplitPayments(entries: seq<Entry>) returns (checkoutByOrder: map<string, int>, standalonePool: int)
    ensures forall id :: Lookup(checkoutByOrder, id) == Checkout(entries, id)
    ensures standalonePool == PoolOf(entries)
  {
    checkoutByOrder, standalonePool := map[], 0;
    for k := 0 to |entries|
      invariant forall id :: Lookup(checkoutByOrder, id) == Checkout(entries[..k], id)
      invariant standalonePool == PoolOf(entries[..k])
    {
      var p := entries[k].posting;
      SumByStep(entries, k, PaidTo(Pool));
      forall id ensures Checkout(entries[..k + 1], id) == Checkout(entries[..k], id) + PaidTo(Order(id))(entries[k]) {
        SumByStep(entries, k, PaidTo(Order(id)));
      }
      if p.entryType != Payment {
        continue;
      }
      if p.refType == Some("ORDER") && p.refId.Some? && p.refId.value != "" {
        checkoutByOrder := checkoutByOrder[p.refId.value := Lookup(checkoutByOrder, p.refId.value) + p.amount];
      } else {
        standalonePool := standalonePool + p.amount;
      }
    }
    assert entries[..|entries|] == entries;
  }

  /** What is left of the pool after debts of the given size. */
  function Left(pool: int, owed: int): int {
    if pool < 0 then pool else Max(0, pool - owed)
  }

  lemma DebtsAreNonNegative(entries: seq<Entry>, orders: seq<OrderRow>)
    ensures SumBy(orders, Debt(entries)) >= 0
  {
    if orders != [] {
      DebtsAreNonNegative(entries, orders[..|orders| - 1]);
    }
  }

  /** One round of the second loop: what order k gets from what is left. */
  lemma OneRound(entries: seq<Entry>, orders: seq<OrderRow>, k: nat)
    requires k < |orders|
    ensures var left := Left(PoolOf(entries), DebtBefore(entries, orders, k));
            var debt := orders[k].total - Checkout(entries, orders[k].id);
            var share := if debt <= 0 then 0 else if left >= debt then debt else if left > 0 then left else 0;
            && Settled(entries, orders, k) == Checkout(entries, orders[k].id) + share
            && Left(PoolOf(entries), DebtBefore(entries, orders, k + 1)) == left - share
  {
    SumByStep(orders, k, Debt(entries));
    DebtsAreNonNegative(entries, orders[..k]);
  }

  lemma {:induction false} IdsAreOrderIds(orders: seq<OrderRow>, id: string)
    ensures id in Ids(orders) <==> exists i :: 0 <= i < |orders| && orders[i].id == id
  {
    if orders != [] {
      var n := |orders| - 1;
      IdsAreOrderIds(orders[..n], id);
      if id in Ids(orders[..n]) {
        var i :| 0 <= i < n && orders[..n][i].id == id;
        assert orders[i].id == id;
      }
    }
  }

  /** The result map covers the k oldest orders. */
  ghost predicate SettledUpTo(settled: map<string, int>, entries: seq<Entry>, orders: seq<OrderRow>, k: nat)
    requires k <= |orders|
  {
    && settled.Keys == Ids(orders[..k])
    && forall i :: 0 <= i < k ==> orders[i].id in settled && settled[orders[i].id] == Settled(entries, orders, i)
  }

  lemma NextOrder(before: map<string, int>, amount: int, entries: seq<Entry>, orders: seq<OrderRow>, k: nat)
    requires k < |orders| && DistinctIds(orders)
    requires SettledUpTo(before, entries, orders, k)
    requires amount == Settled(entries, orders, k)
    ensures SettledUpTo(before[orders[k].id := amount], entries, orders, k + 1)
  {
    assert orders[..k + 1][..k] == orders[..k];
  }

  /** The second loop. For every order the result holds its checkout money and its share of the pool. */
  method ComputeOrderSettlement(entries: seq<Entry>, orders: seq<OrderRow>) returns (settled: map<string, int>)
    requires DistinctIds(orders)
    ensures SettledUpTo(settled, entries, orders, |orders|)
  {
    var checkoutByOrder, standalonePool := SplitPayments(entries);
    var remaining := standalonePool;
    settled := map[];
    for k := 0 to |orders|
      invariant SettledUpTo(settled, entries, orders, k)
      invariant remaining == Left(standalonePool, DebtBefore(entries, orders, k))
    {
      var order := orders[k];
      var orderCheckout := Lookup(checkoutByOrder, order.id);
      var orderDebt := order.total - orderCheckout;
      ghost var share := Settled(entries, orders, k) - orderCheckout;
      OneRound(entries, orders, k);
      NextOrder(settled, orderCheckout + share, entries, orders, k);
      if orderDebt <= 0 {
        settled := settled[order.id := orderCheckout];
        continue;
      }
      if remaining >= orderDebt {
        settled := settled[order.id := orderCheckout + orderDebt];
        remaining := remaining - orderDebt;
      } else if remaining > 0 {
        settled := settled[order.id := orderCheckout + remaining];
        remaining := 0;
      } else {
        settled := settled[order.id := orderCheckout];
      }
    }
  }

  // ---- Conservation and order ----

  function PouredBefore(entries: seq<Entry>, orders: seq<OrderRow>, n: nat): int
    requires n <= |orders|
  {
    if n == 0 then 0 else PouredBefore(entries, orders, n - 1) + Poured(entries, orders, n - 1)
  }

  lemma DebtBeforeGrows(entries: seq<Entry>, orders: seq<OrderRow>, i: nat, j: nat)
    requires i < j <= |orders|
    ensures 0 <= DebtBefore(entries, orders, i)
    ensures DebtBefore(entries, orders, i) + Debt(entries)(orders[i]) <= DebtBefore(entries, orders, j)
    decreases j
  {
    DebtsAreNonNegative(entries, orders[..i]);
    if j == i + 1 {
      SumByStep(orders, i, Debt(entries));
    } else {
      DebtBeforeGrows(entries, orders, i, j - 1);
      SumByStep(orders, j - 1, Debt(entries));
    }
  }

  /** Payments are recorded with positive amounts only. */
  predicate PositivePayment(e: Entry) {
    e.posting.entryType.Payment? ==> e.posting.amount > 0
  }

  lemma PoolIsNonNegative(entries: seq<Entry>)
    requires forall e <- entries :: PositivePayment(e)
    ensures PoolOf(entries) >= 0
  {
    if entries != [] {
      PoolIsNonNegative(entries[..|entries| - 1]);
      assert PositivePayment(entries[|entries| - 1]);
    }
  }

  /** No money appears or vanishes: the n oldest orders get the whole pool, or all their debts if those are less. */
  lemma {:induction false} PoolIsConserved(entries: seq<Entry>, orders: seq<OrderRow>, n: nat)
    requires n <= |orders| && forall e <- entries :: PositivePayment(e)
    ensures PouredBefore(entries, orders, n) == Min(PoolOf(entries), DebtBefore(entries, orders, n))
  {
    PoolIsNonNegative(entries);
    if n > 0 {
      PoolIsConserved(entries, orders, n - 1);
      SumByStep(orders, n - 1, Debt(entries));
      DebtsAreNonNegative(entries, orders[..n - 1]);
    }
  }

  /** If the pool gives anything to an order, every older order is settled in full. */
  lemma OldestFirst(entries: seq<Entry>, orders: seq<OrderRow>, i: nat, j: nat)
    requires i < j < |orders| && Poured(entries, orders, j) > 0
    ensures Settled(entries, orders, i) >= orders[i].total
    ensures Poured(entries, orders, i) == Debt(entries)(orders[i])
  {
    DebtBeforeGrows(entries, orders, i, j);
  }

  ghost predicate PartFilled(entries: seq<Entry>, orders: seq<OrderRow>, i: nat)
    requires i < |orders|
  {
    0 < Poured(entries, orders, i) < Debt(entries)(orders[i])
  }

  /** So the pool leaves at most one order part-filled. */
  lemma AtMostOnePartFilled(entries: seq<Entry>, orders: seq<OrderRow>, i: nat, j: nat)
    requires i < |orders| && j < |orders|
    requires PartFilled(entries, orders, i) && PartFilled(entries, orders, j)
    ensures i == j
  {
    if i < j {
      OldestFirst(entries, orders, i, j);
    } else if j < i {
      OldestFirst(entries, orders, j, i);
    }
  }

  /** No order is settled below its checkout money or, from the pool, above its total. */
  lemma SettledBounds(entries: seq<Entry>, orders: seq<OrderRow>, i: nat)
    requires i < |orders|
    ensures var c := Checkout(entries, orders[i].id);
            c <= Settled(entries, orders, i) <= Max(orders[i].total, c)
  {
  }

  // ---- Monotonicity ----

  ghost predicate PaysAtLeast(entries: seq<Entry>, entries': seq<Entry>) {
    && PoolOf(entries) <= PoolOf(entries')
    && forall id :: Checkout(entries, id) <= Checkout(entries', id)
  }

  /** Paying more, into the pool or for any order, settles no order less. */
  lemma MorePaymentsNeverHurt(entries: seq<Entry>, entries': seq<Entry>, orders: seq<OrderRow>, i: nat)
    requires i < |orders| && PaysAtLeast(entries, entries')
    ensures Settled(entries, orders, i) <= Settled(entries', orders, i)
  {
    forall o <- orders[..i] ensures Debt(entries')(o) <= Debt(entries)(o) {
      assert Checkout(entries, o.id) <= Checkout(entries', o.id);
    }
    SumByMonotone(orders[..i], Debt(entries'), Debt(entries));
    assert Checkout(entries, orders[i].id) <= Checkout(entries', orders[i].id);
  }

  lemma PostingPaysMore(entries: seq<Entry>, e: Entry)
    requires PositivePayment(e)
    ensures PaysAtLeast(entries, entries + [e])
  {
    SumBySnoc(entries, e, PaidTo(Pool));
    forall id ensures Checkout(entries, id) <= Checkout(entries + [e], id) {
      SumBySnoc(entries, e, PaidTo(Order(id)));
    }
  }

  datatype PaymentStatus = Pending | Partial | Paid | Failed | Refunded

  function StatusFor(settled: int, total: int): PaymentStatus {
    if settled >= total then Paid else if settled > 0 then Partial else Pending
  }

  // ---- New orders ----

  // Orders are dated with the start of their checkout, so a new one may be older than some already there.

  /** A new order changes no older order. */
  lemma NewerOrderChangesNothing(entries: seq<Entry>, orders: seq<OrderRow>, o: OrderRow, k: nat, i: nat)
    requires i < k <= |orders|
    ensures Insert(orders, k, o)[i] == orders[i]
    ensures Settled(entries, Insert(orders, k, o), i) == Settled(entries, orders, i)
  {
    assert Insert(orders, k, o)[..i] == orders[..i];
  }

  lemma DebtBeforeInserted(entries: seq<Entry>, orders: seq<OrderRow>, o: OrderRow, k: nat, i: nat)
    requires k <= i < |orders|
    ensures Insert(orders, k, o)[i + 1] == orders[i]
    ensures DebtBefore(entries, Insert(orders, k, o), i + 1) == DebtBefore(entries, orders, i) + Debt(entries)(o)
  {
    assert Insert(orders, k, o)[..i + 1] == orders[..k] + [o] + orders[k..i];
    assert orders[..i] == orders[..k] + orders[k..i];
    SumByConcat(orders[..k] + [o], orders[k..i], Debt(entries));
    SumBySnoc(orders[..k], o, Debt(entries));
    SumByConcat(orders[..k], orders[k..i], Debt(entries));
  }

  /** A new older order and order i both owe something, and the pool ends among what they owe. */
  predicate Competes(entries: seq<Entry>, orders: seq<OrderRow>, o: OrderRow, i: nat)
    requires i < |orders|
  {
    var before, owed, debt := DebtBefore(entries, orders, i), Debt(entries)(o), Debt(entries)(orders[i]);
    owed > 0 && debt > 0 && before < PoolOf(entries) < before + owed + debt
  }

  /** What order i is settled to once order o stands before it. */
  function SettledBehind(entries: seq<Entry>, orders: seq<OrderRow>, o: OrderRow, i: nat): int
    requires i < |orders|
  {
    Checkout(entries, orders[i].id)
    + Max(0, Min(Debt(entries)(orders[i]), PoolOf(entries) - DebtBefore(entries, orders, i) - Debt(entries)(o)))
  }

  /** An order placed before order i never settles it more, and leaves it as it was if and only if one of the two owes
      nothing, the pool ends before them, or it covers both. */
  lemma OlderOrderTakes(entries: seq<Entry>, orders: seq<OrderRow>, o: OrderRow, k: nat, i: nat)
    requires k <= i < |orders|
    ensures Insert(orders, k, o)[i + 1] == orders[i]
    ensures var before, now := Settled(entries, orders, i), Settled(entries, Insert(orders, k, o), i + 1);
            && now == SettledBehind(entries, orders, o, i)
            && now <= before && (now < before <==> Competes(entries, orders, o, i))
  {
    DebtBeforeInserted(entries, orders, o, k, i);
  }

  function StatusAt(entries: seq<Entry>, orders: seq<OrderRow>, i: nat): PaymentStatus
    requires i < |orders|
  {
    StatusFor(Settled(entries, orders, i), orders[i].total)
  }

  /** What the statuses mean: an order with a total is paid when its checkout money and the pool, after all older debts,
      cover it, pending when neither gives it anything, and partial in between. */
  lemma StatusMeans(entries: seq<Entry>, orders: seq<OrderRow>, i: nat)
    requires i < |orders| && orders[i].total > 0 && Checkout(entries, orders[i].id) >= 0
    ensures var money, total := Checkout(entries, orders[i].id), orders[i].total;
            var left := PoolOf(entries) - DebtBefore(entries, orders, i);
            match StatusAt(entries, orders, i)
            case Paid => money >= total || money + left >= total
            case Pending => money == 0 && left <= 0
            case Partial => money < total && money + left < total && (money > 0 || left > 0)
            case _ => false
  {
  }

  /** The statuses stored once order o has been placed at k with no money taken: its own from its total, the others as
      they were derived before. */
  function StoredStatus(entries: seq<Entry>, orders: seq<OrderRow>, o: OrderRow, k: nat, j: nat): PaymentStatus
    requires k <= |orders| && j <= |orders|
  {
    if j < k then StatusAt(entries, orders, j)
    else if j == k then StatusFor(0, o.total)
    else StatusAt(entries, orders, j - 1)
  }

  lemma NewOrderFitsIff(entries: seq<Entry>, orders: seq<OrderRow>, o: OrderRow, k: nat)
    requires k <= |orders| && o.total >= 0 && Checkout(entries, o.id) == 0
    ensures StatusFor(0, o.total) == StatusAt(entries, Insert(orders, k, o), k)
            <==> o.total == 0 || PoolOf(entries) <= DebtBefore(entries, orders, k)
  {
    assert Insert(orders, k, o)[..k] == orders[..k];
  }

  lemma OthersKeepStatus(entries: seq<Entry>, orders: seq<OrderRow>, o: OrderRow, k: nat, j: nat)
    requires k <= |orders| && j <= |orders| && o.total >= 0 && Checkout(entries, o.id) == 0
    requires o.total == 0 || PoolOf(entries) <= DebtBefore(entries, orders, k)
    ensures StoredStatus(entries, orders, o, k, j) == StatusAt(entries, Insert(orders, k, o), j)
  {
    if j < k {
      NewerOrderChangesNothing(entries, orders, o, k, j);
    } else if j == k {
      NewOrderFitsIff(entries, orders, o, k);
    } else {
      OlderOrderTakes(entries, orders, o, k, j - 1);
      if k < j - 1 {
        DebtBeforeGrows(entries, orders, k, j - 1);
      }
    }
  }

  /** A sale on account is stored without settling it. Every status still fits if and only if its total is zero, or the
      pool ends before it. */
  lemma UnsettledSaleFitsIff(entries: seq<Entry>, orders: seq<OrderRow>, o: OrderRow, k: nat)
    requires k <= |orders| && o.total >= 0 && Checkout(entries, o.id) == 0
    ensures (forall j :: 0 <= j <= |orders| ==>
               StoredStatus(entries, orders, o, k, j) == StatusAt(entries, Insert(orders, k, o), j))
            <==> o.total == 0 || PoolOf(entries) <= DebtBefore(entries, orders, k)
  {
    NewOrderFitsIff(entries, orders, o, k);
    assert StoredStatus(entries, orders, o, k, k) == StatusFor(0, o.total);
    if o.total == 0 || PoolOf(entries) <= DebtBefore(entries, orders, k) {
      forall j | 0 <= j <= |orders|
        ensures StoredStatus(entries, orders, o, k, j) == StatusAt(entries, Insert(orders, k, o), j)
      {
        OthersKeepStatus(entries, orders, o, k, j);
      }
    }
  }

  /** With money left in the pool, the first sale on account is stored as pending though the pool covers it. */
  lemma SaleOnAccountStaysPending(o: OrderRow, pool: Entry)
    requires TargetOf(pool.posting) == Pool && pool.posting.amount >= o.total > 0
    ensures StoredStatus([pool], [], o, 0, 0) == Pending && StatusAt([pool], Insert([], 0, o), 0) == Paid
  {
    SumBySnoc([], pool, PaidTo(Pool));
    SumBySnoc([], pool, PaidTo(Order(o.id)));
    assert [] + [pool] == [pool] && Insert([], 0, o)[..0] == [];
  }

  /** An order that the pool settled in full is pending again when a checkout that began earlier commits. */
  lemma OlderOrderUnsettles(older: OrderRow, newer: OrderRow, pool: Entry)
    requires TargetOf(pool.posting) == Pool
    requires pool.posting.amount == newer.total > 0 && older.total >= newer.total
    ensures StatusFor(Settled([pool], [newer], 0), newer.total) == Paid
    ensures StatusFor(Settled([pool], Insert([newer], 0, older), 1), newer.total) == Pending
  {
    SumBySnoc([], pool, PaidTo(Pool));
    SumBySnoc([], pool, PaidTo(Order(newer.id)));
    SumBySnoc([], pool, PaidTo(Order(older.id)));
    assert [] + [pool] == [pool];
    DebtBeforeInserted([pool], [newer], older, 0, 0);
  }

  /** What can happen to a customer's settlement: a ledger row is appended, or an order is placed among the others. */
  datatype Event = Posted(entry: Entry) | Placed(order: OrderRow, at: nat)

  datatype Books = Books(entries: seq<Entry>, orders: seq<OrderRow>)

  function Next(b: Books, ev: Event): Books {
    match ev
    case Posted(e) => b.(entries := b.entries + [e])
    case Placed(o, k) => b.(orders := Insert(b.orders, Min(k, |b.orders|), o))
  }

  function After(b: Books, events: seq<Event>): Books {
    if events == [] then b else Next(After(b, events[..|events| - 1]), events[|events| - 1])
  }

  predicate PaymentsArePositive(events: seq<Event>) {
    forall ev <- events :: ev.Posted? ==> PositivePayment(ev.entry)
  }

  /** Where order i stands after an event. */
  function Shifted(b: Books, ev: Event, i: nat): (place: nat)
    ensures i < |b.orders| ==> place < |Next(b, ev).orders|
  {
    if ev.Placed? && Min(ev.at, |b.orders|) <= i then i + 1 else i
  }

  /** The event places an order before order i that competes with it for the pool. */
  predicate Rivals(b: Books, ev: Event, i: nat)
    requires i < |b.orders|
  {
    ev.Placed? && ev.at <= i && Competes(b.entries, b.orders, ev.order, i)
  }

  lemma PostingNeverLowers(b: Books, e: Entry, i: nat)
    requires i < |b.orders| && PositivePayment(e)
    ensures Settled(b.entries + [e], b.orders, i) >= Settled(b.entries, b.orders, i)
  {
    PostingPaysMore(b.entries, e);
    MorePaymentsNeverHurt(b.entries, b.entries + [e], b.orders, i);
  }

  lemma PlacingLowersIff(b: Books, o: OrderRow, k: nat, i: nat)
    requires i < |b.orders| && k <= |b.orders|
    ensures var orders', i' := Insert(b.orders, k, o), if k <= i then i + 1 else i;
            && orders'[i'] == b.orders[i]
            && (Settled(b.entries, orders', i') < Settled(b.entries, b.orders, i)
                <==> k <= i && Competes(b.entries, b.orders, o, i))
  {
    if k <= i {
      OlderOrderTakes(b.entries, b.orders, o, k, i);
    } else {
      NewerOrderChangesNothing(b.entries, b.orders, o, k, i);
    }
  }

  /** An event lowers an order's settled amount exactly when it places an older order that competes with it. */
  lemma SettledFallsIff(b: Books, ev: Event, i: nat)
    requires i < |b.orders| && (ev.Posted? ==> PositivePayment(ev.entry))
    ensures var b', i' := Next(b, ev), Shifted(b, ev, i);
            && b'.orders[i'] == b.orders[i]
            && (Settled(b'.entries, b'.orders, i') < Settled(b.entries, b.orders, i) <==> Rivals(b, ev, i))
  {
    match ev
    case Posted(e) => PostingNeverLowers(b, e, i);
    case Placed(o, k) => PlacingLowersIff(b, o, Min(k, |b.orders|), i);
  }

  // ---- Whole runs ----

  /** Where order i stands after a run. */
  function Place(b: Books, events: seq<Event>, i: nat): (place: nat)
    ensures i < |b.orders| ==> place < |After(b, events).orders|
  {
    if events == [] then i
    else
      var n := |events| - 1;
      Shifted(After(b, events[..n]), events[n], Place(b, events[..n], i))
  }

  /** What order i is settled to after a run. */
  function SettledAfter(b: Books, events: seq<Event>, i: nat): int
    requires i < |b.orders|
  {
    Settled(After(b, events).entries, After(b, events).orders, Place(b, events, i))
  }

  /** Event n of a run places a rival of order i. */
  predicate RivalAt(b: Books, events: seq<Event>, i: nat, n: nat)
    requires i < |b.orders| && n < |events|
  {
    Rivals(After(b, events[..n]), events[n], Place(b, events[..n], i))
  }

  /** No event of a run does. */
  ghost predicate Unrivalled(b: Books, events: seq<Event>, i: nat)
    requires i < |b.orders|
  {
    forall n :: 0 <= n < |events| ==> !RivalAt(b, events, i, n)
  }

  ghost predicate FallsAt(b: Books, events: seq<Event>, i: nat, n: nat)
    requires i < |b.orders| && n < |events|
  {
    SettledAfter(b, events[..n + 1], i) < SettledAfter(b, events[..n], i)
  }

  lemma FallsAtIff(b: Books, events: seq<Event>, i: nat, n: nat)
    requires i < |b.orders| && n < |events| && PaymentsArePositive(events)
    ensures FallsAt(b, events, i, n) <==> RivalAt(b, events, i, n)
  {
    assert events[..n + 1][..n] == events[..n];
    SettledFallsIff(After(b, events[..n]), events[n], Place(b, events[..n], i));
  }

  /** Over a whole run an order's settled amount falls at no step if and only if no placing competed with it when it
      was made. */
  lemma NeverFallsIff(b: Books, events: seq<Event>, i: nat)
    requires i < |b.orders| && PaymentsArePositive(events)
    ensures (forall n :: 0 <= n < |events| ==> !FallsAt(b, events, i, n)) <==> Unrivalled(b, events, i)
  {
    forall n | 0 <= n < |events| ensures FallsAt(b, events, i, n) <==> RivalAt(b, events, i, n) {
      FallsAtIff(b, events, i, n);
    }
  }

  lemma UnrivalledPrefix(b: Books, events: seq<Event>, i: nat, m: nat)
    requires i < |b.orders| && m <= |events| && Unrivalled(b, events, i)
    ensures Unrivalled(b, events[..m], i)
  {
    forall n | 0 <= n < m ensures !RivalAt(b, events[..m], i, n) {
      assert events[..m][..n] == events[..n];
      assert !RivalAt(b, events, i, n);
    }
  }

  /** Then it is settled at the end to at least what it was at the start, and a re-derived status only moves from
      pending to partial to paid. */
  lemma {:induction false} SettlementOnlyProgresses(b: Books, events: seq<Event>, i: nat)
    requires i < |b.orders| && PaymentsArePositive(events) && Unrivalled(b, events, i)
    ensures After(b, events).orders[Place(b, events, i)] == b.orders[i]
    ensures Settled(b.entries, b.orders, i) <= SettledAfter(b, events, i)
    ensures var before := StatusFor(Settled(b.entries, b.orders, i), b.orders[i].total);
            var after := StatusFor(SettledAfter(b, events, i), b.orders[i].total);
            before == Pending || after == Paid || (before == Partial && after == Partial)
  {
    if events != [] {
      var n := |events| - 1;
      UnrivalledPrefix(b, events, i, n);
      SettlementOnlyProgresses(b, events[..n], i);
      assert !RivalAt(b, events, i, n) && events[n] in events;
      SettledFallsIff(After(b, events[..n]), events[n], Place(b, events[..n], i));
    }
  }

  // ---- Only the bag of payments matters ----

  /** The ledger's payments, without everything else about their rows. */
  function Payments(entries: seq<Entry>): seq<(Target, int)> {
    if entries == [] then []
    else
      var p := entries[|entries| - 1].posting;
      Payments(entries[..|entries| - 1]) + (if TargetOf(p) == Nothing then [] else [(TargetOf(p), p.amount)])
  }

  function AmountFor(target: Target): ((Target, int)) -> int {
    (p: (Target, int)) => if p.0 == target then p.1 else 0
  }

  lemma {:induction false} SumOfPayments(entries: seq<Entry>, target: Target)
    requires target != Nothing
    ensures SumBy(entries, PaidTo(target)) == SumBy(Payments(entries), AmountFor(target))
  {
    if entries != [] {
      var n := |entries| - 1;
      SumOfPayments(entries[..n], target);
      var p := entries[n].posting;
      if TargetOf(p) != Nothing {
        SumBySnoc(Payments(entries[..n]), (TargetOf(p), p.amount), AmountFor(target));
      } else {
        assert Payments(entries) == Payments(entries[..n]);
      }
    }
  }

  lemma SameTotalsSameSettlement(entries: seq<Entry>, entries': seq<Entry>, orders: seq<OrderRow>, i: nat)
    requires i < |orders| && PaysAtLeast(entries, entries') && PaysAtLeast(entries', entries)
    ensures Settled(entries, orders, i) == Settled(entries', orders, i)
  {
    MorePaymentsNeverHurt(entries, entries', orders, i);
    MorePaymentsNeverHurt(entries', entries, orders, i);
  }

  /** Permuting the ledger, or inserting rows that are not payments, changes no settled amount. */
  lemma OnlyTheBagOfPaymentsMatters(entries: seq<Entry>, entries': seq<Entry>, orders: seq<OrderRow>, i: nat)
    requires i < |orders| && multiset(Payments(entries)) == multiset(Payments(entries'))
    ensures Settled(entries, orders, i) == Settled(entries', orders, i)
  {
    forall target | target != Nothing
      ensures SumBy(entries, PaidTo(target)) == SumBy(entries', PaidTo(target))
    {
      SumOfPayments(entries, target);
      SumOfPayments(entries', target);
      SumByPermutation(Payments(entries), Payments(entries'), AmountFor(target));
    }
    forall id ensures Checkout(entries, id) == Checkout(entries', id) {
      assert Order(id) != Nothing;
    }
    assert Pool != Nothing;
    SameTotalsSameSettlement(entries, entries', orders, i);
  }

  lemma OtherRowsChangeNothing(entries: seq<Entry>, e: Entry, orders: seq<OrderRow>, i: nat)
    requires i < |orders| && !e.posting.entryType.Payment?
    ensures Settled(entries + [e], orders, i) == Settled(entries, orders, i)
  {
    assert (entries + [e])[..|entries|] == entries;
    assert Payments(entries + [e]) == Payments(entries);
    OnlyTheBagOfPaymentsMatters(entries + [e], entries, orders, i);
  }

  lemma OtherTargetsGetNothing(parts: seq<Entry>, target: Target)
    requires target != Pool && forall e <- parts :: TargetOf(e.posting) == Pool
    ensures SumBy(parts, PaidTo(target)) == 0
  {
    if parts != [] {
      OtherTargetsGetNothing(parts[..|parts| - 1], target);
    }
  }

  /** Paying a standalone sum in one go or in several payments, anywhere in the ledger, settles the same. */
  lemma SplittingAPaymentChangesNothing(a: seq<Entry>, whole: Entry, parts: seq<Entry>, b: seq<Entry>,
                                        orders: seq<OrderRow>, i: nat)
    requires i < |orders|
    requires TargetOf(whole.posting) == Pool && forall e <- parts :: TargetOf(e.posting) == Pool
    requires SumBy(parts, PaidTo(Pool)) == whole.posting.amount
    ensures Settled(a + [whole] + b, orders, i) == Settled(a + parts + b, orders, i)
  {
    forall target | target != Nothing
      ensures SumBy(a + [whole] + b, PaidTo(target)) == SumBy(a + parts + b, PaidTo(target))
    {
      SumByConcat(a + [whole], b, PaidTo(target));
      SumBySnoc(a, whole, PaidTo(target));
      SumByConcat(a + parts, b, PaidTo(target));
      SumByConcat(a, parts, PaidTo(target));
      if target != Pool {
        OtherTargetsGetNothing(parts, target);
      }
    }
    forall id ensures Checkout(a + [whole] + b, id) == Checkout(a + parts + b, id) {
      assert Order(id) != Nothing;
    }
    assert Pool != Nothing;
    SameTotalsSameSettlement(a + [whole] + b, a + parts + b, orders, i);
  }
}
