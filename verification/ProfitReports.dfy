/** The profit reports by product, category and branch, and the financial summary, over the sales tables.
    Amounts and quantities are in 1/10000; money in a report is in 1/10000 of that, so that quantity times unit
    cost is exact. */
module ProfitReports {
  import opened Common
  import opened GroupBy

  const SCALE := 10000

  datatype Order = Order(id: int, branch: int, total: int, refunded: int)

  datatype OrderItem = OrderItem(id: int, orderId: int, product: int, quantity: int, unitCost: Option<int>, total: int)

  datatype RefundItem = RefundItem(orderItemId: int, product: int, amount: int)

  /** orders holds the orders that pass the report's filters: tenant, status, time range and branch. category
      gives every product's category, None if it has none. */
  datatype Tables = Tables(orders: seq<Order>, items: seq<OrderItem>, refundItems: seq<RefundItem>,
                           category: map<int, Option<int>>)

  datatype Dimension = ByProduct | ByCategory | ByBranch

  // ---- Joins, one order or item at a time ----

  function ItemsOf(items: seq<OrderItem>, o: Order): seq<OrderItem> {
    if items == [] then []
    else
      var i := items[|items| - 1];
      ItemsOf(items[..|items| - 1], o) + (if i.orderId == o.id then [i] else [])
  }

  function RefundsOf(refundItems: seq<RefundItem>, i: OrderItem): seq<RefundItem> {
    if refundItems == [] then []
    else
      var r := refundItems[|refundItems| - 1];
      RefundsOf(refundItems[..|refundItems| - 1], i) + (if r.orderItemId == i.id then [r] else [])
  }

  function Cost(i: OrderItem): int { i.quantity * (if i.unitCost.Some? then i.unitCost.value else 0) }

  /** The dimension's key for an item, None if the inner join with products drops the item. */
  function ItemKey(db: Tables, dim: Dimension, o: Order, product: int): Option<Key> {
    match dim
    case ByProduct => Some(Some(product))
    case ByCategory => if product in db.category then Some(db.category[product]) else None
    case ByBranch => Some(Some(o.branch))
  }

  function ItemLines(db: Tables, dim: Dimension, o: Order, items: seq<OrderItem>): seq<Line> {
    if items == [] then []
    else
      var i := items[|items| - 1];
      var key := ItemKey(db, dim, o, i.product);
      ItemLines(db, dim, o, items[..|items| - 1])
      + (if key.Some? then [Line(key.value, SCALE * i.total, Cost(i))] else [])
  }

  /** The item rows of a report. */
  function Lines(db: Tables, dim: Dimension, orders: seq<Order>): seq<Line> {
    if orders == [] then []
    else
      var o := orders[|orders| - 1];
      Lines(db, dim, orders[..|orders| - 1]) + ItemLines(db, dim, o, ItemsOf(db.items, o))
  }

  function RefundLines(db: Tables, dim: Dimension, o: Order, refunds: seq<RefundItem>): seq<Amount> {
    if refunds == [] then []
    else
      var r := refunds[|refunds| - 1];
      var key := ItemKey(db, dim, o, r.product);
      RefundLines(db, dim, o, refunds[..|refunds| - 1])
      + (if key.Some? then [Amount(key.value, SCALE * r.amount)] else [])
  }

  function ItemRefunds(db: Tables, dim: Dimension, o: Order, items: seq<OrderItem>): seq<Amount> {
    if items == [] then []
    else
      var i := items[|items| - 1];
      ItemRefunds(db, dim, o, items[..|items| - 1]) + RefundLines(db, dim, o, RefundsOf(db.refundItems, i))
  }

  /** The rows of the refund subquery before grouping: refund items, or whole orders for the branch report. */
  function Refunds(db: Tables, dim: Dimension, orders: seq<Order>): seq<Amount> {
    if orders == [] then []
    else
      var o := orders[|orders| - 1];
      Refunds(db, dim, orders[..|orders| - 1])
      + (if dim == ByBranch then [Amount(Some(o.branch), SCALE * o.refunded)]
         else ItemRefunds(db, dim, o, ItemsOf(db.items, o)))
  }

  /** Categories may be NULL, so only that report's join is null-safe. */
  function ProfitBy(db: Tables, dim: Dimension): seq<ReportRow> {
    Report(Lines(db, dim, db.orders), Refunds(db, dim, db.orders), dim == ByCategory)
  }

  // ---- The figures, order by order ----

  function TotalOf(): OrderItem -> int { (i: OrderItem) => SCALE * i.total }
  function CostOf(): OrderItem -> int { (i: OrderItem) => Cost(i) }
  function RefundAmount(): RefundItem -> int { (r: RefundItem) => SCALE * r.amount }

  function RefundedOn(db: Tables): OrderItem -> int {
    (i: OrderItem) => SumBy(RefundsOf(db.refundItems, i), RefundAmount())
  }

  function SoldIn(db: Tables): Order -> int { (o: Order) => SumBy(ItemsOf(db.items, o), TotalOf()) }
  function CostIn(db: Tables): Order -> int { (o: Order) => SumBy(ItemsOf(db.items, o), CostOf()) }
  function RefundedIn(db: Tables): Order -> int { (o: Order) => SumBy(ItemsOf(db.items, o), RefundedOn(db)) }
  function OrderTotal(): Order -> int { (o: Order) => SCALE * o.total }
  function OrderRefunded(): Order -> int { (o: Order) => SCALE * o.refunded }

  /** The summary's gross profit: order totals less refunded amounts, less the cost of the items. */
  function GrossProfit(db: Tables): int {
    SumBy(db.orders, OrderTotal()) - SumBy(db.orders, OrderRefunded()) - SumBy(db.orders, CostIn(db))
  }

  // ---- Each report's rows add up ----

  /** Products are foreign keys: every item's and refund item's product has an entry. Only the category report joins
      the products. */
  ghost predicate ProductsKnown(db: Tables, dim: Dimension) {
    dim == ByCategory ==>
      && (forall i <- db.items :: i.product in db.category)
      && (forall r <- db.refundItems :: r.product in db.category)
  }

  lemma {:induction false} ItemsAreItems(items: seq<OrderItem>, o: Order)
    ensures forall i <- ItemsOf(items, o) :: i in items && i.orderId == o.id
    ensures forall i <- items :: i.orderId == o.id ==> i in ItemsOf(items, o)
  {
    if items != [] {
      ItemsAreItems(items[..|items| - 1], o);
      assert forall i <- items :: i in items[..|items| - 1] || i == items[|items| - 1];
    }
  }

  lemma {:induction false} RefundsAreRefunds(refundItems: seq<RefundItem>, i: OrderItem)
    ensures forall r <- RefundsOf(refundItems, i) :: r in refundItems && r.orderItemId == i.id
  {
    if refundItems != [] {
      RefundsAreRefunds(refundItems[..|refundItems| - 1], i);
    }
  }

  lemma {:induction false} ItemLineSums(db: Tables, dim: Dimension, o: Order, items: seq<OrderItem>)
    requires forall i <- items :: ItemKey(db, dim, o, i.product).Some?
    ensures SumBy(ItemLines(db, dim, o, items), Revenue()) == SumBy(items, TotalOf())
    ensures SumBy(ItemLines(db, dim, o, items), Cogs()) == SumBy(items, CostOf())
    ensures |ItemLines(db, dim, o, items)| == |items|
    ensures forall k :: 0 <= k < |items| ==>
              Some(ItemLines(db, dim, o, items)[k].key) == ItemKey(db, dim, o, items[k].product)
  {
    if items != [] {
      var n := |items| - 1;
      ItemLineSums(db, dim, o, items[..n]);
      var l := Line(ItemKey(db, dim, o, items[n].product).value, SCALE * items[n].total, Cost(items[n]));
      SumBySnoc(ItemLines(db, dim, o, items[..n]), l, Revenue());
      SumBySnoc(ItemLines(db, dim, o, items[..n]), l, Cogs());
    }
  }

  lemma {:induction false} LineSums(db: Tables, dim: Dimension, orders: seq<Order>)
    requires ProductsKnown(db, dim)
    ensures SumBy(Lines(db, dim, orders), Revenue()) == SumBy(orders, SoldIn(db))
    ensures SumBy(Lines(db, dim, orders), Cogs()) == SumBy(orders, CostIn(db))
  {
    if orders != [] {
      var n := |orders| - 1;
      var items := ItemsOf(db.items, orders[n]);
      LineSums(db, dim, orders[..n]);
      ItemsAreItems(db.items, orders[n]);
      ItemLineSums(db, dim, orders[n], items);
      SumByConcat(Lines(db, dim, orders[..n]), ItemLines(db, dim, orders[n], items), Revenue());
      SumByConcat(Lines(db, dim, orders[..n]), ItemLines(db, dim, orders[n], items), Cogs());
    }
  }

  lemma {:induction false} RefundLineSums(db: Tables, dim: Dimension, o: Order, refunds: seq<RefundItem>)
    requires forall r <- refunds :: ItemKey(db, dim, o, r.product).Some?
    ensures SumBy(RefundLines(db, dim, o, refunds), AmountOf()) == SumBy(refunds, RefundAmount())
  {
    if refunds != [] {
      var n := |refunds| - 1;
      RefundLineSums(db, dim, o, refunds[..n]);
      SumBySnoc(RefundLines(db, dim, o, refunds[..n]),
                Amount(ItemKey(db, dim, o, refunds[n].product).value, SCALE * refunds[n].amount), AmountOf());
    }
  }

  lemma {:induction false} ItemRefundSums(db: Tables, dim: Dimension, o: Order, items: seq<OrderItem>)
    requires ProductsKnown(db, dim)
    ensures SumBy(ItemRefunds(db, dim, o, items), AmountOf()) == SumBy(items, RefundedOn(db))
  {
    if items != [] {
      var n := |items| - 1;
      var refunds := RefundsOf(db.refundItems, items[n]);
      ItemRefundSums(db, dim, o, items[..n]);
      RefundsAreRefunds(db.refundItems, items[n]);
      RefundLineSums(db, dim, o, refunds);
      SumByConcat(ItemRefunds(db, dim, o, items[..n]), RefundLines(db, dim, o, refunds), AmountOf());
    }
  }

  /** What the report's refunds add up to. */
  function RefundTotal(db: Tables, dim: Dimension, orders: seq<Order>): int {
    if dim == ByBranch then SumBy(orders, OrderRefunded()) else SumBy(orders, RefundedIn(db))
  }

  lemma {:induction false} RefundSums(db: Tables, dim: Dimension, orders: seq<Order>)
    requires ProductsKnown(db, dim)
    ensures SumBy(Refunds(db, dim, orders), AmountOf()) == RefundTotal(db, dim, orders)
  {
    if orders != [] {
      var n := |orders| - 1;
      var o := orders[n];
      RefundSums(db, dim, orders[..n]);
      if dim == ByBranch {
        SumBySnoc(Refunds(db, dim, orders[..n]), Amount(Some(o.branch), SCALE * o.refunded), AmountOf());
      } else {
        ItemRefundSums(db, dim, o, ItemsOf(db.items, o));
        SumByConcat(Refunds(db, dim, orders[..n]), ItemRefunds(db, dim, o, ItemsOf(db.items, o)), AmountOf());
      }
    }
  }

  // ---- Every refund's key has a line ----

  ghost predicate HasItem(db: Tables, o: Order) {
    exists i <- db.items :: i.orderId == o.id
  }

  /** For the branch report every order has an item; for the others refund items carry their order item's product. */
  ghost predicate WellLinked(db: Tables, dim: Dimension) {
    && ProductsKnown(db, dim)
    && (dim != ByBranch ==>
          forall r <- db.refundItems, i <- db.items :: r.orderItemId == i.id ==> r.product == i.product)
    && (dim == ByBranch ==> forall o <- db.orders :: HasItem(db, o))
  }

  ghost predicate HasLine(lines: seq<Line>, k: Key) {
    exists l <- lines :: l.key == k
  }

  lemma {:induction false} RefundLineKeys(db: Tables, dim: Dimension, o: Order, refunds: seq<RefundItem>, product: int)
    requires forall r <- refunds :: r.product == product
    ensures forall a <- RefundLines(db, dim, o, refunds) :: Some(a.key) == ItemKey(db, dim, o, product)
  {
    if refunds != [] {
      RefundLineKeys(db, dim, o, refunds[..|refunds| - 1], product);
    }
  }

  lemma {:induction false} ItemRefundKeys(db: Tables, dim: Dimension, o: Order, items: seq<OrderItem>)
    requires dim != ByBranch && WellLinked(db, dim) && forall i <- items :: i in db.items
    ensures forall a <- ItemRefunds(db, dim, o, items) :: HasLine(ItemLines(db, dim, o, items), a.key)
  {
    if items != [] {
      var n := |items| - 1;
      ItemRefundKeys(db, dim, o, items[..n]);
      RefundsAreRefunds(db.refundItems, items[n]);
      RefundLineKeys(db, dim, o, RefundsOf(db.refundItems, items[n]), items[n].product);
      ItemLineSums(db, dim, o, items);
      var lines := ItemLines(db, dim, o, items);
      assert lines == ItemLines(db, dim, o, items[..n]) + [lines[n]];
      forall a <- ItemRefunds(db, dim, o, items) ensures HasLine(lines, a.key) {
        if a in ItemRefunds(db, dim, o, items[..n]) {
          var l :| l in ItemLines(db, dim, o, items[..n]) && l.key == a.key;
          assert l in lines;
        } else {
          assert lines[n] in lines && lines[n].key == a.key;
        }
      }
    }
  }

  lemma BranchHasLine(db: Tables, o: Order)
    requires HasItem(db, o)
    ensures HasLine(ItemLines(db, ByBranch, o, ItemsOf(db.items, o)), Some(o.branch))
  {
    var items := ItemsOf(db.items, o);
    ItemsAreItems(db.items, o);
    ItemLineSums(db, ByBranch, o, items);
    assert ItemLines(db, ByBranch, o, items)[0] in ItemLines(db, ByBranch, o, items);
  }

  lemma {:induction false} RefundsHaveLines(db: Tables, dim: Dimension, orders: seq<Order>)
    requires WellLinked(db, dim) && forall o <- orders :: o in db.orders
    ensures forall a <- Refunds(db, dim, orders) :: HasLine(Lines(db, dim, orders), a.key)
  {
    if orders != [] {
      var n := |orders| - 1;
      var o := orders[n];
      var items := ItemsOf(db.items, o);
      RefundsHaveLines(db, dim, orders[..n]);
      ItemsAreItems(db.items, o);
      if dim == ByBranch {
        BranchHasLine(db, o);
      } else {
        ItemRefundKeys(db, dim, o, items);
      }
      forall a <- Refunds(db, dim, orders) ensures HasLine(Lines(db, dim, orders), a.key) {
        if a in Refunds(db, dim, orders[..n]) {
          var l :| l in Lines(db, dim, orders[..n]) && l.key == a.key;
          assert l in Lines(db, dim, orders);
        } else {
          var l :| l in ItemLines(db, dim, o, items) && l.key == a.key;
          assert l in Lines(db, dim, orders);
        }
      }
    }
  }

  lemma {:induction false} ItemKeysNotNull(db: Tables, dim: Dimension, o: Order, items: seq<OrderItem>)
    requires dim != ByCategory
    ensures forall l <- ItemLines(db, dim, o, items) :: l.key.Some?
  {
    if items != [] {
      ItemKeysNotNull(db, dim, o, items[..|items| - 1]);
    }
  }

  lemma {:induction false} KeysNotNull(db: Tables, dim: Dimension, orders: seq<Order>)
    requires dim != ByCategory
    ensures forall l <- Lines(db, dim, orders) :: l.key.Some?
  {
    if orders != [] {
      KeysNotNull(db, dim, orders[..|orders| - 1]);
      ItemKeysNotNull(db, dim, orders[|orders| - 1], ItemsOf(db.items, orders[|orders| - 1]));
    }
  }

  lemma HasLineIsKey(lines: seq<Line>, k: Key)
    ensures HasLine(lines, k) <==> k in KeysOf(lines, LineKey())
  {
    KeysAreDistinct(lines, LineKey());
    if k in KeysOf(lines, LineKey()) {
      KeyHasRow(lines, LineKey(), k);
    }
  }

  // ---- Main results ----

  /** The refunds that no group of a report shows. */
  function HiddenRefunds(db: Tables, dim: Dimension): int {
    Hidden(Lines(db, dim, db.orders), Refunds(db, dim, db.orders))
  }

  /** In each dimension the groups' profits add up to all items sold, less all refunds but those hidden, less all
      cost: the join with the refund totals repeats nothing, NULL categories included. */
  lemma ReportIsTotal(db: Tables, dim: Dimension)
    requires ProductsKnown(db, dim)
    ensures SumBy(ProfitBy(db, dim), Profit())
            == SumBy(db.orders, SoldIn(db)) - (RefundTotal(db, dim, db.orders) - HiddenRefunds(db, dim))
               - SumBy(db.orders, CostIn(db))
  {
    if dim != ByCategory {
      KeysNotNull(db, dim, db.orders);
    }
    ReportTotal(Lines(db, dim, db.orders), Refunds(db, dim, db.orders), dim == ByCategory);
    LineSums(db, dim, db.orders);
    RefundSums(db, dim, db.orders);
  }

  /** They lose nothing if and only if the refunds whose key has no item sum to zero. */
  lemma ReportLosesNothingIff(db: Tables, dim: Dimension)
    requires ProductsKnown(db, dim)
    ensures SumBy(ProfitBy(db, dim), Profit())
              == SumBy(db.orders, SoldIn(db)) - RefundTotal(db, dim, db.orders) - SumBy(db.orders, CostIn(db))
            <==> HiddenRefunds(db, dim) == 0
  {
    ReportIsTotal(db, dim);
  }

  /** With well-linked tables nothing is hidden. */
  lemma WellLinkedHidesNothing(db: Tables, dim: Dimension)
    requires WellLinked(db, dim)
    ensures HiddenRefunds(db, dim) == 0
  {
    var lines, refunds := Lines(db, dim, db.orders), Refunds(db, dim, db.orders);
    RefundsHaveLines(db, dim, db.orders);
    forall a <- refunds ensures a.key in KeysOf(lines, LineKey()) {
      HasLineIsKey(lines, a.key);
    }
    NothingHidden(lines, refunds);
  }

  /** How far a report's total is from the summary's gross profit but for hidden refunds: by what item totals differ
      from order totals, and refund items from refunded amounts, which the branch report takes from the orders. */
  function Discrepancy(db: Tables, dim: Dimension): int {
    SumBy(db.orders, SoldIn(db)) - SumBy(db.orders, OrderTotal())
    - (RefundTotal(db, dim, db.orders) - SumBy(db.orders, OrderRefunded()))
  }

  /** A report adds up to the summary's gross profit if and only if the discrepancy and the hidden refunds cancel. */
  lemma ReportMeetsSummaryIff(db: Tables, dim: Dimension)
    requires ProductsKnown(db, dim)
    ensures SumBy(ProfitBy(db, dim), Profit()) == GrossProfit(db) + Discrepancy(db, dim) + HiddenRefunds(db, dim)
    ensures SumBy(ProfitBy(db, dim), Profit()) == GrossProfit(db)
            <==> Discrepancy(db, dim) + HiddenRefunds(db, dim) == 0
  {
    ReportIsTotal(db, dim);
  }

  /** Every order's total is the sum of its item totals, and its refunded amount that of its refund items. */
  ghost predicate OrdersAgreeWithItems(db: Tables) {
    forall o <- db.orders :: SoldIn(db)(o) == OrderTotal()(o) && RefundedIn(db)(o) == OrderRefunded()(o)
  }

  /** If the orders' figures are the sums of their items', a report adds up to the summary's gross profit if and only
      if it hides no refunds on balance. */
  lemma ReportsMeetSummary(db: Tables, dim: Dimension)
    requires ProductsKnown(db, dim) && OrdersAgreeWithItems(db)
    ensures SumBy(ProfitBy(db, dim), Profit()) == GrossProfit(db) <==> HiddenRefunds(db, dim) == 0
  {
    ReportMeetsSummaryIff(db, dim);
    SumByEqual(db.orders, SoldIn(db), OrderTotal());
    SumByEqual(db.orders, RefundedIn(db), OrderRefunded());
  }

  // ---- What the branch report hides ----

  /** Some order of the branch has an item. */
  ghost predicate BranchSells(db: Tables, orders: seq<Order>, branch: int) {
    exists o <- orders :: o.branch == branch && HasItem(db, o)
  }

  lemma {:induction false} BranchLineKeys(db: Tables, o: Order, items: seq<OrderItem>, k: Key)
    requires HasLine(ItemLines(db, ByBranch, o, items), k)
    ensures items != [] && k == Some(o.branch)
  {
    var n := |items| - 1;
    if HasLine(ItemLines(db, ByBranch, o, items[..n]), k) {
      BranchLineKeys(db, o, items[..n], k);
    }
  }

  lemma OwnLines(db: Tables, o: Order, branch: int)
    ensures HasLine(ItemLines(db, ByBranch, o, ItemsOf(db.items, o)), Some(branch))
            <==> o.branch == branch && HasItem(db, o)
  {
    var items := ItemsOf(db.items, o);
    if HasItem(db, o) {
      BranchHasLine(db, o);
    }
    if HasLine(ItemLines(db, ByBranch, o, items), Some(branch)) {
      BranchLineKeys(db, o, items, Some(branch));
      ItemsAreItems(db.items, o);
      assert items[0] in items;
    }
  }

  lemma EitherHasLine(a: seq<Line>, b: seq<Line>, k: Key)
    ensures HasLine(a + b, k) <==> HasLine(a, k) || HasLine(b, k)
  {
    assert forall l :: l in a + b <==> l in a || l in b;
  }

  lemma {:induction false} BranchHasLines(db: Tables, orders: seq<Order>, branch: int)
    ensures HasLine(Lines(db, ByBranch, orders), Some(branch)) <==> BranchSells(db, orders, branch)
  {
    if orders != [] {
      var n := |orders| - 1;
      BranchHasLines(db, orders[..n], branch);
      OwnLines(db, orders[n], branch);
      EitherHasLine(Lines(db, ByBranch, orders[..n]),
                    ItemLines(db, ByBranch, orders[n], ItemsOf(db.items, orders[n])), Some(branch));
      assert forall o :: o in orders <==> o in orders[..n] || o == orders[n];
    }
  }

  /** An order's refunded amount, if no order of its branch has an item. */
  ghost function BareRefund(db: Tables): Order -> int {
    (o: Order) => if BranchSells(db, db.orders, o.branch) then 0 else SCALE * o.refunded
  }

  lemma {:induction false} BranchHides(db: Tables, orders: seq<Order>)
    ensures SumBy(Refunds(db, ByBranch, orders), HiddenAmount(KeysOf(Lines(db, ByBranch, db.orders), LineKey())))
            == SumBy(orders, BareRefund(db))
  {
    if orders != [] {
      var n := |orders| - 1;
      var o, lines := orders[n], Lines(db, ByBranch, db.orders);
      BranchHides(db, orders[..n]);
      BranchHasLines(db, db.orders, o.branch);
      HasLineIsKey(lines, Some(o.branch));
      SumBySnoc(Refunds(db, ByBranch, orders[..n]), Amount(Some(o.branch), SCALE * o.refunded),
                HiddenAmount(KeysOf(lines, LineKey())));
    }
  }

  /** The branch report hides exactly the refunds of the branches none of whose orders has an item. */
  lemma BranchReportHides(db: Tables)
    ensures HiddenRefunds(db, ByBranch) == SumBy(db.orders, BareRefund(db))
  {
    BranchHides(db, db.orders);
  }

  /** The smallest case: one order, without items. */
  lemma EmptyOrderHidesRefund(refunded: int)
    requires refunded != 0
    ensures var db := Tables([Order(1, 1, 0, refunded)], [], [], map[]);
            SumBy(ProfitBy(db, ByBranch), Profit()) == 0 && GrossProfit(db) == -SCALE * refunded
  {
    var o := Order(1, 1, 0, refunded);
    var db := Tables([o], [], [], map[]);
    assert [o][..0] == [];
    assert Lines(db, ByBranch, [o]) == [];
    assert ProfitBy(db, ByBranch) == [];
    assert [] + [o] == [o];
    SumBySnoc([], o, OrderTotal());
    SumBySnoc([], o, OrderRefunded());
    SumBySnoc([], o, CostIn(db));
  }

  // ---- Sales by category ----

  function Margin(): Joined -> int { (j: Joined) => j.line.revenue - j.line.cogs }

  /** The category sales report sums item margins and subtracts the same joined refund total. */
  function CategorySalesProfit(db: Tables, k: Key): int {
    var rows := LeftJoin(Lines(db, ByCategory, db.orders), Subquery(Refunds(db, ByCategory, db.orders)), true);
    GroupSum(rows, JoinedKey(), Margin())(k) - Coalesce(MaxRefunded(rows, k))
  }

  lemma {:induction false} MarginsSplit(rows: seq<Joined>, k: Key)
    ensures GroupSum(rows, JoinedKey(), Margin())(k)
            == GroupSum(rows, JoinedKey(), JoinedRevenue())(k) - GroupSum(rows, JoinedKey(), JoinedCogs())(k)
  {
    if rows != [] {
      MarginsSplit(rows[..|rows| - 1], k);
    }
  }

  /** It shows the same profit for every category as the profit report. */
  lemma CategorySalesAgree(db: Tables, i: nat)
    requires i < |ProfitBy(db, ByCategory)|
    ensures ProfitBy(db, ByCategory)[i].profit == CategorySalesProfit(db, ProfitBy(db, ByCategory)[i].key)
  {
    var rows := LeftJoin(Lines(db, ByCategory, db.orders), Subquery(Refunds(db, ByCategory, db.orders)), true);
    MarginsSplit(rows, ProfitBy(db, ByCategory)[i].key);
  }
}
