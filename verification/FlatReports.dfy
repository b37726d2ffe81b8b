/** The profit reports against the flat tables: every reported item and refund item counts once, under its own key. */
module FlatReports {
  import opened Common
  import opened GroupBy
  import opened ProfitReports

  /** Ids are primary keys. */
  ghost predicate DistinctKeys(db: Tables) {
    && (forall i, j :: 0 <= i < j < |db.orders| ==> db.orders[i].id != db.orders[j].id)
    && (forall i, j :: 0 <= i < j < |db.items| ==> db.items[i].id != db.items[j].id)
  }

  /** The reported order with this id. */
  function FindOrder(orders: seq<Order>, id: int): (r: Option<Order>)
    ensures r.Some? ==> r.value in orders && r.value.id == id
    ensures r.None? ==> forall o <- orders :: o.id != id
  {
    if orders == [] then None
    else
      var o := orders[|orders| - 1];
      if o.id == id then Some(o) else FindOrder(orders[..|orders| - 1], id)
  }

  function FindItem(items: seq<OrderItem>, id: int): (r: Option<OrderItem>)
    ensures r.Some? ==> r.value in items && r.value.id == id
    ensures r.None? ==> forall i <- items :: i.id != id
  {
    if items == [] then None
    else
      var i := items[|items| - 1];
      if i.id == id then Some(i) else FindItem(items[..|items| - 1], id)
  }

  /** Rows of an order, or of a group, or all rows: what a total picks, given the order and the product. */
  type Pick = (Order, int) -> bool

  function All(): Pick { (o: Order, product: int) => true }

  /** The rows of one group: those of a product, of a category, or of the orders of a branch. */
  function InGroup(db: Tables, dim: Dimension, k: Key): Pick {
    (o: Order, product: int) =>
      match dim
      case ByProduct => k == Some(product)
      case ByCategory => product in db.category && db.category[product] == k
      case ByBranch => k == Some(o.branch)
  }

  /** An item's revenue, if its order is reported and it is picked. Reports are in 1/10000 of the stored unit. */
  function RevenueOfItem(orders: seq<Order>, pick: Pick, i: OrderItem): int {
    var o := FindOrder(orders, i.orderId);
    if o.Some? && pick(o.value, i.product) then 10_000 * i.total else 0
  }

  /** And its cost: quantity times unit cost, or nothing if there is none. */
  function CostOfItem(orders: seq<Order>, pick: Pick, i: OrderItem): int {
    var o := FindOrder(orders, i.orderId);
    if o.Some? && pick(o.value, i.product) && i.unitCost.Some? then i.quantity * i.unitCost.value else 0
  }

  /** A refund item's amount, if the order of its order item is reported and it is picked. */
  function AmountOfRefund(orders: seq<Order>, items: seq<OrderItem>, pick: Pick, r: RefundItem): int {
    var i := FindItem(items, r.orderItemId);
    if i.None? then 0
    else
      var o := FindOrder(orders, i.value.orderId);
      if o.Some? && pick(o.value, r.product) then 10_000 * r.amount else 0
  }

  function ItemRevenue(orders: seq<Order>, pick: Pick): OrderItem -> int {
    (i: OrderItem) => RevenueOfItem(orders, pick, i)
  }

  function ItemCost(orders: seq<Order>, pick: Pick): OrderItem -> int {
    (i: OrderItem) => CostOfItem(orders, pick, i)
  }

  function RefundItemAmount(orders: seq<Order>, items: seq<OrderItem>, pick: Pick): RefundItem -> int {
    (r: RefundItem) => AmountOfRefund(orders, items, pick, r)
  }

  // ---- From the joins to the flat tables ----

  function If<T>(p: T -> bool, f: T -> int): T -> int { (x: T) => if p(x) then f(x) else 0 }

  function OfOrder(o: Order): OrderItem -> bool { (i: OrderItem) => i.orderId == o.id }

  function OfItem(i: OrderItem): RefundItem -> bool { (r: RefundItem) => r.orderItemId == i.id }

  lemma {:induction false} ItemsOfSum(items: seq<OrderItem>, o: Order, f: OrderItem -> int)
    ensures SumBy(ItemsOf(items, o), f) == SumBy(items, If(OfOrder(o), f))
  {
    if items != [] {
      var n := |items| - 1;
      ItemsOfSum(items[..n], o, f);
      if items[n].orderId == o.id {
        SumBySnoc(ItemsOf(items[..n], o), items[n], f);
      } else {
        assert ItemsOf(items, o) == ItemsOf(items[..n], o);
      }
    }
  }

  lemma {:induction false} RefundsOfSum(refundItems: seq<RefundItem>, i: OrderItem, f: RefundItem -> int)
    ensures SumBy(RefundsOf(refundItems, i), f) == SumBy(refundItems, If(OfItem(i), f))
  {
    if refundItems != [] {
      var n := |refundItems| - 1;
      RefundsOfSum(refundItems[..n], i, f);
      if refundItems[n].orderItemId == i.id {
        SumBySnoc(RefundsOf(refundItems[..n], i), refundItems[n], f);
      } else {
        assert RefundsOf(refundItems, i) == RefundsOf(refundItems[..n], i);
      }
    }
  }

  // ---- Item rows ----

  function RevenueIf(o: Order, pick: Pick): OrderItem -> int {
    (i: OrderItem) => if pick(o, i.product) then 10_000 * i.total else 0
  }

  function CostIf(o: Order, pick: Pick): OrderItem -> int {
    (i: OrderItem) => if pick(o, i.product) && i.unitCost.Some? then i.quantity * i.unitCost.value else 0
  }

  /** One item's line, or none. */
  function LineFor(db: Tables, dim: Dimension, o: Order, i: OrderItem): seq<Line> {
    var key := ItemKey(db, dim, o, i.product);
    if key.Some? then [Line(key.value, SCALE * i.total, Cost(i))] else []
  }

  lemma LineValue(db: Tables, dim: Dimension, o: Order, i: OrderItem, k: Key)
    ensures SumBy(LineFor(db, dim, o, i), OnKey(LineKey(), Revenue(), k)) == RevenueIf(o, InGroup(db, dim, k))(i)
    ensures SumBy(LineFor(db, dim, o, i), OnKey(LineKey(), Cogs(), k)) == CostIf(o, InGroup(db, dim, k))(i)
  {
    var key := ItemKey(db, dim, o, i.product);
    if key.Some? {
      var l := Line(key.value, SCALE * i.total, Cost(i));
      assert [l][..0] == [];
    }
  }

  lemma {:induction false} OrderLines(db: Tables, dim: Dimension, o: Order, items: seq<OrderItem>, k: Key)
    ensures SumBy(ItemLines(db, dim, o, items), OnKey(LineKey(), Revenue(), k))
            == SumBy(items, RevenueIf(o, InGroup(db, dim, k)))
    ensures SumBy(ItemLines(db, dim, o, items), OnKey(LineKey(), Cogs(), k))
            == SumBy(items, CostIf(o, InGroup(db, dim, k)))
  {
    if items != [] {
      var n := |items| - 1;
      var before, last := ItemLines(db, dim, o, items[..n]), LineFor(db, dim, o, items[n]);
      OrderLines(db, dim, o, items[..n], k);
      LineValue(db, dim, o, items[n], k);
      assert ItemLines(db, dim, o, items) == before + last;
      SumByConcat(before, last, OnKey(LineKey(), Revenue(), k));
      SumByConcat(before, last, OnKey(LineKey(), Cogs(), k));
    }
  }

  ghost predicate OrdersDistinct(orders: seq<Order>) {
    forall i, j :: 0 <= i < j < |orders| ==> orders[i].id != orders[j].id
  }

  /** One more order picks its own items. */
  lemma OwnItem(orders: seq<Order>, pick: Pick, i: OrderItem)
    requires orders != [] && OrdersDistinct(orders)
    ensures var n := |orders| - 1;
            && RevenueOfItem(orders, pick, i)
               == RevenueOfItem(orders[..n], pick, i) + If(OfOrder(orders[n]), RevenueIf(orders[n], pick))(i)
            && CostOfItem(orders, pick, i)
               == CostOfItem(orders[..n], pick, i) + If(OfOrder(orders[n]), CostIf(orders[n], pick))(i)
  {
    var n := |orders| - 1;
    var found := FindOrder(orders[..n], i.orderId);
    if found.Some? {
      var k :| 0 <= k < n && orders[..n][k] == found.value;
      assert orders[k].id != orders[n].id;
    }
  }

  /** So it adds their sums. */
  lemma NextOrder(items: seq<OrderItem>, orders: seq<Order>, pick: Pick)
    requires orders != [] && OrdersDistinct(orders)
    ensures var n := |orders| - 1;
            && SumBy(items, ItemRevenue(orders, pick))
               == SumBy(items, ItemRevenue(orders[..n], pick))
                  + SumBy(ItemsOf(items, orders[n]), RevenueIf(orders[n], pick))
            && SumBy(items, ItemCost(orders, pick))
               == SumBy(items, ItemCost(orders[..n], pick))
                  + SumBy(ItemsOf(items, orders[n]), CostIf(orders[n], pick))
  {
    var n := |orders| - 1;
    var o := orders[n];
    ItemsOfSum(items, o, RevenueIf(o, pick));
    ItemsOfSum(items, o, CostIf(o, pick));
    forall i: OrderItem
      ensures ItemRevenue(orders, pick)(i) - ItemRevenue(orders[..n], pick)(i) == If(OfOrder(o), RevenueIf(o, pick))(i)
      ensures ItemCost(orders, pick)(i) - ItemCost(orders[..n], pick)(i) == If(OfOrder(o), CostIf(o, pick))(i)
    {
      OwnItem(orders, pick, i);
    }
    SumByDifference(items, ItemRevenue(orders, pick), ItemRevenue(orders[..n], pick),
                    If(OfOrder(o), RevenueIf(o, pick)));
    SumByDifference(items, ItemCost(orders, pick), ItemCost(orders[..n], pick), If(OfOrder(o), CostIf(o, pick)));
  }

  lemma NoOrders(items: seq<OrderItem>, pick: Pick)
    ensures SumBy(items, ItemRevenue([], pick)) == 0 && SumBy(items, ItemCost([], pick)) == 0
  {
    forall i: OrderItem ensures ItemRevenue([], pick)(i) == 0 && ItemCost([], pick)(i) == 0 {
      assert RevenueOfItem([], pick, i) == 0 && CostOfItem([], pick, i) == 0;
    }
    SumByZero(items, ItemRevenue([], pick));
    SumByZero(items, ItemCost([], pick));
  }

  lemma {:induction false} LinesAreFlat(db: Tables, dim: Dimension, orders: seq<Order>, k: Key)
    requires OrdersDistinct(orders)
    ensures SumBy(Lines(db, dim, orders), OnKey(LineKey(), Revenue(), k))
            == SumBy(db.items, ItemRevenue(orders, InGroup(db, dim, k)))
    ensures SumBy(Lines(db, dim, orders), OnKey(LineKey(), Cogs(), k))
            == SumBy(db.items, ItemCost(orders, InGroup(db, dim, k)))
  {
    if orders == [] {
      NoOrders(db.items, InGroup(db, dim, k));
    } else {
      var n := |orders| - 1;
      var own := ItemsOf(db.items, orders[n]);
      LinesAreFlat(db, dim, orders[..n], k);
      NextOrder(db.items, orders, InGroup(db, dim, k));
      OrderLines(db, dim, orders[n], own, k);
      SumByConcat(Lines(db, dim, orders[..n]), ItemLines(db, dim, orders[n], own), OnKey(LineKey(), Revenue(), k));
      SumByConcat(Lines(db, dim, orders[..n]), ItemLines(db, dim, orders[n], own), OnKey(LineKey(), Cogs(), k));
    }
  }

  // ---- Refund rows ----

  function AmountIf(o: Order, pick: Pick): RefundItem -> int {
    (r: RefundItem) => if pick(o, r.product) then 10_000 * r.amount else 0
  }

  /** One refund item's line, or none. */
  function RefundLineFor(db: Tables, dim: Dimension, o: Order, r: RefundItem): seq<Amount> {
    var key := ItemKey(db, dim, o, r.product);
    if key.Some? then [Amount(key.value, SCALE * r.amount)] else []
  }

  lemma RefundLineValue(db: Tables, dim: Dimension, o: Order, r: RefundItem, k: Key)
    ensures SumBy(RefundLineFor(db, dim, o, r), OnKey(AmountKey(), AmountOf(), k))
            == AmountIf(o, InGroup(db, dim, k))(r)
  {
    var key := ItemKey(db, dim, o, r.product);
    if key.Some? {
      var a := Amount(key.value, SCALE * r.amount);
      assert [a][..0] == [];
    }
  }

  lemma {:induction false} ItemRefundLines(db: Tables, dim: Dimension, o: Order, refunds: seq<RefundItem>, k: Key)
    ensures SumBy(RefundLines(db, dim, o, refunds), OnKey(AmountKey(), AmountOf(), k))
            == SumBy(refunds, AmountIf(o, InGroup(db, dim, k)))
  {
    if refunds != [] {
      var n := |refunds| - 1;
      var before, last := RefundLines(db, dim, o, refunds[..n]), RefundLineFor(db, dim, o, refunds[n]);
      ItemRefundLines(db, dim, o, refunds[..n], k);
      RefundLineValue(db, dim, o, refunds[n], k);
      assert RefundLines(db, dim, o, refunds) == before + last;
      SumByConcat(before, last, OnKey(AmountKey(), AmountOf(), k));
    }
  }

  /** A refund item's amount, if it is of one of the given items of order o. */
  function AmountInOrder(o: Order, items: seq<OrderItem>, pick: Pick, r: RefundItem): int {
    var i := FindItem(items, r.orderItemId);
    if i.Some? && i.value.orderId == o.id && pick(o, r.product) then 10_000 * r.amount else 0
  }

  function RefundOfOrder(o: Order, items: seq<OrderItem>, pick: Pick): RefundItem -> int {
    (r: RefundItem) => AmountInOrder(o, items, pick, r)
  }

  ghost predicate ItemsDistinct(items: seq<OrderItem>) {
    forall i, j :: 0 <= i < j < |items| ==> items[i].id != items[j].id
  }

  lemma OwnRefund(o: Order, items: seq<OrderItem>, pick: Pick, r: RefundItem)
    requires items != [] && ItemsDistinct(items)
    ensures var n := |items| - 1;
            AmountInOrder(o, items, pick, r)
            == AmountInOrder(o, items[..n], pick, r)
               + (if items[n].orderId == o.id then If(OfItem(items[n]), AmountIf(o, pick))(r) else 0)
  {
    var n := |items| - 1;
    var found := FindItem(items[..n], r.orderItemId);
    if found.Some? {
      var k :| 0 <= k < n && items[..n][k] == found.value;
      assert items[k].id != items[n].id;
    }
  }

  lemma NextItemRefunds(refundItems: seq<RefundItem>, o: Order, items: seq<OrderItem>, pick: Pick)
    requires items != [] && ItemsDistinct(items)
    ensures var n := |items| - 1;
            SumBy(refundItems, RefundOfOrder(o, items, pick))
            == SumBy(refundItems, RefundOfOrder(o, items[..n], pick))
               + (if items[n].orderId == o.id then SumBy(RefundsOf(refundItems, items[n]), AmountIf(o, pick)) else 0)
  {
    var n := |items| - 1;
    var i := items[n];
    RefundsOfSum(refundItems, i, AmountIf(o, pick));
    forall r: RefundItem
      ensures RefundOfOrder(o, items, pick)(r) - RefundOfOrder(o, items[..n], pick)(r)
              == if i.orderId == o.id then If(OfItem(i), AmountIf(o, pick))(r) else 0
    {
      OwnRefund(o, items, pick, r);
    }
    if i.orderId == o.id {
      SumByDifference(refundItems, RefundOfOrder(o, items, pick), RefundOfOrder(o, items[..n], pick),
                      If(OfItem(i), AmountIf(o, pick)));
    } else {
      SumByEqual(refundItems, RefundOfOrder(o, items, pick), RefundOfOrder(o, items[..n], pick));
    }
  }

  lemma NoItems(refundItems: seq<RefundItem>, o: Order, pick: Pick)
    ensures SumBy(refundItems, RefundOfOrder(o, [], pick)) == 0
  {
    forall r: RefundItem ensures RefundOfOrder(o, [], pick)(r) == 0 {
      assert AmountInOrder(o, [], pick, r) == 0;
    }
    SumByZero(refundItems, RefundOfOrder(o, [], pick));
  }

  lemma {:induction false} OrderRefunds(db: Tables, dim: Dimension, o: Order, items: seq<OrderItem>, k: Key)
    requires ItemsDistinct(items)
    ensures SumBy(ItemRefunds(db, dim, o, ItemsOf(items, o)), OnKey(AmountKey(), AmountOf(), k))
            == SumBy(db.refundItems, RefundOfOrder(o, items, InGroup(db, dim, k)))
  {
    if items == [] {
      NoItems(db.refundItems, o, InGroup(db, dim, k));
    } else {
      var n := |items| - 1;
      var i := items[n];
      OrderRefunds(db, dim, o, items[..n], k);
      NextItemRefunds(db.refundItems, o, items, InGroup(db, dim, k));
      if i.orderId == o.id {
        var own, last := ItemsOf(items[..n], o), RefundLines(db, dim, o, RefundsOf(db.refundItems, i));
        assert (own + [i])[..|own|] == own;
        ItemRefundLines(db, dim, o, RefundsOf(db.refundItems, i), k);
        SumByConcat(ItemRefunds(db, dim, o, own), last, OnKey(AmountKey(), AmountOf(), k));
      } else {
        assert ItemsOf(items, o) == ItemsOf(items[..n], o);
      }
    }
  }

  lemma OwnOrderRefund(orders: seq<Order>, items: seq<OrderItem>, pick: Pick, r: RefundItem)
    requires orders != [] && OrdersDistinct(orders)
    ensures var n := |orders| - 1;
            AmountOfRefund(orders, items, pick, r)
            == AmountOfRefund(orders[..n], items, pick, r) + AmountInOrder(orders[n], items, pick, r)
  {
    var n, i := |orders| - 1, FindItem(items, r.orderItemId);
    if i.Some? {
      var found := FindOrder(orders[..n], i.value.orderId);
      if found.Some? {
        var k :| 0 <= k < n && orders[..n][k] == found.value;
        assert orders[k].id != orders[n].id;
      }
    }
  }

  lemma NextOrderRefunds(refundItems: seq<RefundItem>, orders: seq<Order>, items: seq<OrderItem>, pick: Pick)
    requires orders != [] && OrdersDistinct(orders)
    ensures var n := |orders| - 1;
            SumBy(refundItems, RefundItemAmount(orders, items, pick))
            == SumBy(refundItems, RefundItemAmount(orders[..n], items, pick))
               + SumBy(refundItems, RefundOfOrder(orders[n], items, pick))
  {
    var n := |orders| - 1;
    forall r: RefundItem
      ensures RefundItemAmount(orders, items, pick)(r) - RefundItemAmount(orders[..n], items, pick)(r)
              == RefundOfOrder(orders[n], items, pick)(r)
    {
      OwnOrderRefund(orders, items, pick, r);
    }
    SumByDifference(refundItems, RefundItemAmount(orders, items, pick), RefundItemAmount(orders[..n], items, pick),
                    RefundOfOrder(orders[n], items, pick));
  }

  lemma NoOrderRefunds(refundItems: seq<RefundItem>, items: seq<OrderItem>, pick: Pick)
    ensures SumBy(refundItems, RefundItemAmount([], items, pick)) == 0
  {
    forall r: RefundItem ensures RefundItemAmount([], items, pick)(r) == 0 {
      assert AmountOfRefund([], items, pick, r) == 0;
    }
    SumByZero(refundItems, RefundItemAmount([], items, pick));
  }

  lemma {:induction false} RefundsAreFlat(db: Tables, dim: Dimension, orders: seq<Order>, k: Key)
    requires OrdersDistinct(orders) && ItemsDistinct(db.items) && dim != ByBranch
    ensures SumBy(Refunds(db, dim, orders), OnKey(AmountKey(), AmountOf(), k))
            == SumBy(db.refundItems, RefundItemAmount(orders, db.items, InGroup(db, dim, k)))
  {
    if orders == [] {
      NoOrderRefunds(db.refundItems, db.items, InGroup(db, dim, k));
    } else {
      var n := |orders| - 1;
      RefundsAreFlat(db, dim, orders[..n], k);
      NextOrderRefunds(db.refundItems, orders, db.items, InGroup(db, dim, k));
      OrderRefunds(db, dim, orders[n], db.items, k);
      SumByConcat(Refunds(db, dim, orders[..n]), ItemRefunds(db, dim, orders[n], ItemsOf(db.items, orders[n])),
                  OnKey(AmountKey(), AmountOf(), k));
    }
  }

  /** A branch's refunded amounts. */
  function BranchRefunded(k: Key): Order -> int {
    (o: Order) => if k == Some(o.branch) then 10_000 * o.refunded else 0
  }

  lemma {:induction false} BranchRefundsAreFlat(db: Tables, orders: seq<Order>, k: Key)
    ensures SumBy(Refunds(db, ByBranch, orders), OnKey(AmountKey(), AmountOf(), k)) == SumBy(orders, BranchRefunded(k))
  {
    if orders != [] {
      var n := |orders| - 1;
      BranchRefundsAreFlat(db, orders[..n], k);
      SumBySnoc(Refunds(db, ByBranch, orders[..n]), Amount(Some(orders[n].branch), SCALE * orders[n].refunded),
                OnKey(AmountKey(), AmountOf(), k));
    }
  }

  // ---- Main results ----

  /** The refunds of a group: its refund items', or, for a branch, its orders' refunded amounts. */
  function GroupRefunded(db: Tables, dim: Dimension, k: Key): int {
    if dim == ByBranch then SumBy(db.orders, BranchRefunded(k))
    else SumBy(db.refundItems, RefundItemAmount(db.orders, db.items, InGroup(db, dim, k)))
  }

  /** Each row of a report carries exactly the flat sums of its group over the items and refund items of the reported
      orders, and their net. */
  lemma RowIsFlat(db: Tables, dim: Dimension, n: nat)
    requires DistinctKeys(db) && n < |ProfitBy(db, dim)|
    ensures var row := ProfitBy(db, dim)[n];
            && row.revenue == SumBy(db.items, ItemRevenue(db.orders, InGroup(db, dim, row.key)))
            && row.cogs == SumBy(db.items, ItemCost(db.orders, InGroup(db, dim, row.key)))
            && row.refunded == GroupRefunded(db, dim, row.key)
            && row.profit == row.revenue - row.refunded - row.cogs
  {
    var lines, refunds := Lines(db, dim, db.orders), Refunds(db, dim, db.orders);
    if dim != ByCategory {
      KeysNotNull(db, dim, db.orders);
    }
    JoinKeepsLines(lines, refunds, dim == ByCategory);
    OnceKeys(lines, refunds);
    RowIsNet(lines, refunds, dim == ByCategory, n);
    var k := ProfitBy(db, dim)[n].key;
    LinesAreFlat(db, dim, db.orders, k);
    if dim == ByBranch {
      BranchRefundsAreFlat(db, db.orders, k);
    } else {
      RefundsAreFlat(db, dim, db.orders, k);
    }
  }

  // ---- Totals ----

  lemma {:induction false} SalesAreFlat(db: Tables, orders: seq<Order>)
    requires OrdersDistinct(orders)
    ensures SumBy(orders, SoldIn(db)) == SumBy(db.items, ItemRevenue(orders, All()))
    ensures SumBy(orders, CostIn(db)) == SumBy(db.items, ItemCost(orders, All()))
  {
    if orders == [] {
      NoOrders(db.items, All());
    } else {
      var n := |orders| - 1;
      var own := ItemsOf(db.items, orders[n]);
      SalesAreFlat(db, orders[..n]);
      NextOrder(db.items, orders, All());
      SumByEqual(own, TotalOf(), RevenueIf(orders[n], All()));
      SumByEqual(own, CostOf(), CostIf(orders[n], All()));
    }
  }

  lemma {:induction false} OrderRefundTotal(db: Tables, o: Order, items: seq<OrderItem>)
    requires ItemsDistinct(items)
    ensures SumBy(ItemsOf(items, o), RefundedOn(db)) == SumBy(db.refundItems, RefundOfOrder(o, items, All()))
  {
    if items == [] {
      NoItems(db.refundItems, o, All());
    } else {
      var n := |items| - 1;
      var i := items[n];
      OrderRefundTotal(db, o, items[..n]);
      NextItemRefunds(db.refundItems, o, items, All());
      if i.orderId == o.id {
        SumBySnoc(ItemsOf(items[..n], o), i, RefundedOn(db));
        SumByEqual(RefundsOf(db.refundItems, i), RefundAmount(), AmountIf(o, All()));
      } else {
        assert ItemsOf(items, o) == ItemsOf(items[..n], o);
      }
    }
  }

  lemma {:induction false} RefundTotalIsFlat(db: Tables, orders: seq<Order>)
    requires OrdersDistinct(orders) && ItemsDistinct(db.items)
    ensures SumBy(orders, RefundedIn(db)) == SumBy(db.refundItems, RefundItemAmount(orders, db.items, All()))
  {
    if orders == [] {
      NoOrderRefunds(db.refundItems, db.items, All());
    } else {
      var n := |orders| - 1;
      RefundTotalIsFlat(db, orders[..n]);
      NextOrderRefunds(db.refundItems, orders, db.items, All());
      OrderRefundTotal(db, orders[n], db.items);
    }
  }

  /** Every item and refund item of a reported order counts once in the totals, and no other does. */
  lemma TotalsAreFlat(db: Tables)
    requires DistinctKeys(db)
    ensures SumBy(db.orders, SoldIn(db)) == SumBy(db.items, ItemRevenue(db.orders, All()))
    ensures SumBy(db.orders, CostIn(db)) == SumBy(db.items, ItemCost(db.orders, All()))
    ensures SumBy(db.orders, RefundedIn(db)) == SumBy(db.refundItems, RefundItemAmount(db.orders, db.items, All()))
  {
    SalesAreFlat(db, db.orders);
    RefundTotalIsFlat(db, db.orders);
  }

  function PlainTotal(): Order -> int { (o: Order) => o.total }

  function PlainRefunded(): Order -> int { (o: Order) => o.refunded }

  lemma {:induction false} OrderFigures(orders: seq<Order>)
    ensures SumBy(orders, OrderTotal()) == 10_000 * SumBy(orders, PlainTotal())
    ensures SumBy(orders, OrderRefunded()) == 10_000 * SumBy(orders, PlainRefunded())
  {
    if orders != [] {
      OrderFigures(orders[..|orders| - 1]);
    }
  }

  /** The summary's gross profit is the reported orders' totals less what they refunded, less the cost of their
      items. */
  lemma GrossProfitIsFlat(db: Tables)
    requires DistinctKeys(db)
    ensures GrossProfit(db)
            == 10_000 * (SumBy(db.orders, PlainTotal()) - SumBy(db.orders, PlainRefunded()))
               - SumBy(db.items, ItemCost(db.orders, All()))
  {
    OrderFigures(db.orders);
    SalesAreFlat(db, db.orders);
  }

  // ---- Which groups have a row ----

  lemma {:induction false} LineOfItem(db: Tables, dim: Dimension, o: Order, items: seq<OrderItem>, k: Key)
    ensures HasLine(ItemLines(db, dim, o, items), k) <==> exists i <- items :: InGroup(db, dim, k)(o, i.product)
  {
    if items != [] {
      var n := |items| - 1;
      var before := ItemLines(db, dim, o, items[..n]);
      LineOfItem(db, dim, o, items[..n], k);
      assert forall i :: i in items <==> i in items[..n] || i == items[n];
      var key := ItemKey(db, dim, o, items[n].product);
      if key.Some? {
        EitherHasLine(before, [Line(key.value, SCALE * items[n].total, Cost(items[n]))], k);
      } else {
        assert ItemLines(db, dim, o, items) == before;
      }
    }
  }

  /** Some item of order o is in the group. */
  ghost predicate OwnItemIn(db: Tables, dim: Dimension, o: Order, k: Key) {
    exists i <- db.items :: i.orderId == o.id && InGroup(db, dim, k)(o, i.product)
  }

  lemma LineOfOrder(db: Tables, dim: Dimension, o: Order, k: Key)
    ensures HasLine(ItemLines(db, dim, o, ItemsOf(db.items, o)), k) <==> OwnItemIn(db, dim, o, k)
  {
    LineOfItem(db, dim, o, ItemsOf(db.items, o), k);
    ItemsAreItems(db.items, o);
  }

  /** Some item of one of the orders is in the group. */
  ghost predicate HasItemIn(db: Tables, dim: Dimension, orders: seq<Order>, k: Key) {
    exists o <- orders :: OwnItemIn(db, dim, o, k)
  }

  lemma HasItemInSnoc(db: Tables, dim: Dimension, orders: seq<Order>, o: Order, k: Key)
    ensures HasItemIn(db, dim, orders + [o], k) <==> HasItemIn(db, dim, orders, k) || OwnItemIn(db, dim, o, k)
  {
    assert forall x :: x in orders + [o] <==> x in orders || x == o;
  }

  lemma {:induction false} LineOfOrders(db: Tables, dim: Dimension, orders: seq<Order>, k: Key)
    ensures HasLine(Lines(db, dim, orders), k) <==> HasItemIn(db, dim, orders, k)
  {
    if orders != [] {
      var n := |orders| - 1;
      LineOfOrders(db, dim, orders[..n], k);
      LineOfOrder(db, dim, orders[n], k);
      EitherHasLine(Lines(db, dim, orders[..n]), ItemLines(db, dim, orders[n], ItemsOf(db.items, orders[n])), k);
      HasItemInSnoc(db, dim, orders[..n], orders[n], k);
      assert orders == orders[..n] + [orders[n]];
    }
  }

  /** A report's rows are those of the keys of its lines. */
  lemma RowsAreKeys(db: Tables, dim: Dimension)
    ensures var ks, rows := KeysOf(Lines(db, dim, db.orders), LineKey()), ProfitBy(db, dim);
            |rows| == |ks| && Distinct(ks) && forall n :: 0 <= n < |ks| ==> rows[n].key == ks[n]
  {
    var lines, refunds := Lines(db, dim, db.orders), Refunds(db, dim, db.orders);
    if dim != ByCategory {
      KeysNotNull(db, dim, db.orders);
    }
    JoinKeepsLines(lines, refunds, dim == ByCategory);
    OnceKeys(lines, refunds);
    KeysAreDistinct(lines, LineKey());
  }

  /** A report has one row for each group with an item, and none for any other. */
  lemma GroupsWithItems(db: Tables, dim: Dimension, k: Key)
    ensures (exists n :: 0 <= n < |ProfitBy(db, dim)| && ProfitBy(db, dim)[n].key == k)
            <==> HasItemIn(db, dim, db.orders, k)
    ensures forall m, n :: 0 <= m < n < |ProfitBy(db, dim)| ==> ProfitBy(db, dim)[m].key != ProfitBy(db, dim)[n].key
  {
    RowsAreKeys(db, dim);
    HasLineIsKey(Lines(db, dim, db.orders), k);
    LineOfOrders(db, dim, db.orders, k);
  }
}
