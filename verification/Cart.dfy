/** The point-of-sale cart: its reducer, and the figures it displays. */
module Cart {
  import opened Common

  datatype Product = Product(id: string, price: real)

  datatype Item = Item(product: Product, qty: int, lineDiscount: real)

  datatype Cart = Cart(items: seq<Item>, discount: real)

  const EMPTY := Cart([], 0.0)

  /** The actions that change the cart. Clear stands for the four that empty it: clearing it, starting a new sale,
      closing the session and logging out. */
  datatype Action =
    | AddToCart(product: Product)
    | RemoveFromCart(id: string)
    | UpdateQty(id: string, qty: int)
    | UpdateLineDiscount(id: string, percent: real)
    | SetCartDiscount(percent: real)
    | Clear

  // ---- The reducer ----

  function WithQty(items: seq<Item>, id: string, update: int -> int): seq<Item> {
    if items == [] then []
    else
      var i := items[|items| - 1];
      WithQty(items[..|items| - 1], id, update) + [if i.product.id == id then i.(qty := update(i.qty)) else i]
  }

  function WithLineDiscount(items: seq<Item>, id: string, percent: real): seq<Item> {
    if items == [] then []
    else
      var i := items[|items| - 1];
      WithLineDiscount(items[..|items| - 1], id, percent)
      + [if i.product.id == id then i.(lineDiscount := percent) else i]
  }

  function Without(items: seq<Item>, id: string): seq<Item> {
    if items == [] then []
    else
      var i := items[|items| - 1];
      var rest := Without(items[..|items| - 1], id);
      if i.product.id == id then rest else rest + [i]
  }

  predicate InCart(items: seq<Item>, id: string) {
    exists i <- items :: i.product.id == id
  }

  function Reduce(c: Cart, a: Action): Cart {
    match a
    case AddToCart(p) =>
      if InCart(c.items, p.id) then c.(items := WithQty(c.items, p.id, q => q + 1))
      else c.(items := c.items + [Item(p, 1, 0.0)])
    case RemoveFromCart(id) => c.(items := Without(c.items, id))
    case UpdateQty(id, qty) =>
      if qty <= 0 then c.(items := Without(c.items, id)) else c.(items := WithQty(c.items, id, _ => qty))
    case UpdateLineDiscount(id, percent) => c.(items := WithLineDiscount(c.items, id, percent))
    case SetCartDiscount(percent) => c.(discount := percent)
    case Clear => EMPTY
  }

  function ReduceAll(c: Cart, actions: seq<Action>): Cart {
    if actions == [] then c else Reduce(ReduceAll(c, actions[..|actions| - 1]), actions[|actions| - 1])
  }

  // ---- The reference: ids in order of arrival, and a map of quantities ----

  datatype Simple = Simple(order: seq<string>, qty: map<string, int>)

  function Drop(order: seq<string>, id: string): seq<string> {
    if order == [] then []
    else
      var rest := Drop(order[..|order| - 1], id);
      if order[|order| - 1] == id then rest else rest + [order[|order| - 1]]
  }

  function Removed(s: Simple, id: string): Simple {
    Simple(Drop(s.order, id), s.qty - {id})
  }

  function SimpleStep(s: Simple, a: Action): Simple {
    match a
    case AddToCart(p) =>
      if p.id in s.qty then s.(qty := s.qty[p.id := s.qty[p.id] + 1])
      else Simple(s.order + [p.id], s.qty[p.id := 1])
    case RemoveFromCart(id) => Removed(s, id)
    case UpdateQty(id, qty) =>
      if qty <= 0 then Removed(s, id) else if id in s.qty then s.(qty := s.qty[id := qty]) else s
    case UpdateLineDiscount(_, _) => s
    case SetCartDiscount(_) => s
    case Clear => Simple([], map[])
  }

  function SimpleAll(s: Simple, actions: seq<Action>): Simple {
    if actions == [] then s else SimpleStep(SimpleAll(s, actions[..|actions| - 1]), actions[|actions| - 1])
  }

  function Ids(items: seq<Item>): seq<string> {
    if items == [] then [] else Ids(items[..|items| - 1]) + [items[|items| - 1].product.id]
  }

  function Quantities(items: seq<Item>): map<string, int> {
    if items == [] then map[]
    else Quantities(items[..|items| - 1])[items[|items| - 1].product.id := items[|items| - 1].qty]
  }

  function View(items: seq<Item>): Simple { Simple(Ids(items), Quantities(items)) }

  ghost predicate Unique(items: seq<Item>) {
    forall i, j :: 0 <= i < j < |items| ==> items[i].product.id != items[j].product.id
  }

  ghost predicate Valid(items: seq<Item>) {
    Unique(items) && forall i <- items :: i.qty >= 1
  }

  // ---- The reducer refines the reference ----

  lemma {:induction false} IdsAreItems(items: seq<Item>)
    ensures |Ids(items)| == |items|
    ensures forall i :: 0 <= i < |items| ==> Ids(items)[i] == items[i].product.id
  {
    if items != [] {
      IdsAreItems(items[..|items| - 1]);
    }
  }

  lemma {:induction false} QuantitiesAreItems(items: seq<Item>, id: string)
    ensures id in Quantities(items) <==> InCart(items, id)
  {
    if items != [] {
      var n := |items| - 1;
      QuantitiesAreItems(items[..n], id);
      assert forall i <- items :: i in items[..n] || i == items[n];
      assert items[n] in items;
    }
  }

  /** The last item's id is new. */
  lemma LastIsNew(items: seq<Item>)
    requires items != [] && Unique(items)
    ensures items[|items| - 1].product.id !in Quantities(items[..|items| - 1])
  {
    QuantitiesAreItems(items[..|items| - 1], items[|items| - 1].product.id);
  }

  function Updated(q: map<string, int>, id: string, update: int -> int): map<string, int> {
    if id in q then q[id := update(q[id])] else q
  }

  lemma {:induction false} WithQtyIds(items: seq<Item>, id: string, update: int -> int)
    ensures Ids(WithQty(items, id, update)) == Ids(items)
  {
    if items != [] {
      WithQtyIds(items[..|items| - 1], id, update);
    }
  }

  lemma AddingLast(q: map<string, int>, last: string, qty: int, id: string, update: int -> int)
    requires last !in q
    ensures Updated(q[last := qty], id, update)
            == Updated(q, id, update)[last := if last == id then update(qty) else qty]
  {
  }

  lemma {:induction false} WithQtyRefines(items: seq<Item>, id: string, update: int -> int)
    requires Unique(items)
    ensures Quantities(WithQty(items, id, update)) == Updated(Quantities(items), id, update)
  {
    if items != [] {
      var n := |items| - 1;
      WithQtyRefines(items[..n], id, update);
      LastIsNew(items);
      AddingLast(Quantities(items[..n]), items[n].product.id, items[n].qty, id, update);
    }
  }

  lemma {:induction false} WithLineDiscountRefines(items: seq<Item>, id: string, percent: real)
    ensures Ids(WithLineDiscount(items, id, percent)) == Ids(items)
    ensures Quantities(WithLineDiscount(items, id, percent)) == Quantities(items)
  {
    if items != [] {
      WithLineDiscountRefines(items[..|items| - 1], id, percent);
    }
  }

  lemma {:induction false} WithoutIds(items: seq<Item>, id: string)
    ensures Ids(Without(items, id)) == Drop(Ids(items), id)
  {
    if items != [] {
      WithoutIds(items[..|items| - 1], id);
    }
  }

  lemma DroppingWithLast(q: map<string, int>, last: string, qty: int, id: string)
    requires last !in q
    ensures q[last := qty] - {id} == if last == id then q - {id} else (q - {id})[last := qty]
  {
  }

  lemma WithoutSnoc(items: seq<Item>, id: string)
    requires items != [] && items[|items| - 1].product.id != id
    ensures var last := items[|items| - 1];
            Quantities(Without(items, id)) == Quantities(Without(items[..|items| - 1], id))[last.product.id := last.qty]
  {
    assert Without(items, id)[..|Without(items, id)| - 1] == Without(items[..|items| - 1], id);
  }

  lemma {:induction false} WithoutRefines(items: seq<Item>, id: string)
    requires Unique(items)
    ensures Quantities(Without(items, id)) == Quantities(items) - {id}
  {
    if items != [] {
      var n := |items| - 1;
      WithoutRefines(items[..n], id);
      LastIsNew(items);
      DroppingWithLast(Quantities(items[..n]), items[n].product.id, items[n].qty, id);
      if items[n].product.id != id {
        WithoutSnoc(items, id);
      }
    }
  }

  lemma {:induction false} QuantitiesLookUp(items: seq<Item>, i: nat)
    requires Unique(items) && i < |items|
    ensures items[i].product.id in Quantities(items) && Quantities(items)[items[i].product.id] == items[i].qty
  {
    var n := |items| - 1;
    if i < n {
      QuantitiesLookUp(items[..n], i);
    }
  }

  lemma AddRefines(c: Cart, p: Product)
    requires Unique(c.items)
    ensures View(Reduce(c, AddToCart(p)).items) == SimpleStep(View(c.items), AddToCart(p))
  {
    QuantitiesAreItems(c.items, p.id);
    if InCart(c.items, p.id) {
      WithQtyIds(c.items, p.id, q => q + 1);
      WithQtyRefines(c.items, p.id, q => q + 1);
    } else {
      assert (c.items + [Item(p, 1, 0.0)])[..|c.items|] == c.items;
    }
  }

  lemma RemoveRefines(items: seq<Item>, id: string)
    requires Unique(items)
    ensures View(Without(items, id)) == Removed(View(items), id)
  {
    WithoutIds(items, id);
    WithoutRefines(items, id);
  }

  lemma UpdateRefines(c: Cart, id: string, qty: int)
    requires Unique(c.items)
    ensures View(Reduce(c, UpdateQty(id, qty)).items) == SimpleStep(View(c.items), UpdateQty(id, qty))
  {
    if qty <= 0 {
      RemoveRefines(c.items, id);
    } else {
      WithQtyIds(c.items, id, _ => qty);
      WithQtyRefines(c.items, id, _ => qty);
    }
  }

  /** One action does to the cart what it does to the simple map. */
  lemma ReduceRefines(c: Cart, a: Action)
    requires Unique(c.items)
    ensures View(Reduce(c, a).items) == SimpleStep(View(c.items), a)
  {
    match a {
      case AddToCart(p) => AddRefines(c, p);
      case RemoveFromCart(id) => RemoveRefines(c.items, id);
      case UpdateQty(id, qty) => UpdateRefines(c, id, qty);
      case UpdateLineDiscount(id, percent) => WithLineDiscountRefines(c.items, id, percent);
      case SetCartDiscount(_) =>
      case Clear =>
    }
  }

  // ---- What an action does to each item ----

  /** The item with this product, if there is one. */
  function Find(items: seq<Item>, id: string): Option<Item> {
    if items == [] then None
    else if items[|items| - 1].product.id == id then Some(items[|items| - 1])
    else Find(items[..|items| - 1], id)
  }

  lemma {:induction false} FindInCart(items: seq<Item>, id: string)
    ensures Find(items, id).Some? <==> InCart(items, id)
  {
    if items != [] {
      var n := |items| - 1;
      FindInCart(items[..n], id);
      assert forall i <- items :: i in items[..n] || i == items[n];
      assert items[n] in items;
    }
  }

  lemma {:induction false} FindUpdated(items: seq<Item>, id: string, update: int -> int, percent: real, x: string)
    ensures Find(WithQty(items, id, update), x)
            == match Find(items, x)
               case Some(i) => Some(if x == id then i.(qty := update(i.qty)) else i)
               case None => None
    ensures Find(WithLineDiscount(items, id, percent), x)
            == match Find(items, x)
               case Some(i) => Some(if x == id then i.(lineDiscount := percent) else i)
               case None => None
  {
    if items != [] {
      var n := |items| - 1;
      FindUpdated(items[..n], id, update, percent, x);
      assert WithQty(items, id, update)[..|WithQty(items, id, update)| - 1] == WithQty(items[..n], id, update);
      var discounted := WithLineDiscount(items, id, percent);
      assert discounted[..|discounted| - 1] == WithLineDiscount(items[..n], id, percent);
    }
  }

  lemma {:induction false} FindWithout(items: seq<Item>, id: string, x: string)
    ensures Find(Without(items, id), x) == if x == id then None else Find(items, x)
  {
    if items != [] {
      var n := |items| - 1;
      FindWithout(items[..n], id, x);
      if items[n].product.id != id {
        assert Without(items, id)[..|Without(items, id)| - 1] == Without(items[..n], id);
      }
    }
  }

  /** What becomes of item x, which keeps its product, and all but what the action is about. */
  ghost predicate ActsOn(a: Action, x: string, before: Option<Item>, after: Option<Item>) {
    match a
    case AddToCart(p) =>
      if x != p.id then after == before
      else if before.None? then after == Some(Item(p, 1, 0.0))
      else after == Some(Item(before.value.product, before.value.qty + 1, before.value.lineDiscount))
    case RemoveFromCart(id) => after == if x == id then None else before
    case UpdateQty(id, qty) =>
      if x != id || before.None? then after == before
      else if qty <= 0 then after == None
      else after == Some(Item(before.value.product, qty, before.value.lineDiscount))
    case UpdateLineDiscount(id, percent) =>
      if x != id || before.None? then after == before
      else after == Some(Item(before.value.product, before.value.qty, percent))
    case SetCartDiscount(_) => after == before
    case Clear => after == None
  }

  lemma ReduceActsOnItems(c: Cart, a: Action, x: string)
    ensures ActsOn(a, x, Find(c.items, x), Find(Reduce(c, a).items, x))
    ensures Reduce(c, a).discount
            == match a case SetCartDiscount(percent) => percent case Clear => 0.0 case _ => c.discount
  {
    match a {
      case AddToCart(p) =>
        FindInCart(c.items, p.id);
        FindUpdated(c.items, p.id, q => q + 1, 0.0, x);
        assert (c.items + [Item(p, 1, 0.0)])[..|c.items|] == c.items;
      case RemoveFromCart(id) => FindWithout(c.items, id, x);
      case UpdateQty(id, qty) =>
        FindWithout(c.items, id, x);
        FindUpdated(c.items, id, _ => qty, 0.0, x);
      case UpdateLineDiscount(id, percent) => FindUpdated(c.items, id, q => q, percent, x);
      case SetCartDiscount(_) =>
      case Clear =>
    }
  }

  // ---- The reference's invariant ----

  ghost predicate NoRepeats(order: seq<string>) {
    forall i, j :: 0 <= i < j < |order| ==> order[i] != order[j]
  }

  ghost predicate SimpleValid(s: Simple) {
    && NoRepeats(s.order)
    && (forall id :: id in s.qty <==> id in s.order)
    && (forall id :: id in s.qty ==> s.qty[id] >= 1)
  }

  lemma {:induction false} DropMembers(order: seq<string>, id: string, x: string)
    ensures x in Drop(order, id) <==> x in order && x != id
  {
    if order != [] {
      DropMembers(order[..|order| - 1], id, x);
      assert order == order[..|order| - 1] + [order[|order| - 1]];
    }
  }

  lemma {:induction false} DropKeepsOrder(order: seq<string>, id: string)
    requires NoRepeats(order)
    ensures NoRepeats(Drop(order, id))
  {
    if order != [] {
      var n := |order| - 1;
      DropKeepsOrder(order[..n], id);
      DropMembers(order[..n], id, order[n]);
      assert order[n] !in order[..n];
    }
  }

  lemma RemovedIsValid(s: Simple, id: string)
    requires SimpleValid(s)
    ensures SimpleValid(Removed(s, id))
  {
    DropKeepsOrder(s.order, id);
    forall x ensures x in Drop(s.order, id) <==> x in s.order && x != id {
      DropMembers(s.order, id, x);
    }
  }

  lemma SimpleStepIsValid(s: Simple, a: Action)
    requires SimpleValid(s)
    ensures SimpleValid(SimpleStep(s, a))
  {
    match a {
      case RemoveFromCart(id) => RemovedIsValid(s, id);
      case UpdateQty(id, qty) =>
        if qty <= 0 {
          RemovedIsValid(s, id);
        }
      case _ =>
    }
  }

  /** After any actions, the cart is the ordered image of the simple map, ids are unique and quantities at least one. */
  lemma {:induction false} CartIsSimpleMap(actions: seq<Action>)
    ensures var items := ReduceAll(EMPTY, actions).items;
            View(items) == SimpleAll(Simple([], map[]), actions) && Valid(items)
    ensures SimpleValid(SimpleAll(Simple([], map[]), actions))
  {
    var items := ReduceAll(EMPTY, actions).items;
    if actions == [] {
      assert View([]) == Simple([], map[]);
    } else {
      var c, a := ReduceAll(EMPTY, actions[..|actions| - 1]), actions[|actions| - 1];
      CartIsSimpleMap(actions[..|actions| - 1]);
      ReduceRefines(c, a);
      SimpleStepIsValid(View(c.items), a);
      assert Unique(items) by {
        IdsAreItems(items);
      }
      forall i | 0 <= i < |items| ensures items[i].qty >= 1 {
        QuantitiesLookUp(items, i);
      }
    }
  }

  // ---- The displayed figures, over the reals ----

  const TAX_RATE := 0.10

  function Round2(x: real): real { (x * 100.0 + 0.5).Floor as real / 100.0 }

  function MaxReal(a: real, b: real): real { if a >= b then a else b }

  function AbsReal(x: real): real { if x < 0.0 then -x else x }

  function ItemSubtotal(items: seq<Item>): real {
    if items == [] then 0.0
    else
      var i := items[|items| - 1];
      var lineTotal := i.product.price * i.qty as real;
      ItemSubtotal(items[..|items| - 1]) + lineTotal - i.lineDiscount / 100.0 * lineTotal
  }

  datatype Figures = Figures(itemSubtotal: real, orderDiscount: real, tax: real, total: real)

  function DiscountAmount(c: Cart): real { c.discount / 100.0 * ItemSubtotal(c.items) }

  function FiguresFor(subtotal: real, discount: real): Figures {
    var after := subtotal - discount;
    var tax := MaxReal(0.0, after * TAX_RATE);
    Figures(Round2(subtotal), Round2(discount), Round2(tax), Round2(MaxReal(0.0, after + tax)))
  }

  function Displayed(c: Cart): Figures {
    FiguresFor(ItemSubtotal(c.items), DiscountAmount(c))
  }

  lemma RoundIsClose(x: real)
    ensures AbsReal(Round2(x) - x) <= 0.005
  {
  }

  /** Four roundings to two places. */
  lemma RoundedSum(s: real, d: real, t: real)
    requires t >= 0.0
    ensures AbsReal(Round2(MaxReal(0.0, s - d + t)) - (Round2(s) - Round2(d) + Round2(t)))
            <= 0.02 + MaxReal(0.0, -(s - d))
  {
    RoundIsClose(s);
    RoundIsClose(d);
    RoundIsClose(t);
    RoundIsClose(MaxReal(0.0, s - d + t));
  }

  function Gap(f: Figures): real {
    AbsReal(f.total - (f.itemSubtotal - f.orderDiscount + f.tax))
  }

  lemma FiguresAreClose(subtotal: real, discount: real)
    ensures Gap(FiguresFor(subtotal, discount)) <= 0.02 + MaxReal(0.0, -(subtotal - discount))
  {
    RoundedSum(subtotal, discount, MaxReal(0.0, (subtotal - discount) * TAX_RATE));
  }

  /** The displayed total is the displayed subtotal less discount plus tax, to within two cents and what a discount
      of more than the whole takes below zero. */
  lemma DisplayedTotalIsClose(c: Cart)
    ensures Gap(Displayed(c)) <= 0.02 + MaxReal(0.0, -(ItemSubtotal(c.items) - DiscountAmount(c)))
  {
    FiguresAreClose(ItemSubtotal(c.items), DiscountAmount(c));
  }

  ghost predicate Priced(c: Cart) {
    && 0.0 <= c.discount <= 100.0
    && forall i <- c.items :: i.product.price >= 0.0 && 0.0 <= i.lineDiscount <= 100.0 && i.qty >= 1
  }

  function LineNet(i: Item): real {
    var lineTotal := i.product.price * i.qty as real;
    lineTotal - i.lineDiscount / 100.0 * lineTotal
  }

  lemma PartOf(x: real, percent: real)
    requires x >= 0.0 && 0.0 <= percent <= 100.0
    ensures 0.0 <= percent / 100.0 * x <= x
  {
    var p := percent / 100.0;
    assert 0.0 <= p <= 1.0;
    assert (1.0 - p) * x >= 0.0;
  }

  lemma LineIsNatural(i: Item)
    requires i.product.price >= 0.0 && 0.0 <= i.lineDiscount <= 100.0 && i.qty >= 1
    ensures LineNet(i) >= 0.0
  {
    var q := i.qty as real;
    assert i.product.price * q >= 0.0;
    PartOf(i.product.price * q, i.lineDiscount);
  }

  /** What one unit of an item costs. */
  function UnitNet(price: real, lineDiscount: real): real { price - lineDiscount / 100.0 * price }

  lemma OneMoreUnit(i: Item)
    ensures LineNet(i.(qty := i.qty + 1)) == LineNet(i) + UnitNet(i.product.price, i.lineDiscount)
  {
    var p, q, d := i.product.price, i.qty as real, i.lineDiscount / 100.0;
    assert p * (q + 1.0) == p * q + p;
    assert d * (p * q + p) == d * (p * q) + d * p;
  }

  lemma {:induction false} AbsentUnchanged(items: seq<Item>, id: string, update: int -> int)
    requires forall i <- items :: i.product.id != id
    ensures WithQty(items, id, update) == items
  {
    if items != [] {
      AbsentUnchanged(items[..|items| - 1], id, update);
    }
  }

  lemma SubtotalStep(items: seq<Item>, i: Item)
    ensures ItemSubtotal(items + [i]) == ItemSubtotal(items) + LineNet(i)
  {
    assert (items + [i])[..|items|] == items;
  }

  lemma {:induction false} AddingRaises(items: seq<Item>, k: nat)
    requires Unique(items) && k < |items|
    ensures ItemSubtotal(WithQty(items, items[k].product.id, q => q + 1))
            == ItemSubtotal(items) + UnitNet(items[k].product.price, items[k].lineDiscount)
  {
    var n := |items| - 1;
    if k < n {
      AddingRaises(items[..n], k);
      SubtotalStep(WithQty(items[..n], items[k].product.id, q => q + 1), items[n]);
    } else {
      AbsentUnchanged(items[..n], items[n].product.id, q => q + 1);
      OneMoreUnit(items[n]);
      SubtotalStep(items[..n], items[n].(qty := items[n].qty + 1));
    }
    SubtotalStep(items[..n], items[n]);
    assert items == items[..n] + [items[n]];
  }

  /** Adding a product raises the subtotal by one unit at the price and line discount already in the cart, and by
      its own price if it is new. */
  lemma AddRaisesSubtotal(c: Cart, p: Product)
    requires Unique(c.items)
    ensures var after := ItemSubtotal(Reduce(c, AddToCart(p)).items);
            && (!InCart(c.items, p.id) ==> after == ItemSubtotal(c.items) + p.price)
            && (forall i <- c.items :: i.product.id == p.id ==>
                  after == ItemSubtotal(c.items) + i.product.price - i.lineDiscount / 100.0 * i.product.price)
  {
    if InCart(c.items, p.id) {
      forall i <- c.items | i.product.id == p.id
        ensures ItemSubtotal(WithQty(c.items, p.id, q => q + 1))
                == ItemSubtotal(c.items) + UnitNet(i.product.price, i.lineDiscount)
      {
        var k: nat :| k < |c.items| && c.items[k] == i;
        AddingRaises(c.items, k);
      }
    } else {
      SubtotalStep(c.items, Item(p, 1, 0.0));
    }
  }

  lemma {:induction false} SubtotalIsNatural(items: seq<Item>)
    requires forall i <- items :: i.product.price >= 0.0 && 0.0 <= i.lineDiscount <= 100.0 && i.qty >= 1
    ensures ItemSubtotal(items) >= 0.0
  {
    if items != [] {
      var i := items[|items| - 1];
      SubtotalIsNatural(items[..|items| - 1]);
      assert i in items;
      LineIsNatural(i);
      assert ItemSubtotal(items) == ItemSubtotal(items[..|items| - 1]) + LineNet(i);
    }
  }

  lemma DiscountOf(subtotal: real, c: Cart)
    requires Priced(c) && subtotal == ItemSubtotal(c.items)
    ensures DiscountAmount(c) == c.discount / 100.0 * subtotal <= subtotal
  {
    SubtotalIsNatural(c.items);
    PartOf(subtotal, c.discount);
  }

  lemma DiscountIsPart(c: Cart)
    requires Priced(c)
    ensures DiscountAmount(c) <= ItemSubtotal(c.items)
  {
    DiscountOf(ItemSubtotal(c.items), c);
  }

  lemma FiguresWithin(subtotal: real, discount: real)
    requires discount <= subtotal
    ensures Gap(FiguresFor(subtotal, discount)) <= 0.02
  {
    FiguresAreClose(subtotal, discount);
  }

  /** With prices that are not negative and discounts of 0 to 100 per cent, it is within two cents. */
  lemma DisplayedTotalWithinTwoCents(c: Cart)
    requires Priced(c)
    ensures Gap(Displayed(c)) <= 0.02
  {
    DiscountIsPart(c);
    FiguresWithin(ItemSubtotal(c.items), DiscountAmount(c));
  }

  /** The subtotal is nothing for an empty cart, and every item adds its price times its quantity, less its discount. */
  lemma SubtotalIsSum(items: seq<Item>, i: Item)
    ensures ItemSubtotal([]) == 0.0
    ensures ItemSubtotal(items + [i])
            == ItemSubtotal(items)
               + (i.product.price * i.qty as real - i.lineDiscount / 100.0 * (i.product.price * i.qty as real))
  {
    SubtotalStep(items, i);
  }

  lemma FiguresForAreClose(subtotal: real, discount: real)
    requires discount <= subtotal
    ensures var f := FiguresFor(subtotal, discount);
            && AbsReal(f.itemSubtotal - subtotal) <= 0.005 && AbsReal(f.orderDiscount - discount) <= 0.005
            && AbsReal(10.0 * f.tax - (f.itemSubtotal - f.orderDiscount)) <= 0.06
  {
    RoundIsClose(subtotal);
    RoundIsClose(discount);
    RoundIsClose((subtotal - discount) * TAX_RATE);
  }

  /** The cart's discount is its per cent of the subtotal. */
  lemma DiscountIsPerCent(c: Cart)
    ensures DiscountAmount(c) == c.discount / 100.0 * ItemSubtotal(c.items)
  {
  }

  /** The displayed figures are, to the cent, the subtotal, the discount, and ten per cent of the rest as tax. */
  lemma FiguresMean(c: Cart)
    requires Priced(c)
    ensures var f := Displayed(c);
            && AbsReal(f.itemSubtotal - ItemSubtotal(c.items)) <= 0.005
            && AbsReal(f.orderDiscount - DiscountAmount(c)) <= 0.005
            && AbsReal(10.0 * f.tax - (f.itemSubtotal - f.orderDiscount)) <= 0.06
  {
    DiscountIsPart(c);
    FiguresForAreClose(ItemSubtotal(c.items), DiscountAmount(c));
  }
}
