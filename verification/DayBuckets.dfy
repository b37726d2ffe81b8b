/** Local calendar days as UTC intervals, and the order figures of a range as the sum of its days'. */
module DayBuckets {
  import opened Common

  const DAY := 86400

  /** A zone, given by its UTC offset in seconds at the midnight that starts each local day. */
  type Zone = int -> int

  function LocalDayStartUtc(d: int, zone: Zone): int { d * DAY - zone(d) }

  /** Exclusive end: the start of the next local day. */
  function LocalDayEndUtc(d: int, zone: Zone): int { LocalDayStartUtc(d + 1, zone) }

  /** The offset grows by at most 24 hours from one midnight to the next. */
  ghost predicate Regular(zone: Zone) {
    forall d :: zone(d + 1) - zone(d) <= DAY
  }

  predicate InDay(t: int, d: int, zone: Zone) {
    LocalDayStartUtc(d, zone) <= t < LocalDayEndUtc(d, zone)
  }

  lemma {:induction false} StartsInOrder(zone: Zone, a: int, b: int)
    requires Regular(zone) && a <= b
    ensures LocalDayStartUtc(a, zone) <= LocalDayStartUtc(b, zone)
    decreases b - a
  {
    if a < b {
      StartsInOrder(zone, a, b - 1);
      assert zone(b - 1 + 1) - zone(b - 1) <= DAY;
    }
  }

  /** Every instant of the range from day a up to day b falls into exactly one of its days, and no other does
      into any; days of 23 and 25 hours included. */
  lemma {:induction false} DaysTile(zone: Zone, a: int, b: int, t: int)
    requires Regular(zone) && a <= b
    ensures LocalDayStartUtc(a, zone) <= t < LocalDayStartUtc(b, zone) <==> exists d :: a <= d < b && InDay(t, d, zone)
    ensures forall d, e :: a <= d < b && a <= e < b && InDay(t, d, zone) && InDay(t, e, zone) ==> d == e
    decreases b - a
  {
    if a < b {
      DaysTile(zone, a, b - 1, t);
      StartsInOrder(zone, a, b - 1);
      StartsInOrder(zone, b - 1, b);
      assert InDay(t, b - 1, zone) <==> LocalDayStartUtc(b - 1, zone) <= t < LocalDayStartUtc(b, zone);
    }
  }

  /** Where the offset is constant, the days are the days of the local clock: an instant is in the day that its local
      time counts. */
  lemma LocalDayOfInstant(t: int, d: int, offset: int)
    ensures InDay(t, d, _ => offset) <==> d == (t + offset) / 86_400
  {
  }

  /** And in any zone a day starts at local midnight, by the offset at its start. */
  lemma DayStartsAtMidnight(d: int, zone: Zone)
    ensures (LocalDayStartUtc(d, zone) + zone(d)) % 86_400 == 0 && (LocalDayStartUtc(d, zone) + zone(d)) / 86_400 == d
  {
  }

  datatype OrderStatus = Draft | Pending | Completed | Cancelled | Voided | PartiallyRefunded | Refunded

  datatype OrderRow = OrderRow(status: OrderStatus, createdAt: int, total: int, refunded: int)

  predicate Counted(o: OrderRow, start: int, end: int) {
    (o.status.Completed? || o.status.PartiallyRefunded? || o.status.Refunded?) && start <= o.createdAt < end
  }

  datatype Stats = Stats(count: int, gross: int, refunded: int, net: int)

  function AddTo(s: Stats, t: Stats): Stats {
    Stats(s.count + t.count, s.gross + t.gross, s.refunded + t.refunded, s.net + t.net)
  }

  const NO_ORDERS := Stats(0, 0, 0, 0)

  /** The figures of the orders created in [start, end). */
  function StatsInRange(orders: seq<OrderRow>, start: int, end: int): Stats {
    if orders == [] then NO_ORDERS
    else
      var o := orders[|orders| - 1];
      var rest := StatsInRange(orders[..|orders| - 1], start, end);
      if Counted(o, start, end) then AddTo(rest, Stats(1, o.total, o.refunded, o.total - o.refunded)) else rest
  }

  /** A sale: not a draft, not pending, and neither cancelled nor voided. */
  predicate IsSale(o: OrderRow) {
    o.status !in {Draft, Pending, Cancelled, Voided}
  }

  /** A figure of an order, counted if it is a sale of the period. */
  function Figure(start: int, end: int, f: OrderRow -> int): OrderRow -> int {
    (o: OrderRow) => if IsSale(o) && start <= o.createdAt && o.createdAt < end then f(o) else 0
  }

  function One(): OrderRow -> int { (o: OrderRow) => 1 }
  function Total(): OrderRow -> int { (o: OrderRow) => o.total }
  function RefundedAmount(): OrderRow -> int { (o: OrderRow) => o.refunded }

  /** The figures are the number and the sums of the period's sales, and net is gross less refunded. */
  lemma {:induction false} StatsAreSums(orders: seq<OrderRow>, start: int, end: int)
    ensures var s := StatsInRange(orders, start, end);
            && s.count == SumBy(orders, Figure(start, end, One()))
            && s.gross == SumBy(orders, Figure(start, end, Total()))
            && s.refunded == SumBy(orders, Figure(start, end, RefundedAmount()))
            && s.net == s.gross - s.refunded
  {
    if orders != [] {
      StatsAreSums(orders[..|orders| - 1], start, end);
    }
  }

  /** The figures of the days from a up to b, added up day by day. */
  function DailyTotals(orders: seq<OrderRow>, zone: Zone, a: int, b: int): Stats
    requires a <= b
    decreases b - a
  {
    if a == b then NO_ORDERS
    else AddTo(DailyTotals(orders, zone, a, b - 1),
               StatsInRange(orders, LocalDayStartUtc(b - 1, zone), LocalDayEndUtc(b - 1, zone)))
  }

  lemma {:induction false} RangesAdd(orders: seq<OrderRow>, x: int, y: int, z: int)
    requires x <= y <= z
    ensures StatsInRange(orders, x, z) == AddTo(StatsInRange(orders, x, y), StatsInRange(orders, y, z))
  {
    if orders != [] {
      RangesAdd(orders[..|orders| - 1], x, y, z);
    }
  }

  lemma {:induction false} EmptyRange(orders: seq<OrderRow>, x: int)
    ensures StatsInRange(orders, x, x) == NO_ORDERS
  {
    if orders != [] {
      EmptyRange(orders[..|orders| - 1], x);
    }
  }

  /** Daily order counts, gross, refunded and net figures add up to those of the whole range. */
  lemma {:induction false} DaysAddUpToRange(orders: seq<OrderRow>, zone: Zone, a: int, b: int)
    requires Regular(zone) && a <= b
    ensures DailyTotals(orders, zone, a, b)
            == StatsInRange(orders, LocalDayStartUtc(a, zone), LocalDayStartUtc(b, zone))
    decreases b - a
  {
    if a == b {
      EmptyRange(orders, LocalDayStartUtc(a, zone));
    } else {
      DaysAddUpToRange(orders, zone, a, b - 1);
      StartsInOrder(zone, a, b - 1);
      StartsInOrder(zone, b - 1, b);
      RangesAdd(orders, LocalDayStartUtc(a, zone), LocalDayStartUtc(b - 1, zone), LocalDayStartUtc(b, zone));
    }
  }

  /** The daily figures add up to the range's. */
  predicate AddsUp(zone: Zone, orders: seq<OrderRow>, a: int, b: int)
    requires a <= b
  {
    DailyTotals(orders, zone, a, b) == StatsInRange(orders, LocalDayStartUtc(a, zone), LocalDayStartUtc(b, zone))
  }

  ghost predicate AlwaysAddsUp(zone: Zone) {
    forall orders, a, b :: a <= b ==> AddsUp(zone, orders, a, b)
  }

  lemma CountIsNatural(orders: seq<OrderRow>, start: int, end: int)
    ensures StatsInRange(orders, start, end).count >= 0
  {
    if orders != [] {
      CountIsNatural(orders[..|orders| - 1], start, end);
    }
  }

  lemma {:induction false} DailyCountIsNatural(orders: seq<OrderRow>, zone: Zone, a: int, b: int)
    requires a <= b
    ensures DailyTotals(orders, zone, a, b).count >= 0
    decreases b - a
  {
    if a < b {
      DailyCountIsNatural(orders, zone, a, b - 1);
      CountIsNatural(orders, LocalDayStartUtc(b - 1, zone), LocalDayEndUtc(b - 1, zone));
    }
  }

  /** An instant between two day starts is in some day, whatever the offsets do in between. */
  lemma {:induction false} SomeDayCounts(o: OrderRow, zone: Zone, a: int, b: int)
    requires a < b && Counted(o, LocalDayStartUtc(a, zone), LocalDayStartUtc(b, zone))
    ensures DailyTotals([o], zone, a, b).count >= 1
    decreases b - a
  {
    assert [o][..0] == [];
    DailyCountIsNatural([o], zone, a, b - 1);
    CountIsNatural([o], LocalDayStartUtc(b - 1, zone), LocalDayEndUtc(b - 1, zone));
    if LocalDayStartUtc(b - 1, zone) > o.createdAt {
      SomeDayCounts(o, zone, a, b - 1);
    }
  }

  lemma {:induction false} FirstDayApart(orders: seq<OrderRow>, zone: Zone, a: int, b: int)
    requires a < b
    ensures DailyTotals(orders, zone, a, b).count
            == StatsInRange(orders, LocalDayStartUtc(a, zone), LocalDayEndUtc(a, zone)).count
               + DailyTotals(orders, zone, a + 1, b).count
    decreases b - a
  {
    if a + 1 < b {
      FirstDayApart(orders, zone, a, b - 1);
    }
  }

  /** If a day ends before it starts, an order is counted in a day but not in the range. */
  lemma LostDay(zone: Zone, d: int)
    requires zone(d + 1) - zone(d) > DAY
    requires -DAY <= zone(d) <= DAY && -DAY <= zone(d + 1) <= DAY && -DAY <= zone(d + 4) <= DAY
    ensures !AlwaysAddsUp(zone)
  {
    var o := OrderRow(Completed, LocalDayStartUtc(d + 1, zone), 0, 0);
    SomeDayCounts(o, zone, d + 1, d + 4);
    FirstDayApart([o], zone, d, d + 4);
    CountIsNatural([o], LocalDayStartUtc(d, zone), LocalDayEndUtc(d, zone));
    assert [o][..0] == [];
    assert DailyTotals([o], zone, d, d + 4).count >= 1;
    assert StatsInRange([o], LocalDayStartUtc(d, zone), LocalDayStartUtc(d + 4, zone)).count == 0;
    assert !AddsUp(zone, [o], d, d + 4);
  }

  /** For offsets within a day of UTC, daily figures always add up to the range's exactly when the offset never
      grows by more than 24 hours overnight. */
  lemma DaysAddUpIff(zone: Zone)
    requires forall d :: -DAY <= zone(d) <= DAY
    ensures AlwaysAddsUp(zone) <==> Regular(zone)
  {
    if Regular(zone) {
      forall orders, a, b | a <= b ensures AddsUp(zone, orders, a, b) {
        DaysAddUpToRange(orders, zone, a, b);
      }
    } else {
      var d :| zone(d + 1) - zone(d) > DAY;
      LostDay(zone, d);
    }
  }
}
