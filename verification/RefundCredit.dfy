/** How much of a refund is credited to the customer's ledger: only what was still unpaid debt. */
module RefundCredit {
  import opened Common
  import CustomerLedger
  import opened Settlement

  /** One refund of an order: its amount, and what had been paid or settled by then. */
  datatype Refund = Refund(amount: nat, totalPaid: int, settled: int)

  function Unpaid(total: int, r: Refund, previouslyRefunded: int): int {
    Max(total - Max(r.totalPaid, r.settled) - previouslyRefunded, 0)
  }

  function Credit(total: int, r: Refund, previouslyRefunded: int): int {
    Min(r.amount, Unpaid(total, r, previouslyRefunded))
  }

  function Refunded(rs: seq<Refund>): nat {
    if rs == [] then 0 else Refunded(rs[..|rs| - 1]) + rs[|rs| - 1].amount
  }

  /** The credits of an order's successive refunds. */
  function Credits(total: int, rs: seq<Refund>): int {
    if rs == [] then 0
    else
      var n := |rs| - 1;
      Credits(total, rs[..n]) + Credit(total, rs[n], Refunded(rs[..n]))
  }

  /** If nothing is paid between them, successive refunds credit exactly the debt left unpaid, up to what they
      refund. */
  lemma {:induction false} CreditsTelescope(total: int, rs: seq<Refund>, already: int)
    requires forall r <- rs :: Max(r.totalPaid, r.settled) == already
    ensures Credits(total, rs) == Min(Refunded(rs), Max(total - already, 0))
  {
    if rs != [] {
      CreditsTelescope(total, rs[..|rs| - 1], already);
    }
  }

  /** If each finds at least so much paid or settled, successive refunds never credit more than what that leaves unpaid,
      nor more than they refund. */
  lemma {:induction false} NoDoubleCompensation(total: int, rs: seq<Refund>, already: int)
    requires forall r <- rs :: Max(r.totalPaid, r.settled) >= already
    ensures 0 <= Credits(total, rs) <= Min(Refunded(rs), Max(total - already, 0))
  {
    if rs != [] {
      var n := |rs| - 1;
      NoDoubleCompensation(total, rs[..n], already);
    }
  }

  // ---- Against the settlement ----

  /** An event raises the credit of a refund to come if and only if it places a rival of the order, and the refund is
      one that the order's settled amount had kept down: more was settled than taken for it, the refund asks for more
      than was unpaid, and something is unpaid behind the rival. */
  lemma CreditRisesIff(b: Books, ev: Event, i: nat, amount: nat, paid: int, previouslyRefunded: int)
    requires i < |b.orders| && (ev.Posted? ==> PositivePayment(ev.entry))
    ensures var total, settled := b.orders[i].total, Settled(b.entries, b.orders, i);
            var b', i' := Next(b, ev), Shifted(b, ev, i);
            var before := Refund(amount, paid, settled);
            var after := Refund(amount, paid, Settled(b'.entries, b'.orders, i'));
            Credit(total, after, previouslyRefunded) > Credit(total, before, previouslyRefunded)
            <==> && Rivals(b, ev, i)
                 && paid < settled && Unpaid(total, before, previouslyRefunded) < amount
                 && Max(paid, SettledBehind(b.entries, b.orders, ev.order, i)) + previouslyRefunded < total
  {
    SettledFallsIff(b, ev, i);
    if Rivals(b, ev, i) {
      OlderOrderTakes(b.entries, b.orders, ev.order, Min(ev.at, |b.orders|), i);
    }
  }

  /** What can happen between an order's refunds, and the refunds: their amount and the money taken for the order. */
  datatype Happening = Happened(event: Event) | Refunding(amount: nat, totalPaid: int)

  function Events(hs: seq<Happening>): seq<Event> {
    if hs == [] then []
    else Events(hs[..|hs| - 1]) + (if hs[|hs| - 1].Happened? then [hs[|hs| - 1].event] else [])
  }

  /** The refunds of order i, each with what settlement computes when it is made. */
  function Refunds(b: Books, i: nat, hs: seq<Happening>): seq<Refund>
    requires i < |b.orders|
  {
    if hs == [] then []
    else
      var n := |hs| - 1;
      match hs[n]
      case Happened(_) => Refunds(b, i, hs[..n])
      case Refunding(a, p) => Refunds(b, i, hs[..n]) + [Refund(a, p, SettledAfter(b, Events(hs[..n]), i))]
  }

  /** At no point of the run is order i settled to less than the given amount. */
  ghost predicate SettledAtLeast(b: Books, events: seq<Event>, i: nat, amount: int)
    requires i < |b.orders|
  {
    forall n :: 0 <= n <= |events| ==> SettledAfter(b, events[..n], i) >= amount
  }

  lemma {:induction false} SettledAtEachRefund(b: Books, i: nat, hs: seq<Happening>, amount: int)
    requires i < |b.orders| && SettledAtLeast(b, Events(hs), i, amount)
    ensures forall r <- Refunds(b, i, hs) :: r.settled >= amount
  {
    if hs != [] {
      var n, events := |hs| - 1, Events(hs[..|hs| - 1]);
      assert events == Events(hs)[..|events|];
      forall m | 0 <= m <= |events| ensures SettledAfter(b, events[..m], i) >= amount {
        assert events[..m] == Events(hs)[..m];
      }
      SettledAtEachRefund(b, i, hs[..n], amount);
      assert events[..|events|] == events;
    }
  }

  /** Without rivals the settled amount is never less than at the start. */
  lemma UnrivalledIsKept(b: Books, events: seq<Event>, i: nat)
    requires i < |b.orders| && PaymentsArePositive(events) && Unrivalled(b, events, i)
    ensures SettledAtLeast(b, events, i, Settled(b.entries, b.orders, i))
  {
    forall n | 0 <= n <= |events|
      ensures SettledAfter(b, events[..n], i) >= Settled(b.entries, b.orders, i)
    {
      UnrivalledPrefix(b, events, i, n);
      SettlementOnlyProgresses(b, events[..n], i);
    }
  }

  /** Over whole runs of payments, new orders and refunds in which no placing competes with an order, its refunds never
      credit more than what settlement left unpaid at the start. */
  lemma RefundsNeverCompensateTwice(b: Books, i: nat, hs: seq<Happening>)
    requires i < |b.orders| && PaymentsArePositive(Events(hs)) && Unrivalled(b, Events(hs), i)
    ensures var total, rs := b.orders[i].total, Refunds(b, i, hs);
            0 <= Credits(total, rs) <= Min(Refunded(rs), Max(total - Settled(b.entries, b.orders, i), 0))
  {
    UnrivalledIsKept(b, Events(hs), i);
    SettledAtEachRefund(b, i, hs, Settled(b.entries, b.orders, i));
    NoDoubleCompensation(b.orders[i].total, Refunds(b, i, hs), Settled(b.entries, b.orders, i));
  }

  // ---- Exactly when the bound holds ----

  /** The happenings, and then these events. */
  function Then(hs: seq<Happening>, events: seq<Event>): seq<Happening> {
    if events == [] then hs else Then(hs, events[..|events| - 1]) + [Happened(events[|events| - 1])]
  }

  /** One more happening: an event adds no refund, and a refund no event. */
  lemma OneMore(b: Books, i: nat, hs: seq<Happening>, h: Happening)
    requires i < |b.orders|
    ensures Events(hs + [h]) == Events(hs) + (if h.Happened? then [h.event] else [])
    ensures Refunds(b, i, hs + [h])
            == Refunds(b, i, hs)
               + (if h.Happened? then [] else [Refund(h.amount, h.totalPaid, SettledAfter(b, Events(hs), i))])
  {
    assert (hs + [h])[..|hs|] == hs;
  }

  lemma {:induction false} ThenAddsEvents(b: Books, i: nat, hs: seq<Happening>, events: seq<Event>)
    requires i < |b.orders|
    ensures Events(Then(hs, events)) == Events(hs) + events
    ensures Refunds(b, i, Then(hs, events)) == Refunds(b, i, hs)
  {
    if events != [] {
      var n := |events| - 1;
      ThenAddsEvents(b, i, hs, events[..n]);
      OneMore(b, i, Then(hs, events[..n]), Happened(events[n]));
      assert events == events[..n] + [events[n]];
    }
  }

  /** A run with one refund, between two runs of events. */
  function RefundBetween(first: seq<Event>, rest: seq<Event>, amount: nat, paid: int): seq<Happening> {
    Then(Then([], first) + [Refunding(amount, paid)], rest)
  }

  lemma OneRefund(b: Books, i: nat, first: seq<Event>, rest: seq<Event>, amount: nat, paid: int)
    requires i < |b.orders|
    ensures Events(RefundBetween(first, rest, amount, paid)) == first + rest
    ensures Refunds(b, i, RefundBetween(first, rest, amount, paid))
            == [Refund(amount, paid, SettledAfter(b, first, i))]
  {
    var start := Then([], first);
    assert Events(start) == first && Refunds(b, i, start) == [] by {
      ThenAddsEvents(b, i, [], first);
      assert [] + first == first;
    }
    OneMore(b, i, start, Refunding(amount, paid));
    ThenAddsEvents(b, i, start + [Refunding(amount, paid)], rest);
  }

  /** Refunds of order i in the course of these events credit more than was unpaid at the start. */
  ghost predicate Overcompensates(b: Books, i: nat, events: seq<Event>, hs: seq<Happening>)
    requires i < |b.orders|
  {
    && Events(hs) == events
    && Credits(b.orders[i].total, Refunds(b, i, hs))
       > Max(b.orders[i].total - Settled(b.entries, b.orders, i), 0)
  }

  /** Alone, a refund of all that is unpaid is credited in full. */
  lemma OneCredit(total: int, paid: int, settled: int)
    requires paid <= settled <= total
    ensures Credits(total, [Refund(total - settled, paid, settled)]) == total - settled
  {
    var r := Refund(total - settled, paid, settled);
    assert [r][..0] == [];
  }

  /** What was taken at checkout for the order. */
  function CheckoutAfter(b: Books, events: seq<Event>, i: nat): (paid: int)
    requires i < |b.orders|
    ensures paid <= SettledAfter(b, events, i)
  {
    Checkout(After(b, events).entries, After(b, events).orders[Place(b, events, i)].id)
  }

  /** At a point where the order has fallen back, one refund credits all that is unpaid then. */
  lemma RefundWhenFallen(b: Books, i: nat, first: seq<Event>, rest: seq<Event>) returns (hs: seq<Happening>)
    requires i < |b.orders| && SettledAfter(b, first, i) <= b.orders[i].total
    ensures Events(hs) == first + rest
    ensures Credits(b.orders[i].total, Refunds(b, i, hs)) == b.orders[i].total - SettledAfter(b, first, i)
  {
    var amount, paid := b.orders[i].total - SettledAfter(b, first, i), CheckoutAfter(b, first, i);
    hs := RefundBetween(first, rest, amount, paid);
    OneRefund(b, i, first, rest, amount, paid);
    OneCredit(b.orders[i].total, paid, SettledAfter(b, first, i));
  }

  /** If the order is never settled to less, no refunds credit more than was unpaid at the start. */
  lemma NoneOvercompensates(b: Books, i: nat, hs: seq<Happening>)
    requires i < |b.orders|
    requires SettledAtLeast(b, Events(hs), i, Min(Settled(b.entries, b.orders, i), b.orders[i].total))
    ensures !Overcompensates(b, i, Events(hs), hs)
  {
    var least := Min(Settled(b.entries, b.orders, i), b.orders[i].total);
    SettledAtEachRefund(b, i, hs, least);
    NoDoubleCompensation(b.orders[i].total, Refunds(b, i, hs), least);
  }

  lemma CreditedMore(b: Books, i: nat, events: seq<Event>, hs: seq<Happening>, fallen: int)
    requires i < |b.orders| && Events(hs) == events
    requires Credits(b.orders[i].total, Refunds(b, i, hs)) == b.orders[i].total - fallen
    requires fallen < Min(Settled(b.entries, b.orders, i), b.orders[i].total)
    ensures Overcompensates(b, i, events, hs)
  {
  }

  /** If it is after some of them, some do. */
  lemma SomeOvercompensates(b: Books, i: nat, first: seq<Event>, rest: seq<Event>) returns (hs: seq<Happening>)
    requires i < |b.orders|
    requires SettledAfter(b, first, i) < Min(Settled(b.entries, b.orders, i), b.orders[i].total)
    ensures Overcompensates(b, i, first + rest, hs)
  {
    hs := RefundWhenFallen(b, i, first, rest);
    CreditedMore(b, i, first + rest, hs, SettledAfter(b, first, i));
  }

  lemma FallenPoint(b: Books, events: seq<Event>, i: nat, amount: int) returns (first: seq<Event>, rest: seq<Event>)
    requires i < |b.orders| && !SettledAtLeast(b, events, i, amount)
    ensures first + rest == events && SettledAfter(b, first, i) < amount
  {
    var n :| 0 <= n <= |events| && SettledAfter(b, events[..n], i) < amount;
    first, rest := events[..n], events[n..];
  }

  /** No refunds in the course of given events credit more than was unpaid at the start if and only if at no point
      the order is settled to less than it was then, or than its total if it was settled to more. */
  lemma NeverOvercompensatesIff(b: Books, i: nat, events: seq<Event>)
    requires i < |b.orders|
    ensures (forall hs :: !Overcompensates(b, i, events, hs))
            <==> SettledAtLeast(b, events, i, Min(Settled(b.entries, b.orders, i), b.orders[i].total))
  {
    ghost var least := Min(Settled(b.entries, b.orders, i), b.orders[i].total);
    if SettledAtLeast(b, events, i, least) {
      forall hs | Events(hs) == events ensures !Overcompensates(b, i, events, hs) {
        NoneOvercompensates(b, i, hs);
      }
    } else {
      var first, rest := FallenPoint(b, events, i, least);
      var hs := SomeOvercompensates(b, i, first, rest);
    }
  }

  /** A refund of an order that was settled in full is credited in full once a rival is placed. */
  lemma OlderOrderRaisesCredit(older: OrderRow, newer: OrderRow, pool: CustomerLedger.Entry)
    requires TargetOf(pool.posting) == Pool
    requires pool.posting.amount == newer.total > 0 && older.total >= newer.total
    ensures var refund := Refund(newer.total, 0, Settled([pool], [newer], 0));
            Credit(newer.total, refund, 0) == 0
    ensures var refund := Refund(newer.total, 0, Settled([pool], Insert([newer], 0, older), 1));
            Credit(newer.total, refund, 0) == newer.total
  {
    OlderOrderUnsettles(older, newer, pool);
  }
}
