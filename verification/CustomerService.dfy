/** The customer service as it changes its rows: ledger postings, payments, deletion and payment statuses. */
module CustomerService {
  import opened Common
  import opened CustomerLedger
  import opened Settlement
  import opened TiedOrders

  class OrderRecord {
    const id: string
    const totalAmount: int
    const createdAt: int
    var paymentStatus: PaymentStatus

    constructor (id: string, totalAmount: int, createdAt: int, paymentStatus: PaymentStatus)
      ensures Row() == OrderRow(id, totalAmount, createdAt) && this.paymentStatus == paymentStatus
    {
      this.id, this.totalAmount, this.createdAt, this.paymentStatus := id, totalAmount, createdAt, paymentStatus;
    }

    function Row(): OrderRow { OrderRow(id, totalAmount, createdAt) }
  }

  function Rows(orders: seq<OrderRecord>): (rows: seq<OrderRow>)
    ensures |rows| == |orders|
    ensures forall i :: 0 <= i < |orders| ==> rows[i] == orders[i].Row()
  {
    seq(|orders|, i requires 0 <= i < |orders| => orders[i].Row())
  }

  /** The answer has all orders, oldest first. */
  ghost predicate Answers(orders: seq<OrderRecord>, answer: seq<OrderRecord>) {
    multiset(answer) == multiset(orders) && Sorted(Rows(answer)) && DistinctIds(Rows(answer))
  }

  /** A new order may come in at this place of an answer: no id is used twice, and the dates are in order. */
  ghost predicate FitsAt(others: seq<OrderRecord>, place: nat, id: string, createdAt: int) {
    && place <= |others|
    && (forall i :: 0 <= i < |others| ==> others[i].id != id)
    && (forall i :: 0 <= i < place ==> others[i].createdAt <= createdAt)
    && (forall i :: place <= i < |others| ==> createdAt <= others[i].createdAt)
  }

  // ---- A new order in an answer ----

  lemma RowsInserted(others: seq<OrderRecord>, place: nat, order: OrderRecord)
    requires place <= |others|
    ensures Rows(Insert(others, place, order)) == Insert(Rows(others), place, order.Row())
  {
  }

  lemma InsertMembers(others: seq<OrderRecord>, place: nat, order: OrderRecord)
    requires place <= |others|
    ensures forall r :: r in Insert(others, place, order) <==> r in others || r == order
  {
  }

  lemma InsertedAnswers(orders: seq<OrderRecord>, others: seq<OrderRecord>, place: nat, order: OrderRecord)
    requires Answers(orders, others) && FitsAt(others, place, order.id, order.createdAt)
    ensures Answers(orders + [order], Insert(others, place, order))
  {
    InsertIntoBag(others, place, order);
    RowsInserted(others, place, order);
    InsertIsSorted(Rows(others), place, order.Row());
    InsertKeepsIdsDistinct(Rows(others), place, order.Row());
  }

  // ---- Checkout ----

  function SaleOf(id: string, total: int, now: int): Posting {
    Posting(SaleDebt, total, Some("ORDER"), Some(id), now)
  }

  function MoneyFor(id: string, amountPaid: int, now: int): Posting {
    Posting(Payment, amountPaid, Some("ORDER"), Some(id), now)
  }

  function CheckoutPostings(id: string, total: int, amountPaid: int, now: int): seq<Posting> {
    if amountPaid > 0 then [SaleOf(id, total, now), MoneyFor(id, amountPaid, now)] else [SaleOf(id, total, now)]
  }

  lemma CheckoutPosts(c: Customer, id: string, total: int, amountPaid: int, now: int)
    ensures PostAll(c, CheckoutPostings(id, total, amountPaid, now))
            == match Post(c, SaleOf(id, total, now))
               case Ok(c') => if amountPaid > 0 then Post(c', MoneyFor(id, amountPaid, now)) else Ok(c')
               case Err(e) => Err(e)
  {
    var sale, money := SaleOf(id, total, now), MoneyFor(id, amountPaid, now);
    assert PostAll(c, [sale]) == Post(c, sale) by {
      assert [sale][..0] == [];
    }
    assert [sale, money][..1] == [sale];
  }

  /** A sale is refused to a deleted customer and beyond a positive limit. Otherwise it is posted with the order's
      total, and the money taken, if any, tagged with the order. */
  lemma CheckoutResult(c: Customer, id: string, total: int, amountPaid: int, now: int)
    requires amountPaid >= 0
    ensures match PostAll(c, CheckoutPostings(id, total, amountPaid, now))
            case Err(_) => c.deleted || 0 < c.creditLimit < c.balance + total
            case Ok(d) =>
              && !c.deleted && !(0 < c.creditLimit < c.balance + total)
              && d.balance == c.balance + total - amountPaid
              && d.ledger == c.ledger
                   + [Entry(Posting(SaleDebt, total, Some("ORDER"), Some(id), now), c.balance, c.balance + total)]
                   + (if amountPaid > 0
                      then [Entry(Posting(Payment, amountPaid, Some("ORDER"), Some(id), now), c.balance + total,
                                  d.balance)]
                      else [])
  {
    CheckoutPosts(c, id, total, amountPaid, now);
  }

  lemma MoneyPays(c: Customer, id: string, amountPaid: int, now: int)
    requires id != "" && Post(c, MoneyFor(id, amountPaid, now)).Ok?
    ensures var d := Post(c, MoneyFor(id, amountPaid, now)).customer;
            && Checkout(d.ledger, id) == Checkout(c.ledger, id) + amountPaid
            && PoolOf(d.ledger) == PoolOf(c.ledger)
            && (forall other :: other != id ==> Checkout(d.ledger, other) == Checkout(c.ledger, other))
  {
    var d := Post(c, MoneyFor(id, amountPaid, now)).customer;
    RowPays(c.ledger, d.ledger[|c.ledger|], id);
    forall other | other != id ensures Checkout(d.ledger, other) == Checkout(c.ledger, other) {
      RowPays(c.ledger, d.ledger[|c.ledger|], other);
    }
  }

  /** So the money counts for the order, and the pool stays as it is. */
  lemma CheckoutPays(c: Customer, id: string, total: int, amountPaid: int, now: int)
    requires amountPaid >= 0 && id != "" && PostAll(c, CheckoutPostings(id, total, amountPaid, now)).Ok?
    ensures var d := PostAll(c, CheckoutPostings(id, total, amountPaid, now)).customer;
            && Checkout(d.ledger, id) == Checkout(c.ledger, id) + amountPaid
            && PoolOf(d.ledger) == PoolOf(c.ledger)
            && (forall other :: other != id ==> Checkout(d.ledger, other) == Checkout(c.ledger, other))
  {
    CheckoutPosts(c, id, total, amountPaid, now);
    var d := Post(c, SaleOf(id, total, now)).customer;
    forall other: string
      ensures Checkout(d.ledger, other) == Checkout(c.ledger, other) && PoolOf(d.ledger) == PoolOf(c.ledger)
    {
      RowPays(c.ledger, d.ledger[|c.ledger|], other);
    }
    RowPays(c.ledger, d.ledger[|c.ledger|], id);
    if amountPaid > 0 {
      MoneyPays(d, id, amountPaid, now);
    }
  }

  /** A sale is refused to a deleted customer, and beyond a positive limit. */
  predicate Refusable(c: Customer, total: int) {
    c.deleted || 0 < c.creditLimit < c.balance + total
  }

  /** The sale's total has been posted, and the money taken, if any, tagged with the order. So the balance has risen by
      what is left to pay, the money counts for the order and no other, and the pool is as it was. */
  ghost predicate Sold(c: Customer, d: Customer, id: string, total: int, amountPaid: int, now: int) {
    && d.balance == c.balance + total - amountPaid
    && d.ledger == c.ledger
         + [Entry(Posting(SaleDebt, total, Some("ORDER"), Some(id), now), c.balance, c.balance + total)]
         + (if amountPaid > 0
            then [Entry(Posting(Payment, amountPaid, Some("ORDER"), Some(id), now), c.balance + total, d.balance)]
            else [])
    && (id != "" ==>
          && Checkout(d.ledger, id) == Checkout(c.ledger, id) + amountPaid
          && PoolOf(d.ledger) == PoolOf(c.ledger)
          && (forall other :: other != id ==> Checkout(d.ledger, other) == Checkout(c.ledger, other)))
  }

  lemma SaleEffect(c: Customer, id: string, total: int, amountPaid: int, now: int)
    requires amountPaid >= 0
    ensures var result := PostAll(c, CheckoutPostings(id, total, amountPaid, now));
            && (result.Err? <==> Refusable(c, total))
            && (result.Ok? ==> Sold(c, result.customer, id, total, amountPaid, now))
  {
    CheckoutResult(c, id, total, amountPaid, now);
    if id != "" && PostAll(c, CheckoutPostings(id, total, amountPaid, now)).Ok? {
      CheckoutPays(c, id, total, amountPaid, now);
    }
  }

  class CustomerAccount {
    var currentBalance: int
    const creditLimit: int
    var deleted: bool
    var ledger: seq<Entry>
    var orders: seq<OrderRecord>

    constructor (creditLimit: int)
      ensures View() == NewCustomer(creditLimit) && orders == []
    {
      this.currentBalance, this.creditLimit, this.deleted := 0, creditLimit, false;
      this.ledger, this.orders := [], [];
    }

    function View(): Customer
      reads this
    {
      Customer(currentBalance, creditLimit, deleted, ledger)
    }

    /** What the query for the customer's orders may return. */
    ghost predicate MayReturn(answer: seq<OrderRecord>)
      reads this
    {
      Answers(orders, answer)
    }

    /** The orders' statuses are those their settled amounts call for, going by an answer of the query. */
    ghost predicate StatusesDerived(answer: seq<OrderRecord>)
      reads this, answer
    {
      forall i :: 0 <= i < |answer| ==>
        answer[i].paymentStatus == StatusAt(ledger, Rows(answer), i)
    }

    /** A sale on account leaves all statuses derived if and only if its total is zero or the pool ends before it. */
    ghost predicate FitsOnAccountIff(others: seq<OrderRecord>, place: nat, order: OrderRecord)
      requires place <= |others|
      reads this, others, order
    {
      StatusesDerived(Insert(others, place, order))
      <==> order.totalAmount == 0 || PoolOf(ledger) <= DebtBefore(ledger, Rows(others), place)
    }

    method CreateLedgerEntry(p: Posting) returns (error: Option<Error>)
      requires !deleted
      modifies this`currentBalance, this`ledger
      ensures match Post(old(View()), p)
              case Ok(c) => error == None && View() == c
              case Err(e) => error == Some(e) && View() == old(View())
      ensures error != None <==> p.entryType == SaleDebt && 0 < creditLimit < old(currentBalance) + p.amount
    {
      var balanceBefore := currentBalance;
      var balanceAfter;
      if p.entryType == SaleDebt {
        balanceAfter := balanceBefore + p.amount;
        if creditLimit > 0 {
          if balanceAfter > creditLimit {
            return Some(CreditLimitExceeded);
          }
        }
      } else if p.entryType == Payment || p.entryType == RefundCredit {
        balanceAfter := balanceBefore - p.amount;
      } else {
        balanceAfter := balanceBefore + p.amount;
      }
      ledger := ledger + [Entry(p, balanceBefore, balanceAfter)];
      currentBalance := balanceAfter;
      return None;
    }

    method SetStatuses(answer: seq<OrderRecord>, settled: map<string, int>)
      requires DistinctIds(Rows(answer))
      modifies answer
      ensures forall i :: 0 <= i < |answer| ==>
        answer[i].paymentStatus == StatusFor(Lookup(settled, answer[i].id), answer[i].totalAmount)
    {
      ghost var rows := Rows(answer);
      for k := 0 to |answer|
        invariant forall i :: 0 <= i < k ==>
          answer[i].paymentStatus == StatusFor(Lookup(settled, answer[i].id), answer[i].totalAmount)
      {
        var order := answer[k];
        assert forall i :: 0 <= i < k ==> rows[i].id != rows[k].id;
        var settledAmount := Lookup(settled, order.id);
        if settledAmount >= order.totalAmount {
          order.paymentStatus := Paid;
        } else if settledAmount > 0 {
          order.paymentStatus := Partial;
        } else {
          order.paymentStatus := Pending;
        }
      }
    }

    method ReconcileOrderPayments(answer: seq<OrderRecord>)
      requires MayReturn(answer)
      modifies answer
      ensures StatusesDerived(answer)
    {
      ghost var rows := Rows(answer);
      var settled := ComputeOrderSettlement(ledger, Rows(answer));
      SetStatuses(answer, settled);
      forall i | 0 <= i < |answer| ensures Lookup(settled, answer[i].id) == Settled(ledger, rows, i) {
        assert rows[i].id == answer[i].id;
      }
    }

    /** The amount is zero for an order that is not this customer's. */
    method GetOrderSettledAmount(orderId: string, answer: seq<OrderRecord>) returns (amount: int)
      requires MayReturn(answer)
      ensures forall i :: 0 <= i < |answer| && answer[i].id == orderId ==> amount == Settled(ledger, Rows(answer), i)
      ensures (forall i :: 0 <= i < |answer| ==> answer[i].id != orderId) ==> amount == 0
    {
      var rows := Rows(answer);
      var settled := ComputeOrderSettlement(ledger, rows);
      amount := Lookup(settled, orderId);
      assert rows[..|rows|] == rows;
      IdsAreOrderIds(rows, orderId);
      forall i | 0 <= i < |answer| && answer[i].id == orderId ensures amount == Settled(ledger, rows, i) {
        assert rows[i].id == orderId;
      }
    }

    method RecordPayment(amount: int, refType: Option<string>, refId: Option<string>, now: int,
                         answer: seq<OrderRecord>)
        returns (error: Option<Error>)
      requires amount > 0 && MayReturn(answer)
      modifies this`currentBalance, this`ledger, answer
      ensures match Post(old(View()), Posting(Payment, amount, refType, refId, now))
              case Ok(c) => error == None && View() == c && StatusesDerived(answer)
              case Err(e) => error == Some(e) && View() == old(View()) && unchanged(answer)
    {
      if deleted {
        return Some(NotFound);
      }
      error := CreateLedgerEntry(Posting(Payment, amount, refType, refId, now));
      if error == None {
        ReconcileOrderPayments(answer);
      }
    }

    /** A row that is no payment touches no order's status, and need not: it still fits. */
    method RecordOther(p: Posting, ghost answer: seq<OrderRecord>) returns (error: Option<Error>)
      requires !p.entryType.Payment?
      modifies this`currentBalance, this`ledger
      ensures match Post(old(View()), p)
              case Ok(c) => error == None && View() == c
              case Err(e) => error == Some(e) && View() == old(View())
      ensures old(StatusesDerived(answer)) ==> StatusesDerived(answer)
    {
      if deleted {
        return Some(NotFound);
      }
      error := CreateLedgerEntry(p);
      forall i | error == None && 0 <= i < |answer|
        ensures Settled(ledger, Rows(answer), i) == Settled(old(ledger), Rows(answer), i)
      {
        OtherRowsChangeNothing(old(ledger), ledger[|ledger| - 1], Rows(answer), i);
      }
    }

    /** Checkout stores the order with the status of the money taken. */
    method StoreOrder(id: string, total: int, amountPaid: int, now: int) returns (order: OrderRecord)
      modifies this`orders
      ensures fresh(order) && order.Row() == OrderRow(id, total, now)
      ensures order.paymentStatus == StatusFor(amountPaid, total) && orders == old(orders) + [order]
    {
      var status := Pending;
      if amountPaid >= total {
        status := Paid;
      } else if amountPaid > 0 {
        status := Partial;
      }
      order := new OrderRecord(id, total, now, status);
      orders := orders + [order];
    }

    /** It then posts the order's debt, and the money taken, which derives all statuses anew. */
    method PostCheckout(id: string, total: int, amountPaid: int, now: int, answer: seq<OrderRecord>,
                        ghost others: seq<OrderRecord>)
        returns (error: Option<Error>)
      requires amountPaid >= 0 && MayReturn(answer)
      modifies this`currentBalance, this`ledger, answer
      ensures match PostAll(old(View()), CheckoutPostings(id, total, amountPaid, now))
              case Ok(c) => error == None && View() == c
              case Err(e) => error == Some(e) && View() == old(View())
      ensures error != None <==> old(Refusable(View(), total))
      ensures error == None ==> Sold(old(View()), View(), id, total, amountPaid, now)
      ensures if error == None && amountPaid > 0 then StatusesDerived(answer) else unchanged(answer)
      ensures amountPaid == 0 && old(StatusesDerived(others)) ==> StatusesDerived(others)
    {
      CheckoutPosts(View(), id, total, amountPaid, now);
      SaleEffect(View(), id, total, amountPaid, now);
      error := RecordOther(Posting(SaleDebt, total, Some("ORDER"), Some(id), now), others);
      if error == None && amountPaid > 0 {
        error := RecordPayment(amountPaid, Some("ORDER"), Some(id), now, answer);
      }
    }

    /** Checkout for a customer. Nothing is posted if the total is zero, and a refused sale is rolled back. The query
        answers with the other orders and the new one at the given place. */
    method PlaceOrder(id: string, total: int, amountPaid: int, now: int, others: seq<OrderRecord>, place: nat)
        returns (order: OrderRecord, error: Option<Error>)
      requires total >= 0 && amountPaid >= 0 && MayReturn(others) && FitsAt(others, place, id, now)
      modifies this`currentBalance, this`ledger, this`orders, others
      ensures fresh(order) && order.Row() == OrderRow(id, total, now)
      ensures total == 0 ==> error == None && View() == old(View())
      ensures total > 0 ==>
                match PostAll(old(View()), CheckoutPostings(id, total, amountPaid, now))
                case Ok(c) => error == None && View() == c
                case Err(e) => error == Some(e) && View() == old(View())
      ensures error != None <==> total > 0 && old(Refusable(View(), total))
      ensures error == None && total > 0 ==> Sold(old(View()), View(), id, total, amountPaid, now)
      ensures if error == None then orders == old(orders) + [order] else orders == old(orders)
      ensures error == None ==> MayReturn(Insert(others, place, order))
      ensures if error == None && total > 0 && amountPaid > 0 then StatusesDerived(Insert(others, place, order))
              else unchanged(others) && order.paymentStatus == StatusFor(amountPaid, total)
      ensures error == None && amountPaid == 0 && old(StatusesDerived(others)) && Checkout(ledger, id) == 0 ==>
                FitsOnAccountIff(others, place, order)
    {
      var stored := orders;
      order := StoreOrder(id, total, amountPaid, now);
      error := None;
      var answer := Insert(others, place, order);
      InsertedAnswers(stored, others, place, order);
      InsertMembers(others, place, order);
      if total > 0 {
        error := PostCheckout(id, total, amountPaid, now, answer, others);
      }
      if error != None {
        orders := stored;
      } else if amountPaid == 0 && StatusesDerived(others) && Checkout(ledger, id) == 0 {
        InsertedFitsIff(this, others, place, order);
      }
    }

    method SoftDelete() returns (error: Option<Error>)
      modifies this`deleted
      ensures match Delete(old(View()))
              case Ok(c) => error == None && View() == c
              case Err(e) => error == Some(e) && View() == old(View())
      ensures error == None <==> !old(deleted) && old(currentBalance) == 0
    {
      if deleted {
        return Some(NotFound);
      }
      if currentBalance != 0 {
        return Some(OutstandingBalance);
      }
      deleted := true;
      return None;
    }
  }

  // ---- A sale on account ----

  /** Each order's status is the stored one. */
  lemma StoredInAnswer(account: CustomerAccount, others: seq<OrderRecord>, place: nat, order: OrderRecord, j: nat)
    requires place <= |others| && j <= |others| && account.StatusesDerived(others)
    requires order.paymentStatus == StatusFor(0, order.totalAmount)
    ensures Insert(others, place, order)[j].paymentStatus
            == StoredStatus(account.ledger, Rows(others), order.Row(), place, j)
  {
  }

  /** Placed with no money taken, an order leaves all statuses derived if and only if its total is zero or the pool
      ends before it. */
  lemma InsertedFitsIff(account: CustomerAccount, others: seq<OrderRecord>, place: nat, order: OrderRecord)
    requires place <= |others| && account.StatusesDerived(others) && order.totalAmount >= 0
    requires order.paymentStatus == StatusFor(0, order.totalAmount) && Checkout(account.ledger, order.id) == 0
    ensures account.FitsOnAccountIff(others, place, order)
  {
    var answer, rows := Insert(others, place, order), Rows(others);
    RowsInserted(others, place, order);
    UnsettledSaleFitsIff(account.ledger, rows, order.Row(), place);
    forall j | 0 <= j <= |others|
      ensures answer[j].paymentStatus == StoredStatus(account.ledger, rows, order.Row(), place, j)
    {
      StoredInAnswer(account, others, place, order, j);
    }
  }

  // ---- Two answers of one query ----

  lemma RowsWithout(records: seq<OrderRecord>, k: nat)
    requires k < |records|
    ensures multiset(Rows(records)) == multiset(Rows(Without(records, k))) + multiset{records[k].Row()}
  {
    assert Rows(Without(records, k)) == Without(Rows(records), k);
    RemoveFromBag(Rows(records), k);
    assert Rows(records)[k] in multiset(Rows(records));
  }

  lemma {:induction false} RowsPermute(a: seq<OrderRecord>, b: seq<OrderRecord>)
    requires multiset(a) == multiset(b)
    ensures multiset(Rows(a)) == multiset(Rows(b))
    decreases |a|
  {
    if a == [] {
      assert |multiset(b)| == 0;
    } else {
      assert a[0] in multiset(b);
      var k :| 0 <= k < |b| && b[k] == a[0];
      RemoveFromBag(a, 0);
      RemoveFromBag(b, k);
      RowsPermute(Without(a, 0), Without(b, k));
      RowsWithout(a, 0);
      RowsWithout(b, k);
    }
  }

  lemma RowsMoved(records: seq<OrderRecord>, i: nat, k: nat)
    requires i < |records| && k < |records|
    ensures Rows(Moved(records, i, k)) == Moved(Rows(records), i, k)
  {
    assert Rows(Without(records, i)) == Without(Rows(records), i);
    RowsInserted(Without(records, i), k, records[i]);
  }

  lemma MovedMayReturn(account: CustomerAccount, a: seq<OrderRecord>, i: nat, k: nat)
    requires account.MayReturn(a) && i < |a| && k < |a| && Sorted(Moved(Rows(a), i, k))
    ensures account.MayReturn(Moved(a, i, k))
  {
    MovedKeepsBag(a, i, k);
    RowsMoved(a, i, k);
    InsertKeepsIdsDistinct(Without(Rows(a), i), k, Rows(a)[i]);
  }

  /** Statuses derived from one answer of the query fit the amounts computed from any other, if each order has one
      status wherever it stands among those of its date. */
  lemma AnswersAgree(account: CustomerAccount, a: seq<OrderRecord>, b: seq<OrderRecord>)
    requires account.MayReturn(a) && account.MayReturn(b) && account.StatusesDerived(a)
    requires StatusesAreFixed(account.ledger, Rows(a))
    ensures account.StatusesDerived(b)
  {
    RowsPermute(a, b);
    FixedStatusesAreAlike(account.ledger, Rows(a), Rows(b));
    forall j | 0 <= j < |b| ensures b[j].paymentStatus == StatusAt(account.ledger, Rows(b), j) {
      assert b[j] in multiset(b) && b[j] in a;
      var i :| 0 <= i < |a| && a[i] == b[j];
      assert Rows(a)[i] == Rows(b)[j];
    }
  }

  /** If not, some answer disagrees. */
  lemma AnswersDisagree(account: CustomerAccount, a: seq<OrderRecord>, i: nat) returns (b: seq<OrderRecord>)
    requires account.MayReturn(a) && account.StatusesDerived(a) && i < |a|
    requires StatusIfFirst(account.ledger, Rows(a), Rows(a)[i]) != StatusIfLast(account.ledger, Rows(a), Rows(a)[i])
    ensures account.MayReturn(b) && !account.StatusesDerived(b)
  {
    var k := ComesFirst(account.ledger, Rows(a), i);
    if StatusIfFirst(account.ledger, Rows(a), Rows(a)[i]) == a[i].paymentStatus {
      k := ComesLast(account.ledger, Rows(a), i);
    }
    b := Moved(a, i, k);
    RowsMoved(a, i, k);
    MovedMayReturn(account, a, i, k);
    MovedKeepsBag(a, i, k);
  }

  /** Statuses derived from one answer fit all answers if and only if each order has one status first of its date and
      last. */
  lemma AnswersAgreeIff(account: CustomerAccount, a: seq<OrderRecord>)
    requires account.MayReturn(a) && account.StatusesDerived(a)
    ensures (forall b :: account.MayReturn(b) ==> account.StatusesDerived(b))
            <==> StatusesAreFixed(account.ledger, Rows(a))
  {
    if StatusesAreFixed(account.ledger, Rows(a)) {
      forall b | account.MayReturn(b) ensures account.StatusesDerived(b) {
        AnswersAgree(account, a, b);
      }
    } else {
      var o :| o in Rows(a)
               && StatusIfFirst(account.ledger, Rows(a), o) != StatusIfLast(account.ledger, Rows(a), o);
      var i: nat :| i < |a| && Rows(a)[i] == o;
      var b := AnswersDisagree(account, a, i);
    }
  }
}
