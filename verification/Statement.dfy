/** Customer statements: an opening balance, the rows of a period, and their totals. */
module Statement {
  import opened Common
  import opened CustomerLedger

  function Debited(): Entry -> int {
    (e: Entry) =>
      match e.posting.entryType
      case SaleDebt => e.posting.amount
      case Adjustment => if e.posting.amount > 0 then e.posting.amount else 0
      case _ => 0
  }

  function Credited(): Entry -> int {
    (e: Entry) =>
      match e.posting.entryType
      case Payment => e.posting.amount
      case RefundCredit => e.posting.amount
      case Adjustment => if e.posting.amount > 0 then 0 else -e.posting.amount
      case SaleDebt => 0
  }

  /** The totals of the rows: what moved the balance up, and what moved it down. */
  method SumLedgerEntries(entries: seq<Entry>) returns (debited: int, credited: int)
    ensures debited == SumBy(entries, Debited()) && credited == SumBy(entries, Credited())
    ensures debited - credited == SumBy(entries, EntryDelta())
  {
    debited, credited := 0, 0;
    for k := 0 to |entries|
      invariant debited == SumBy(entries[..k], Debited()) && credited == SumBy(entries[..k], Credited())
    {
      var p := entries[k].posting;
      SumByStep(entries, k, Debited());
      SumByStep(entries, k, Credited());
      if p.entryType == SaleDebt {
        debited := debited + p.amount;
      } else if p.entryType == Payment || p.entryType == RefundCredit {
        credited := credited + p.amount;
      } else if p.entryType == Adjustment {
        if p.amount > 0 {
          debited := debited + p.amount;
        } else {
          credited := credited + (if p.amount < 0 then -p.amount else p.amount);
        }
      }
    }
    assert entries[..|entries|] == entries;
    SumByDifference(entries, Debited(), Credited(), EntryDelta());
  }

  function Raised(): Entry -> int { (e: Entry) => Max(Delta(e.posting), 0) }

  function Lowered(): Entry -> int { (e: Entry) => Max(-Delta(e.posting), 0) }

  /** Where sales, payments and credits are not negative, the totals are what moved the balance up and what moved it
      down, row by row. */
  lemma TotalsAreMoves(entries: seq<Entry>)
    requires forall e <- entries :: !e.posting.entryType.Adjustment? ==> e.posting.amount >= 0
    ensures SumBy(entries, Debited()) == SumBy(entries, Raised())
    ensures SumBy(entries, Credited()) == SumBy(entries, Lowered())
  {
    SumByEqual(entries, Debited(), Raised());
    SumByEqual(entries, Credited(), Lowered());
  }

  // ---- The queries. Rows are given in the order they were appended ----

  predicate InPeriod(from: Option<int>, to: Option<int>, e: Entry) {
    && (from.Some? ==> from.value <= e.posting.createdAt)
    && (to.Some? ==> e.posting.createdAt <= to.value)
  }

  function Period(ledger: seq<Entry>, from: Option<int>, to: Option<int>): seq<Entry> {
    if ledger == [] then []
    else
      var e := ledger[|ledger| - 1];
      Period(ledger[..|ledger| - 1], from, to) + (if InPeriod(from, to, e) then [e] else [])
  }

  /** Row i is one the opening-balance query may pick: of those before the given time, none is later. */
  ghost predicate LatestBefore(ledger: seq<Entry>, from: int, i: nat) {
    && i < |ledger| && ledger[i].posting.createdAt < from
    && forall k :: 0 <= k < |ledger| && ledger[k].posting.createdAt < from ==>
         ledger[k].posting.createdAt <= ledger[i].posting.createdAt
  }

  /** The opening balances the query may return. It fixes no order among rows with equal times. */
  ghost predicate MayOpenWith(ledger: seq<Entry>, from: Option<int>, opening: int) {
    match from
    case None => opening == 0
    case Some(t) =>
      || (opening == 0 && forall k :: 0 <= k < |ledger| ==> ledger[k].posting.createdAt >= t)
      || (exists i: nat :: LatestBefore(ledger, t, i) && ledger[i].after == opening)
  }

  function DeltaUpTo(to: Option<int>): Entry -> int {
    (e: Entry) => if InPeriod(None, to, e) then Delta(e.posting) else 0
  }

  function DeltaBefore(from: int): Entry -> int {
    (e: Entry) => if e.posting.createdAt < from then Delta(e.posting) else 0
  }

  function DeltaFrom(from: int): Entry -> int {
    (e: Entry) => if e.posting.createdAt < from then 0 else Delta(e.posting)
  }

  function DeltaAfter(to: Option<int>): Entry -> int {
    (e: Entry) => if InPeriod(None, to, e) then 0 else Delta(e.posting)
  }

  /** The balance at the end of the period: what all the rows up to then add up to. */
  function ClosingBalance(ledger: seq<Entry>, to: Option<int>): int {
    SumBy(ledger, DeltaUpTo(to))
  }

  ghost predicate Reconciles(ledger: seq<Entry>, from: Option<int>, to: Option<int>, opening: int) {
    opening + SumBy(Period(ledger, from, to), Debited()) - SumBy(Period(ledger, from, to), Credited())
    == ClosingBalance(ledger, to)
  }

  // ---- What a statement needs ----

  predicate Ordered(from: Option<int>, to: Option<int>) {
    from.Some? && to.Some? ==> from.value <= to.value
  }

  function Opening(ledger: seq<Entry>, from: Option<int>): int {
    if from.Some? then SumBy(ledger, DeltaBefore(from.value)) else 0
  }

  lemma {:induction false} PeriodSplits(ledger: seq<Entry>, from: Option<int>, to: Option<int>)
    requires Ordered(from, to)
    ensures Opening(ledger, from) + SumBy(Period(ledger, from, to), EntryDelta()) == ClosingBalance(ledger, to)
  {
    if ledger != [] {
      var n := |ledger| - 1;
      PeriodSplits(ledger[..n], from, to);
      if InPeriod(from, to, ledger[n]) {
        SumBySnoc(Period(ledger[..n], from, to), ledger[n], EntryDelta());
      } else {
        assert Period(ledger, from, to) == Period(ledger[..n], from, to);
      }
    }
  }

  /** A statement reconciles exactly when it opens with the sum of the rows before its period. */
  lemma ReconcilesIffOpening(ledger: seq<Entry>, from: Option<int>, to: Option<int>, opening: int)
    requires Ordered(from, to)
    ensures Reconciles(ledger, from, to, opening) <==> opening == Opening(ledger, from)
  {
    var entries := Period(ledger, from, to);
    PeriodSplits(ledger, from, to);
    SumByDifference(entries, Debited(), Credited(), EntryDelta());
  }

  /** Of the rows that sit on the wrong side of place n, given a date: those up to n that are dated at or after it add
      up to those after n that are dated before it. */
  ghost predicate MisdatedNet(ledger: seq<Entry>, from: int, n: nat)
    requires n <= |ledger|
  {
    SumBy(ledger[..n], DeltaFrom(from)) == SumBy(ledger[n..], DeltaBefore(from))
  }

  lemma CarriedIsSum(c: Customer, n: nat)
    requires Chained(c) && n <= |c.ledger|
    ensures Carried(c.ledger, n) == SumBy(c.ledger[..n], EntryDelta())
  {
    if n > 0 {
      AfterIsSum(c, n - 1);
    }
  }

  /** The sum of all rows up to n is the sum of the rows f picks exactly when the rows up to n that f passes over add
      up to the rows after n that it picks. */
  lemma PickedElsewhere(ledger: seq<Entry>, n: nat, f: Entry -> int, rest: Entry -> int)
    requires n <= |ledger|
    requires forall e: Entry :: EntryDelta()(e) - f(e) == rest(e)
    ensures SumBy(ledger[..n], EntryDelta()) == SumBy(ledger, f)
            <==> SumBy(ledger[..n], rest) == SumBy(ledger[n..], f)
  {
    assert ledger == ledger[..n] + ledger[n..];
    SumByConcat(ledger[..n], ledger[n..], f);
    SumByDifference(ledger[..n], EntryDelta(), f, rest);
  }

  lemma CarriedIsOpeningIff(c: Customer, from: int, n: nat)
    requires Chained(c) && n <= |c.ledger|
    ensures Carried(c.ledger, n) == Opening(c.ledger, Some(from)) <==> MisdatedNet(c.ledger, from, n)
  {
    CarriedIsSum(c, n);
    PickedElsewhere(c.ledger, n, DeltaBefore(from), DeltaFrom(from));
  }

  /** The opening balance taken from row i is the sum of the rows before the period. */
  ghost predicate OpensRight(ledger: seq<Entry>, from: int, i: nat)
    requires i < |ledger|
  {
    Carried(ledger, i + 1) == Opening(ledger, Some(from))
  }

  lemma OpensRightIff(c: Customer, from: int, i: nat)
    requires Chained(c) && i < |c.ledger|
    ensures OpensRight(c.ledger, from, i) <==> MisdatedNet(c.ledger, from, i + 1)
  {
    CarriedIsOpeningIff(c, from, i + 1);
  }

  lemma AllOpenRightIff(ledger: seq<Entry>, from: int)
    ensures (forall opening :: MayOpenWith(ledger, Some(from), opening) ==> opening == Opening(ledger, Some(from)))
            <==> forall i: nat :: LatestBefore(ledger, from, i) ==> OpensRight(ledger, from, i)
  {
    if forall k :: 0 <= k < |ledger| ==> ledger[k].posting.createdAt >= from {
      SumByZero(ledger, DeltaBefore(from));
    }
    forall i: nat | LatestBefore(ledger, from, i) ensures MayOpenWith(ledger, Some(from), ledger[i].after) {}
  }

  /** For every ledger: a statement reconciles, whichever row the database opens it with, if and only if for each
      such row the misdated rows net to zero. */
  lemma ReconcilesIffMisdatedNet(c: Customer, from: Option<int>, to: Option<int>)
    requires Chained(c) && Ordered(from, to)
    ensures (forall opening :: MayOpenWith(c.ledger, from, opening) ==> Reconciles(c.ledger, from, to, opening))
            <==> (from.Some? ==>
                    forall i: nat :: LatestBefore(c.ledger, from.value, i) ==> MisdatedNet(c.ledger, from.value, i + 1))
  {
    forall opening ensures Reconciles(c.ledger, from, to, opening) <==> opening == Opening(c.ledger, from) {
      ReconcilesIffOpening(c.ledger, from, to, opening);
    }
    if from.Some? {
      AllOpenRightIff(c.ledger, from.value);
      forall i: nat | LatestBefore(c.ledger, from.value, i)
        ensures OpensRight(c.ledger, from.value, i) <==> MisdatedNet(c.ledger, from.value, i + 1)
      {
        OpensRightIff(c, from.value, i);
      }
    }
  }

  /** What a statement closes with is the balance after n rows if and only if the rows up to n dated after the end
      add up to the rows after n dated up to it; an open-ended statement closes with the current balance. */
  lemma ClosesWithIff(c: Customer, to: Option<int>, n: nat)
    requires Chained(c) && n <= |c.ledger|
    ensures Carried(c.ledger, n) == ClosingBalance(c.ledger, to)
            <==> SumBy(c.ledger[..n], DeltaAfter(to)) == SumBy(c.ledger[n..], DeltaUpTo(to))
    ensures to.None? ==> ClosingBalance(c.ledger, to) == c.balance
  {
    CarriedIsSum(c, n);
    PickedElsewhere(c.ledger, n, DeltaUpTo(to), DeltaAfter(to));
    if to.None? {
      BalanceIsSum(c);
      SumByEqual(c.ledger, DeltaUpTo(to), EntryDelta());
    }
  }

  // ---- Dates in order ----

  /** Times never decrease in append order. */
  ghost predicate TimesInOrder(ledger: seq<Entry>) {
    forall i, k :: 0 <= i < k < |ledger| ==> ledger[i].posting.createdAt <= ledger[k].posting.createdAt
  }

  /** With times in order, the rows before a time are a prefix. */
  lemma {:induction false} BeforeIsPrefix(ledger: seq<Entry>, from: int) returns (n: nat)
    requires TimesInOrder(ledger)
    ensures n <= |ledger|
    ensures forall k :: 0 <= k < |ledger| ==> (ledger[k].posting.createdAt < from <==> k < n)
  {
    n := |ledger|;
    while n > 0 && ledger[n - 1].posting.createdAt >= from
      invariant n <= |ledger|
      invariant forall k :: n <= k < |ledger| ==> ledger[k].posting.createdAt >= from
    {
      n := n - 1;
    }
  }

  /** The last row appended before the period carries the right opening balance. */
  lemma LastRowOpens(c: Customer, from: int) returns (n: nat)
    requires Chained(c) && TimesInOrder(c.ledger)
    ensures n <= |c.ledger| && Carried(c.ledger, n) == Opening(c.ledger, Some(from))
    ensures n > 0 ==> LatestBefore(c.ledger, from, n - 1)
    ensures n == 0 ==> forall k :: 0 <= k < |c.ledger| ==> c.ledger[k].posting.createdAt >= from
  {
    n := BeforeIsPrefix(c.ledger, from);
    SumByZero(c.ledger[..n], DeltaFrom(from));
    SumByZero(c.ledger[n..], DeltaBefore(from));
    CarriedIsOpeningIff(c, from, n);
  }

  /** The rows an opening balance may be taken from all carry the same balance. */
  ghost predicate OpeningIsUnambiguous(ledger: seq<Entry>, from: Option<int>) {
    from.Some? ==>
      forall i: nat, k: nat :: LatestBefore(ledger, from.value, i) && LatestBefore(ledger, from.value, k) ==>
        ledger[i].after == ledger[k].after
  }

  /** One of the rows that may be picked carries the right balance, so all do if they carry the same. */
  lemma AllRightIffUnambiguous(c: Customer, from: int)
    requires Chained(c) && TimesInOrder(c.ledger)
    ensures (forall i: nat :: LatestBefore(c.ledger, from, i) ==> OpensRight(c.ledger, from, i))
            <==> OpeningIsUnambiguous(c.ledger, Some(from))
  {
    var n := LastRowOpens(c, from);
    if n > 0 {
      assert OpensRight(c.ledger, from, n - 1);
    } else {
      forall i: nat ensures !LatestBefore(c.ledger, from, i) {}
    }
  }

  lemma NetIffUnambiguous(c: Customer, from: int)
    requires Chained(c) && TimesInOrder(c.ledger)
    ensures (forall i: nat :: LatestBefore(c.ledger, from, i) ==> MisdatedNet(c.ledger, from, i + 1))
            <==> OpeningIsUnambiguous(c.ledger, Some(from))
  {
    forall i: nat | LatestBefore(c.ledger, from, i)
      ensures MisdatedNet(c.ledger, from, i + 1) <==> OpensRight(c.ledger, from, i)
    {
      OpensRightIff(c, from, i);
    }
    AllRightIffUnambiguous(c, from);
  }

  /** With times in order that means that no two rows tied for the last time before the period carry different
      balances. */
  lemma ReconcilesIffUnambiguous(c: Customer, from: Option<int>, to: Option<int>)
    requires Chained(c) && TimesInOrder(c.ledger) && Ordered(from, to)
    ensures (forall opening :: MayOpenWith(c.ledger, from, opening) ==> Reconciles(c.ledger, from, to, opening))
            <==> OpeningIsUnambiguous(c.ledger, from)
  {
    ReconcilesIffMisdatedNet(c, from, to);
    if from.Some? {
      NetIffUnambiguous(c, from.value);
    }
  }

  /** With times in order a statement closes with the balance after the last row of the period or before it. */
  lemma ClosesWithBalance(c: Customer, to: Option<int>) returns (n: nat)
    requires Chained(c) && TimesInOrder(c.ledger)
    ensures n <= |c.ledger| && ClosingBalance(c.ledger, to) == Carried(c.ledger, n)
    ensures forall k :: 0 <= k < |c.ledger| ==> (k < n <==> to.None? || c.ledger[k].posting.createdAt <= to.value)
  {
    if to.Some? {
      n := BeforeIsPrefix(c.ledger, to.value + 1);
    } else {
      n := |c.ledger|;
    }
    SumByZero(c.ledger[..n], DeltaAfter(to));
    SumByZero(c.ledger[n..], DeltaUpTo(to));
    ClosesWithIff(c, to, n);
  }

  ghost predicate StrictlyIncreasing(ledger: seq<Entry>) {
    forall i, k :: 0 <= i < k < |ledger| ==> ledger[i].posting.createdAt < ledger[k].posting.createdAt
  }

  lemma StrictIsInOrder(ledger: seq<Entry>)
    requires StrictlyIncreasing(ledger)
    ensures TimesInOrder(ledger)
  {
  }

  lemma OneLatest(ledger: seq<Entry>, from: int, i: nat, k: nat)
    requires StrictlyIncreasing(ledger) && LatestBefore(ledger, from, i) && LatestBefore(ledger, from, k)
    ensures i == k
  {
    assert ledger[i].posting.createdAt == ledger[k].posting.createdAt;
  }

  /** Strictly increasing times are enough. */
  lemma StrictTimesReconcile(c: Customer, from: Option<int>, to: Option<int>, opening: int)
    requires Chained(c) && Ordered(from, to) && MayOpenWith(c.ledger, from, opening)
    requires StrictlyIncreasing(c.ledger)
    ensures Reconciles(c.ledger, from, to, opening)
  {
    StrictIsInOrder(c.ledger);
    if from.Some? {
      forall i: nat, k: nat | LatestBefore(c.ledger, from.value, i) && LatestBefore(c.ledger, from.value, k)
        ensures c.ledger[i].after == c.ledger[k].after
      {
        OneLatest(c.ledger, from.value, i, k);
      }
    }
    ReconcilesIffUnambiguous(c, from, to);
  }

  /** A new customer after two postings. */
  function TwoRows(p: Posting, q: Posting): Customer {
    var d := Delta(p);
    Customer(d + Delta(q), 0, false, [Entry(p, 0, d), Entry(q, d, d + Delta(q))])
  }

  lemma TwoPostings(p: Posting, q: Posting, from: int)
    ensures PostAll(NewCustomer(0), [p, q]) == Ok(TwoRows(p, q))
    ensures Opening(TwoRows(p, q).ledger, Some(from))
            == (if p.createdAt < from then Delta(p) else 0) + (if q.createdAt < from then Delta(q) else 0)
  {
    var e, f := TwoRows(p, q).ledger[0], TwoRows(p, q).ledger[1];
    assert [p, q][..1] == [p] && [p][..0] == [];
    assert PostAll(NewCustomer(0), [p]) == Ok(Customer(Delta(p), 0, false, [e])) by {
      assert [] + [e] == [e];
    }
    assert [e] + [f] == TwoRows(p, q).ledger;
    SumBySnoc([e], f, DeltaBefore(from));
    SumBySnoc([], e, DeltaBefore(from));
    assert [] + [e] == [e];
  }

  /** A credit sale paid in part within one transaction writes two rows with one time. A later statement may open
      with the balance between them. */
  lemma PartPaidSaleMayNotReconcile(total: int, paid: int, t: int, from: int) returns (sale: Posting, payment: Posting)
    requires paid > 0 && t < from
    ensures sale == Posting(SaleDebt, total, None, None, t) && payment == Posting(Payment, paid, None, None, t)
    ensures PostAll(NewCustomer(0), [sale, payment]) == Ok(TwoRows(sale, payment))
    ensures MayOpenWith(TwoRows(sale, payment).ledger, Some(from), total)
    ensures !Reconciles(TwoRows(sale, payment).ledger, Some(from), None, total)
  {
    sale, payment := Posting(SaleDebt, total, None, None, t), Posting(Payment, paid, None, None, t);
    var ledger := TwoRows(sale, payment).ledger;
    TwoPostings(sale, payment, from);
    assert LatestBefore(ledger, from, 0) && ledger[0].after == total;
    ReconcilesIffOpening(ledger, Some(from), None, total);
  }

  /** A transaction that began earlier but waited for the lock appends a row with an earlier time. A later
      statement then opens without it, though no times are tied. */
  lemma LateCommitDoesNotReconcile(p: Posting, q: Posting, from: int, opening: int)
    requires q.createdAt < p.createdAt < from && Delta(q) != 0
    requires MayOpenWith(TwoRows(p, q).ledger, Some(from), opening)
    ensures PostAll(NewCustomer(0), [p, q]) == Ok(TwoRows(p, q))
    ensures !Reconciles(TwoRows(p, q).ledger, Some(from), None, opening)
  {
    var ledger := TwoRows(p, q).ledger;
    TwoPostings(p, q, from);
    ReconcilesIffOpening(ledger, Some(from), None, opening);
    assert ledger[0].posting == p && ledger[1].posting == q;
  }
}
