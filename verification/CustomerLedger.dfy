/** The customer ledger: immutable rows, the posting rule and what every serial run keeps.
    Amounts are integers in 1/10000 of the currency unit, as in Numeric(15, 4). */
module CustomerLedger {
  import opened Common

  datatype EntryType = SaleDebt | Payment | RefundCredit | Adjustment

  /** What a caller asks `_create_ledger_entry` to record. */
  datatype Posting = Posting(entryType: EntryType, amount: int, refType: Option<string>, refId: Option<string>,
                             createdAt: int)

  /** An immutable ledger row. */
  datatype Entry = Entry(posting: Posting, before: int, after: int)

  /** A customer row together with its ledger rows, in the order they were appended. */
  datatype Customer = Customer(balance: int, creditLimit: int, deleted: bool, ledger: seq<Entry>)

  datatype Error = NotFound | CreditLimitExceeded | OutstandingBalance

  datatype Result = Ok(customer: Customer) | Err(error: Error)

  /** The signed effect of a posting on the balance. */
  function Delta(p: Posting): int {
    match p.entryType
    case SaleDebt => p.amount
    case Payment => -p.amount
    case RefundCredit => -p.amount
    case Adjustment => p.amount
  }

  function EntryDelta(): Entry -> int { (e: Entry) => Delta(e.posting) }

  predicate OverLimit(limit: int, p: Posting, after: int) {
    p.entryType.SaleDebt? && limit > 0 && after > limit
  }

  /** The posting rule on an active customer row. */
  function Post(c: Customer, p: Posting): Result {
    var after := c.balance + Delta(p);
    if c.deleted then Err(NotFound)
    else if OverLimit(c.creditLimit, p, after) then Err(CreditLimitExceeded)
    else Ok(c.(balance := after, ledger := c.ledger + [Entry(p, c.balance, after)]))
  }

  /** Several postings by one transaction: all of them, or the first error. */
  function PostAll(c: Customer, ps: seq<Posting>): Result {
    if ps == [] then (if c.deleted then Err(NotFound) else Ok(c))
    else
      match PostAll(c, ps[..|ps| - 1])
      case Err(e) => Err(e)
      case Ok(c') => Post(c', ps[|ps| - 1])
  }

  function Delete(c: Customer): Result {
    if c.deleted then Err(NotFound)
    else if c.balance != 0 then Err(OutstandingBalance)
    else Ok(c.(deleted := true))
  }

  /** An active customer is refused a posting only for a sale that takes the balance over a positive limit; a sale that
      just reaches it is posted. */
  lemma RefusedIff(c: Customer, p: Posting)
    requires !c.deleted
    ensures Post(c, p).Err? <==> p.entryType == SaleDebt && 0 < c.creditLimit < c.balance + p.amount
    ensures Post(c, p).Err? ==> Post(c, p).error == CreditLimitExceeded
  {
  }

  function PostedAmount(): Posting -> int { (p: Posting) => p.amount }

  /** A series of sales goes through if and only if the limit has room for all of them together. */
  lemma {:induction false} SalesFitIff(c: Customer, ps: seq<Posting>)
    requires !c.deleted && c.creditLimit > 0 && ps != []
    requires forall p <- ps :: p.entryType == SaleDebt && p.amount >= 0
    ensures PostAll(c, ps).Ok? <==> c.balance + SumBy(ps, PostedAmount()) <= c.creditLimit
    ensures PostAll(c, ps).Ok? ==> PostAll(c, ps).customer.balance == c.balance + SumBy(ps, PostedAmount())
    ensures PostAll(c, ps).Ok? ==>
              !PostAll(c, ps).customer.deleted && PostAll(c, ps).customer.creditLimit == c.creditLimit
    ensures PostAll(c, ps).Err? ==> PostAll(c, ps).error == CreditLimitExceeded
  {
    var n := |ps| - 1;
    assert ps[n] in ps;
    if n > 0 {
      SalesFitIff(c, ps[..n]);
    } else {
      assert ps[..n] == [];
    }
  }

  /** The balance that the first i rows leave behind. */
  function Carried(ledger: seq<Entry>, i: nat): int
    requires i <= |ledger|
  {
    if i == 0 then 0 else ledger[i - 1].after
  }

  /** Every row continues where the row before it stopped, and the stored balance is where the last one stopped. */
  ghost predicate Chained(c: Customer) {
    && (forall i {:trigger c.ledger[i].before} :: 0 <= i < |c.ledger| ==>
          && c.ledger[i].before == Carried(c.ledger, i)
          && c.ledger[i].after == c.ledger[i].before + Delta(c.ledger[i].posting))
    && c.balance == Carried(c.ledger, |c.ledger|)
  }

  /** In a chained ledger the balance after row i is the sum of the signed amounts up to i. */
  lemma {:induction false} AfterIsSum(c: Customer, i: nat)
    requires Chained(c) && i < |c.ledger|
    ensures c.ledger[i].after == SumBy(c.ledger[..i + 1], EntryDelta())
  {
    SumByStep(c.ledger, i, EntryDelta());
    assert c.ledger[i].before == Carried(c.ledger, i);
    if i > 0 {
      AfterIsSum(c, i - 1);
    } else {
      assert SumBy(c.ledger[..0], EntryDelta()) == 0;
    }
  }

  /** The stored balance agrees with the log. */
  lemma BalanceIsSum(c: Customer)
    requires Chained(c)
    ensures c.balance == SumBy(c.ledger, EntryDelta())
  {
    if c.ledger != [] {
      AfterIsSum(c, |c.ledger| - 1);
      assert c.ledger[..|c.ledger|] == c.ledger;
    }
  }

  lemma PostKeepsChain(c: Customer, p: Posting)
    requires Chained(c) && Post(c, p).Ok?
    ensures Chained(Post(c, p).customer)
  {
    var d := Post(c, p).customer;
    forall i | 0 <= i < |d.ledger|
      ensures d.ledger[i].before == Carried(d.ledger, i)
      ensures d.ledger[i].after == d.ledger[i].before + Delta(d.ledger[i].posting)
    {
      if i < |c.ledger| {
        assert d.ledger[i].before == c.ledger[i].before;
      }
    }
  }

  /** Payments and refund credits are posted with positive amounts. */
  predicate PositiveCredit(p: Posting) {
    p.entryType.Payment? || p.entryType.RefundCredit? ==> p.amount > 0
  }

  /** What callers post day to day: besides, no debt is raised by hand. */
  predicate Routine(p: Posting) {
    && PositiveCredit(p)
    && (p.entryType.Adjustment? ==> p.amount <= 0)
  }

  lemma {:induction false} PostAllIsSafe(c: Customer, ps: seq<Posting>)
    requires PostAll(c, ps).Ok?
    ensures var d := PostAll(c, ps).customer;
            && !c.deleted && !d.deleted && d.creditLimit == c.creditLimit && c.ledger <= d.ledger
            && (Chained(c) ==> Chained(d))
            && (c.balance <= c.creditLimit && c.creditLimit > 0 && (forall p <- ps :: Routine(p)) ==>
                  d.balance <= d.creditLimit)
  {
    if ps != [] {
      PostAllIsSafe(c, ps[..|ps| - 1]);
      assert forall p <- ps[..|ps| - 1] :: p in ps;
      var c' := PostAll(c, ps[..|ps| - 1]).customer;
      if Chained(c) {
        PostKeepsChain(c', ps[|ps| - 1]);
      }
      if forall p <- ps :: Routine(p) {
        assert Routine(ps[|ps| - 1]);
      }
    }
  }

  // ---- Runs ----

  /** What one request does to one customer. */
  datatype Command = Transact(postings: seq<Posting>) | SoftDelete

  function Execute(c: Customer, cmd: Command): Result {
    match cmd
    case Transact(ps) => PostAll(c, ps)
    case SoftDelete => Delete(c)
  }

  /** Requests served one at a time: a refused request leaves the customer as it was. */
  function Serial(c: Customer, cmds: seq<Command>): Customer {
    if cmds == [] then c
    else
      var c' := Serial(c, cmds[..|cmds| - 1]);
      match Execute(c', cmds[|cmds| - 1])
      case Ok(c'') => c''
      case Err(_) => c'
  }

  /** What a commit writes. A deletion writes its mark whatever the balance has become since it was checked. */
  function Install(c: Customer, cmd: Command): Customer {
    match cmd
    case Transact(ps) => (match PostAll(c, ps) case Ok(c') => c' case Err(_) => c)
    case SoftDelete => c.(deleted := true)
  }

  function Installed(c: Customer, cmds: seq<Command>): Customer {
    if cmds == [] then c else Install(Installed(c, cmds[..|cmds| - 1]), cmds[|cmds| - 1])
  }

  function NewCustomer(creditLimit: int): Customer {
    Customer(0, creditLimit, false, [])
  }

  predicate RoutineCommand(cmd: Command) {
    cmd.Transact? ==> forall p <- cmd.postings :: Routine(p)
  }

  lemma InstallIsSafe(c: Customer, cmd: Command)
    ensures var d := Install(c, cmd);
            && d.creditLimit == c.creditLimit && c.ledger <= d.ledger
            && (c.deleted ==> d == c)
            && (Chained(c) ==> Chained(d))
            && (c.balance <= c.creditLimit && c.creditLimit > 0 && RoutineCommand(cmd) ==> d.balance <= d.creditLimit)
  {
    if cmd.Transact? {
      if PostAll(c, cmd.postings).Ok? {
        PostAllIsSafe(c, cmd.postings);
      }
    } else if Chained(c) {
      assert Install(c, cmd).ledger == c.ledger;
    }
  }

  /** Whatever commits, in whatever order: rows are only ever appended, they form a chain that ends in the
      stored balance, and a deleted customer never changes again. */
  lemma {:induction false} InstalledIsSafe(c: Customer, cmds: seq<Command>)
    requires Chained(c)
    ensures var d := Installed(c, cmds);
            Chained(d) && d.creditLimit == c.creditLimit && c.ledger <= d.ledger && (c.deleted ==> d == c)
  {
    if cmds != [] {
      InstalledIsSafe(c, cmds[..|cmds| - 1]);
      InstallIsSafe(Installed(c, cmds[..|cmds| - 1]), cmds[|cmds| - 1]);
    }
  }

  /** With a positive limit, and no debt raised by hand, the balance never exceeds the limit. */
  lemma {:induction false} CreditLimitHolds(c: Customer, cmds: seq<Command>)
    requires c.creditLimit > 0 && c.balance <= c.creditLimit
    requires forall cmd <- cmds :: RoutineCommand(cmd)
    ensures Installed(c, cmds).balance <= c.creditLimit && Installed(c, cmds).creditLimit == c.creditLimit
  {
    if cmds != [] {
      CreditLimitHolds(c, cmds[..|cmds| - 1]);
      InstallIsSafe(Installed(c, cmds[..|cmds| - 1]), cmds[|cmds| - 1]);
    }
  }

  /** An adjustment is not checked: one by hand takes the balance over any limit. */
  lemma AdjustmentBypassesLimit(limit: int)
    requires limit > 0
    ensures var p := Posting(Adjustment, limit + 1, None, None, 0);
            Installed(NewCustomer(limit), [Transact([p])]).balance > limit
  {
    var c, p := NewCustomer(limit), Posting(Adjustment, limit + 1, None, None, 0);
    assert PostAll(c, [p]) == Post(c, p) by {
      assert [p][..0] == [];
    }
    assert Installed(c, [Transact([p])]) == Install(c, Transact([p])) by {
      assert [Transact([p])][..0] == [];
    }
  }

  // ---- Exactly when the limit is kept ----

  predicate PositiveCredits(cmd: Command) {
    cmd.Transact? ==> forall p <- cmd.postings :: PositiveCredit(p)
  }

  /** What posting a row checks: a sale ends within the limit, a payment or credit is positive. */
  predicate RowChecked(limit: int, e: Entry) {
    && (e.posting.entryType.SaleDebt? ==> e.after <= limit)
    && PositiveCredit(e.posting)
  }

  ghost predicate RowsChecked(c: Customer) {
    forall e <- c.ledger :: RowChecked(c.creditLimit, e)
  }

  lemma {:induction false} PostAllChecksRows(c: Customer, ps: seq<Posting>)
    requires c.creditLimit > 0 && RowsChecked(c) && PostAll(c, ps).Ok?
    requires forall p <- ps :: PositiveCredit(p)
    ensures RowsChecked(PostAll(c, ps).customer) && PostAll(c, ps).customer.creditLimit == c.creditLimit
  {
    if ps != [] {
      var n := |ps| - 1;
      assert forall p <- ps[..n] :: p in ps;
      PostAllChecksRows(c, ps[..n]);
      assert ps[n] in ps;
      var d', d := PostAll(c, ps[..n]).customer, PostAll(c, ps).customer;
      forall e <- d.ledger ensures RowChecked(d.creditLimit, e) {
        assert e in d'.ledger || e == d.ledger[|d.ledger| - 1];
      }
    }
  }

  lemma {:induction false} InstalledChecksRows(c: Customer, cmds: seq<Command>)
    requires c.creditLimit > 0 && RowsChecked(c)
    requires forall cmd <- cmds :: PositiveCredits(cmd)
    ensures RowsChecked(Installed(c, cmds)) && Installed(c, cmds).creditLimit == c.creditLimit
  {
    if cmds != [] {
      var n := |cmds| - 1;
      InstalledChecksRows(c, cmds[..n]);
      assert cmds[n] in cmds;
      var c' := Installed(c, cmds[..n]);
      if cmds[n].Transact? && PostAll(c', cmds[n].postings).Ok? {
        PostAllChecksRows(c', cmds[n].postings);
      }
    }
  }

  /** The balance was never over the limit. */
  ghost predicate NeverOverLimit(c: Customer) {
    forall e <- c.ledger :: e.after <= c.creditLimit
  }

  /** No adjustment took the balance it found over the limit. */
  ghost predicate AdjustedWithinLimit(c: Customer) {
    forall e <- c.ledger :: e.posting.entryType.Adjustment? ==> e.before + e.posting.amount <= c.creditLimit
  }

  /** Row i does not take the balance over the limit. */
  ghost predicate KeepsLimit(c: Customer, i: nat)
    requires i < |c.ledger|
  {
    Carried(c.ledger, i) <= c.creditLimit ==> Carried(c.ledger, i + 1) <= c.creditLimit
  }

  lemma CheckedRowKeepsLimit(c: Customer, i: nat)
    requires Chained(c) && RowsChecked(c) && AdjustedWithinLimit(c) && i < |c.ledger|
    ensures KeepsLimit(c, i)
  {
    var e := c.ledger[i];
    assert e in c.ledger && e.before == Carried(c.ledger, i);
  }

  lemma {:induction false} CarriedWithinLimit(c: Customer, n: nat)
    requires c.creditLimit > 0 && n <= |c.ledger| && forall i :: 0 <= i < |c.ledger| ==> KeepsLimit(c, i)
    ensures Carried(c.ledger, n) <= c.creditLimit
  {
    if n > 0 {
      CarriedWithinLimit(c, n - 1);
      assert KeepsLimit(c, n - 1);
    }
  }

  lemma KeptLimit(c: Customer)
    requires c.creditLimit > 0 && forall i :: 0 <= i < |c.ledger| ==> KeepsLimit(c, i)
    ensures NeverOverLimit(c)
  {
    forall i | 0 <= i < |c.ledger| ensures c.ledger[i].after <= c.creditLimit {
      CarriedWithinLimit(c, i + 1);
    }
  }

  lemma AdjustedIsWithin(c: Customer)
    requires Chained(c) && RowsChecked(c) && AdjustedWithinLimit(c) && c.creditLimit > 0
    ensures NeverOverLimit(c)
  {
    forall i | 0 <= i < |c.ledger| ensures KeepsLimit(c, i) {
      CheckedRowKeepsLimit(c, i);
    }
    KeptLimit(c);
  }

  lemma WithinIsAdjusted(c: Customer)
    requires Chained(c) && NeverOverLimit(c)
    ensures AdjustedWithinLimit(c)
  {
    forall i | 0 <= i < |c.ledger| && c.ledger[i].posting.entryType.Adjustment?
      ensures c.ledger[i].before + c.ledger[i].posting.amount <= c.creditLimit
    {
      assert c.ledger[i].before == Carried(c.ledger, i) && c.ledger[i] in c.ledger;
    }
  }

  /** Whatever commits, the balance was never over a positive limit if and only if every adjustment by hand found
      room for its amount. */
  lemma NeverOverLimitIff(limit: int, cmds: seq<Command>)
    requires limit > 0 && forall cmd <- cmds :: PositiveCredits(cmd)
    ensures var c := Installed(NewCustomer(limit), cmds); NeverOverLimit(c) <==> AdjustedWithinLimit(c)
  {
    var c := Installed(NewCustomer(limit), cmds);
    InstalledIsSafe(NewCustomer(limit), cmds);
    InstalledChecksRows(NewCustomer(limit), cmds);
    if AdjustedWithinLimit(c) {
      AdjustedIsWithin(c);
    }
    if NeverOverLimit(c) {
      WithinIsAdjusted(c);
    }
  }

  /** Served one at a time, requests also delete only customers that owe nothing and are owed nothing, and
      keep the credit limit. */
  lemma {:induction false} SerialIsSafe(limit: int, cmds: seq<Command>)
    ensures var c := Serial(NewCustomer(limit), cmds);
            && Chained(c) && c.creditLimit == limit
            && (c.deleted ==> c.balance == 0)
            && (limit > 0 && (forall cmd <- cmds :: RoutineCommand(cmd)) ==> c.balance <= limit)
  {
    if cmds != [] {
      var c, cmd := Serial(NewCustomer(limit), cmds[..|cmds| - 1]), cmds[|cmds| - 1];
      SerialIsSafe(limit, cmds[..|cmds| - 1]);
      InstallIsSafe(c, cmd);
      if cmd.Transact? && PostAll(c, cmd.postings).Ok? {
        PostAllIsSafe(c, cmd.postings);
      }
    }
  }

  /** Once deleted, no later request changes the customer or its ledger. */
  lemma {:induction false} DeletedIsFrozen(c: Customer, cmds: seq<Command>)
    requires c.deleted
    ensures Serial(c, cmds) == c && Installed(c, cmds) == c
  {
    if cmds != [] {
      DeletedIsFrozen(c, cmds[..|cmds| - 1]);
      InstallIsSafe(c, cmds[|cmds| - 1]);
      assert Execute(c, cmds[|cmds| - 1]).Err? by {
        if cmds[|cmds| - 1].Transact? && PostAll(c, cmds[|cmds| - 1].postings).Ok? {
          PostAllIsSafe(c, cmds[|cmds| - 1].postings);
        }
      }
    }
  }

  // ---- What a successful transaction adds ----

  function Postings(ledger: seq<Entry>): (ps: seq<Posting>)
    ensures |ps| == |ledger|
  {
    seq(|ledger|, i requires 0 <= i < |ledger| => ledger[i].posting)
  }

  function PostingDelta(): Posting -> int { (p: Posting) => Delta(p) }

  /** A transaction that succeeds records exactly its postings, in order, and moves the balance by their sum. */
  lemma {:induction false} PostAllAdds(c: Customer, ps: seq<Posting>)
    requires PostAll(c, ps).Ok?
    ensures var d := PostAll(c, ps).customer;
            && Postings(d.ledger) == Postings(c.ledger) + ps
            && d.balance == c.balance + SumBy(ps, PostingDelta())
  {
    if ps == [] {
      assert Postings(c.ledger) + ps == Postings(c.ledger);
    } else {
      var ps', p := ps[..|ps| - 1], ps[|ps| - 1];
      PostAllAdds(c, ps');
      var d', d := PostAll(c, ps').customer, PostAll(c, ps).customer;
      assert Postings(d.ledger) == Postings(d'.ledger) + [p];
      assert ps == ps' + [p];
    }
  }
}
