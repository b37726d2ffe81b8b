/** The refund export: two-place amounts, one total per refund, and the TOTAL row.
    Amounts are in 1/10000 of the currency unit; cents are 1/100 of it. */
module RefundExport {
  import opened Common
  import opened Decimal

  /** Rounding to two places, half to even. */
  function RoundToCents(x: int): int {
    var q, r := x / 100, x % 100;
    if r < 50 || (r == 50 && q % 2 == 0) then q else q + 1
  }

  function Abs(x: int): nat { if x < 0 then -x else x }

  /** A cell of an amount column: blank, or a two-place amount. It keeps its sign even where it rounds to zero. */
  datatype Cell = Blank | TwoPlace(negative: bool, cents: nat)

  function FmtDec(x: int): Cell { TwoPlace(x < 0, Abs(RoundToCents(x))) }

  /** What a cell adds to a total, in cents. */
  function CellValue(c: Cell): int {
    match c
    case Blank => 0
    case TwoPlace(negative, cents) => if negative then -(cents as int) else cents
  }

  lemma PrintsRounded(x: int)
    ensures CellValue(FmtDec(x)) == RoundToCents(x) && FmtDec(x) != Blank
  {
  }

  // ---- The text of a cell ----

  function Body(c: nat): string { Digits(c / 100) + "." + Padded(c % 100, 2) }

  function Text(c: Cell): string {
    match c
    case Blank => ""
    case TwoPlace(negative, cents) => (if negative then "-" else "") + Body(cents)
  }

  function Unsigned(s: string): int {
    if |s| < 3 then Value(s) else 100 * Value(s[..|s| - 3]) + Value(s[|s| - 2..])
  }

  /** Reading a cell's text back, in cents. Empty text is skipped. */
  function ReadText(s: string): int {
    if s == "" then 0
    else if s[0] == '-' then -Unsigned(s[1..])
    else Unsigned(s)
  }

  lemma {:induction false} NoSign(n: nat)
    ensures Digits(n)[0] != '-'
  {
    if n >= 10 {
      NoSign(n / 10);
    }
  }

  lemma ReadUnsigned(c: nat)
    ensures Unsigned(Body(c)) == c
  {
    var a, b := Digits(c / 100), Padded(c % 100, 2);
    var s := Body(c);
    assert |b| == 2 by {
      assert c % 100 < 10 ==> |Digits(c % 100)| == 1;
      assert c % 100 >= 10 ==> Digits(c % 100) == Digits(c % 100 / 10) + [DigitChar(c % 100 % 10)];
    }
    assert s[..|s| - 3] == a && s[|s| - 2..] == b;
    ReadDigits(c / 100);
    ReadPadded(c % 100, 2);
  }

  /** The total that adds up the texts of cells adds up their values. */
  lemma TextRoundTrip(c: Cell)
    ensures ReadText(Text(c)) == CellValue(c) && (Text(c) == "" <==> c == Blank)
  {
    if c.TwoPlace? {
      ReadUnsigned(c.cents);
      NoSign(c.cents / 100);
      assert Body(c.cents)[0] == Digits(c.cents / 100)[0];
      assert ("-" + Body(c.cents))[1..] == Body(c.cents);
      assert "" + Body(c.cents) == Body(c.cents);
    }
  }

  /** A negative amount is printed with its sign even where it rounds to zero. */
  lemma PrintsSign(x: int)
    ensures Text(FmtDec(x))[0] == '-' <==> x < 0
  {
    var cents := FmtDec(x).cents;
    NoSign(cents / 100);
    assert Body(cents)[0] == Digits(cents / 100)[0];
    assert "" + Body(cents) == Body(cents);
  }

  /** The nearest two-place amount; of two equally near, the even one. */
  lemma RoundsToNearest(x: int, c: int)
    ensures Abs(100 * RoundToCents(x) - x) <= 50
    ensures Abs(100 * RoundToCents(x) - x) <= Abs(100 * c - x)
    ensures c != RoundToCents(x) && Abs(100 * RoundToCents(x) - x) == Abs(100 * c - x) ==> RoundToCents(x) % 2 == 0
  {
  }

  // ---- The TOTAL row ----

  function CellValues(): Cell -> int { (c: Cell) => CellValue(c) }

  /** What a summed column may hold: two-place amounts, numbers printed as they are, such as quantities, and text that
      does not read as a number. */
  datatype Field = Amount(cell: Cell) | Number(value: int) | Words

  /** What a field adds to the total, in 1/10000. */
  function FieldValue(): Field -> int {
    (f: Field) => match f case Amount(c) => 100 * CellValue(c) case Number(v) => v case Words => 0
  }

  /** The TOTAL cell of a summed column: blanks are skipped, and so is what does not read as a number. */
  method ColumnTotal(fields: seq<Field>) returns (cell: Cell)
    ensures cell == FmtDec(SumBy(fields, FieldValue()))
  {
    var total := 0;
    for k := 0 to |fields|
      invariant total == SumBy(fields[..k], FieldValue())
    {
      SumByStep(fields, k, FieldValue());
      if fields[k] != Amount(Blank) {
        match fields[k] {
          case Amount(c) => total := total + 100 * CellValue(c);
          case Number(v) => total := total + v;
          case Words =>
        }
      }
    }
    assert fields[..|fields|] == fields;
    cell := FmtDec(total);
  }

  /** The fields' amounts. */
  function CellsOf(fields: seq<Field>): seq<Cell> {
    if fields == [] then []
    else
      var f := fields[|fields| - 1];
      CellsOf(fields[..|fields| - 1]) + (if f.Amount? then [f.cell] else [])
  }

  /** And the other numbers among them. */
  function NumbersOf(fields: seq<Field>): seq<int> {
    if fields == [] then []
    else
      var f := fields[|fields| - 1];
      NumbersOf(fields[..|fields| - 1]) + (if f.Number? then [f.value] else [])
  }

  function Exact(): int -> int { (x: int) => x }

  /** A column's total is the sum of its amounts, in cents, and of its other numbers, as they are. */
  lemma {:induction false} FieldsAddUp(fields: seq<Field>)
    ensures SumBy(fields, FieldValue())
            == 100 * SumBy(CellsOf(fields), CellValues()) + SumBy(NumbersOf(fields), Exact())
  {
    if fields != [] {
      var n := |fields| - 1;
      FieldsAddUp(fields[..n]);
      match fields[n] {
        case Amount(c) => SumBySnoc(CellsOf(fields[..n]), c, CellValues());
        case Number(v) => SumBySnoc(NumbersOf(fields[..n]), v, Exact());
        case Words =>
      }
      assert !fields[n].Amount? ==> CellsOf(fields) == CellsOf(fields[..n]);
      assert !fields[n].Number? ==> NumbersOf(fields) == NumbersOf(fields[..n]);
    }
  }

  function Amounts(cells: seq<Cell>): (fields: seq<Field>)
    ensures |fields| == |cells|
    ensures forall i :: 0 <= i < |cells| ==> fields[i] == Amount(cells[i])
  {
    seq(|cells|, i requires 0 <= i < |cells| => Amount(cells[i]))
  }

  /** The TOTAL cell of a column of amounts prints their sum without rounding it again. */
  lemma {:induction false} AmountsTotal(cells: seq<Cell>)
    ensures SumBy(Amounts(cells), FieldValue()) == 100 * SumBy(cells, CellValues())
    ensures CellValue(FmtDec(SumBy(Amounts(cells), FieldValue()))) == SumBy(cells, CellValues())
  {
    if cells != [] {
      var n := |cells| - 1;
      AmountsTotal(cells[..n]);
      assert Amounts(cells)[..n] == Amounts(cells[..n]);
    }
  }

  function Printed(xs: seq<int>): (cells: seq<Cell>)
    ensures |cells| == |xs|
  {
    seq(|xs|, i requires 0 <= i < |xs| => FmtDec(xs[i]))
  }

  /** What the cells read as. */
  ghost predicate ReadAs(cells: seq<Cell>, cents: seq<int>) {
    |cells| == |cents| && forall i :: 0 <= i < |cells| ==> CellValue(cells[i]) == cents[i]
  }

  lemma {:induction false} SumOfCells(cells: seq<Cell>, cents: seq<int>)
    requires ReadAs(cells, cents)
    ensures SumBy(cells, CellValues()) == SumBy(cents, Exact())
  {
    if cells != [] {
      SumOfCells(cells[..|cells| - 1], cents[..|cells| - 1]);
    }
  }

  function Rounded(xs: seq<int>): (cents: seq<int>)
    ensures |cents| == |xs|
    ensures forall i :: 0 <= i < |xs| ==> cents[i] == RoundToCents(xs[i])
  {
    seq(|xs|, i requires 0 <= i < |xs| => RoundToCents(xs[i]))
  }

  lemma PrintedTotal(xs: seq<int>)
    ensures SumBy(Printed(xs), CellValues()) == SumBy(Rounded(xs), Exact())
  {
    forall i | 0 <= i < |xs| ensures CellValue(Printed(xs)[i]) == Rounded(xs)[i] {
      PrintsRounded(xs[i]);
    }
    SumOfCells(Printed(xs), Rounded(xs));
  }

  lemma {:induction false} RoundedIsClose(xs: seq<int>)
    ensures -50 * |xs| <= 100 * SumBy(Rounded(xs), Exact()) - SumBy(xs, Exact()) <= 50 * |xs|
  {
    if xs != [] {
      var n := |xs| - 1;
      RoundedIsClose(xs[..n]);
      assert Rounded(xs)[..n] == Rounded(xs[..n]);
      RoundsToNearest(xs[n], 0);
    }
  }

  /** A column of n printed amounts totals to within half a cent per row of the exact sum. */
  lemma TotalIsClose(xs: seq<int>)
    ensures -50 * |xs| <= 100 * SumBy(Printed(xs), CellValues()) - SumBy(xs, Exact()) <= 50 * |xs|
  {
    PrintedTotal(xs);
    RoundedIsClose(xs);
  }

  // ---- One total per refund ----

  datatype Refund = Refund(number: string, amount: int)

  /** A row of the join: a refund with one of its lines, or with none. */
  datatype RawRow = RawRow(refund: Refund, lineAmount: Option<int>)

  datatype ExportRow = ExportRow(number: string, lineCell: Cell, totalCell: Cell)

  /** The first row of its refund. */
  ghost predicate IsFirst(raw: seq<RawRow>, k: nat)
    requires k < |raw|
  {
    forall j :: 0 <= j < k ==> raw[j].refund.number != raw[k].refund.number
  }

  ghost predicate Stamped(raw: seq<RawRow>, rows: seq<ExportRow>, k: nat)
    requires k < |raw| && k < |rows|
  {
    var r := raw[k];
    && rows[k].number == r.refund.number
    && rows[k].lineCell == (if r.lineAmount.Some? then FmtDec(r.lineAmount.value) else Blank)
    && rows[k].totalCell == (if IsFirst(raw, k) then FmtDec(r.refund.amount) else Blank)
  }

  method FetchRefunds(raw: seq<RawRow>) returns (rows: seq<ExportRow>)
    ensures |rows| == |raw|
    ensures forall k :: 0 <= k < |raw| ==> Stamped(raw, rows, k)
  {
    var seenRefunds: set<string> := {};
    rows := [];
    for k := 0 to |raw|
      invariant |rows| == k
      invariant forall s :: s in seenRefunds <==> exists j :: 0 <= j < k && raw[j].refund.number == s
      invariant forall j :: 0 <= j < k ==> Stamped(raw, rows, j)
    {
      var r := raw[k];
      var isFirst := r.refund.number !in seenRefunds;
      assert isFirst <==> IsFirst(raw, k);
      ghost var before := rows;
      seenRefunds := seenRefunds + {r.refund.number};
      rows := rows + [ExportRow(r.refund.number,
                                if r.lineAmount.Some? then FmtDec(r.lineAmount.value) else Blank,
                                if isFirst then FmtDec(r.refund.amount) else Blank)];
      forall j | 0 <= j < k + 1 ensures Stamped(raw, rows, j) {
        assert j < k ==> Stamped(raw, before, j);
      }
    }
  }

  function TotalCells(rows: seq<ExportRow>): (cells: seq<Cell>)
    ensures |cells| == |rows|
    ensures forall k :: 0 <= k < |rows| ==> cells[k] == rows[k].totalCell
  {
    seq(|rows|, i requires 0 <= i < |rows| => rows[i].totalCell)
  }

  /** The values of the refunds seen so far. */
  function SeenValue(seen: set<string>, value: Refund -> int): Refund -> int {
    (r: Refund) => if r.number in seen then value(r) else 0
  }

  function RoundedAmount(): Refund -> int { (r: Refund) => RoundToCents(r.amount) }

  ghost predicate DistinctNumbers(refunds: seq<Refund>) {
    forall i, j :: 0 <= i < j < |refunds| ==> refunds[i].number != refunds[j].number
  }

  lemma {:induction false} SeeNoMore(refunds: seq<Refund>, seen: set<string>, number: string, value: Refund -> int)
    requires forall r <- refunds :: r.number != number
    ensures SumBy(refunds, SeenValue(seen + {number}, value)) == SumBy(refunds, SeenValue(seen, value))
  {
    if refunds != [] {
      SeeNoMore(refunds[..|refunds| - 1], seen, number, value);
    }
  }

  lemma {:induction false} SeeOneMore(refunds: seq<Refund>, seen: set<string>, i: nat, value: Refund -> int)
    requires DistinctNumbers(refunds) && i < |refunds| && refunds[i].number !in seen
    ensures SumBy(refunds, SeenValue(seen + {refunds[i].number}, value))
            == SumBy(refunds, SeenValue(seen, value)) + value(refunds[i])
  {
    var n := |refunds| - 1;
    if i < n {
      SeeOneMore(refunds[..n], seen, i, value);
    } else {
      SeeNoMore(refunds[..n], seen, refunds[n].number, value);
    }
  }

  function Numbers(raw: seq<RawRow>): set<string> {
    if raw == [] then {} else Numbers(raw[..|raw| - 1]) + {raw[|raw| - 1].refund.number}
  }

  lemma {:induction false} NumbersOccur(raw: seq<RawRow>, s: string)
    ensures s in Numbers(raw) <==> exists j :: 0 <= j < |raw| && raw[j].refund.number == s
  {
    if raw != [] {
      var n := |raw| - 1;
      NumbersOccur(raw[..n], s);
      if s in Numbers(raw[..n]) {
        var j :| 0 <= j < n && raw[..n][j].refund.number == s;
        assert raw[j].refund.number == s;
      }
    }
  }

  /** What the first k rows carry, if each refund's first row carries its value. */
  ghost function FirstsUpTo(raw: seq<RawRow>, k: nat, value: Refund -> int): int
    requires k <= |raw|
  {
    if k == 0 then 0
    else FirstsUpTo(raw, k - 1, value) + (if IsFirst(raw, k - 1) then value(raw[k - 1].refund) else 0)
  }

  /** The rows are a join with the table of refunds: each row's refund is in it. */
  ghost predicate RowsFrom(refunds: seq<Refund>, raw: seq<RawRow>) {
    forall i :: 0 <= i < |raw| ==> raw[i].refund in refunds
  }

  lemma FirstIfUnseen(raw: seq<RawRow>, k: nat)
    requires k < |raw|
    ensures IsFirst(raw, k) <==> raw[k].refund.number !in Numbers(raw[..k])
  {
    NumbersOccur(raw[..k], raw[k].refund.number);
    assert forall j :: 0 <= j < k ==> raw[..k][j] == raw[j];
  }

  /** One more row adds its refund's value if the refund had not been seen. */
  lemma SeeNext(refunds: seq<Refund>, raw: seq<RawRow>, k: nat, value: Refund -> int)
    requires DistinctNumbers(refunds) && k < |raw| && raw[k].refund in refunds
    ensures SumBy(refunds, SeenValue(Numbers(raw[..k + 1]), value))
            == SumBy(refunds, SeenValue(Numbers(raw[..k]), value))
               + (if IsFirst(raw, k) then value(raw[k].refund) else 0)
  {
    var seen, r := Numbers(raw[..k]), raw[k].refund;
    assert raw[..k + 1][..k] == raw[..k];
    FirstIfUnseen(raw, k);
    if r.number in seen {
      assert seen + {r.number} == seen;
    } else {
      var i :| 0 <= i < |refunds| && refunds[i] == r;
      SeeOneMore(refunds, seen, i, value);
    }
  }

  lemma NoneSeen(refunds: seq<Refund>, value: Refund -> int)
    ensures SumBy(refunds, SeenValue({}, value)) == 0
  {
    if refunds != [] {
      NoneSeen(refunds[..|refunds| - 1], value);
    }
  }

  lemma {:induction false} TotalOfSeen(refunds: seq<Refund>, raw: seq<RawRow>, k: nat, value: Refund -> int)
    requires DistinctNumbers(refunds) && RowsFrom(refunds, raw) && k <= |raw|
    ensures FirstsUpTo(raw, k, value) == SumBy(refunds, SeenValue(Numbers(raw[..k]), value))
  {
    if k == 0 {
      NoneSeen(refunds, value);
    } else {
      TotalOfSeen(refunds, raw, k - 1, value);
      SeeNext(refunds, raw, k - 1, value);
    }
  }

  lemma {:induction false} StampedTotal(raw: seq<RawRow>, rows: seq<ExportRow>, k: nat)
    requires |rows| == |raw| && k <= |raw|
    requires forall i :: 0 <= i < |raw| ==> Stamped(raw, rows, i)
    ensures SumBy(TotalCells(rows)[..k], CellValues()) == FirstsUpTo(raw, k, RoundedAmount())
  {
    if k > 0 {
      StampedTotal(raw, rows, k - 1);
      SumByStep(TotalCells(rows), k - 1, CellValues());
      assert Stamped(raw, rows, k - 1);
      PrintsRounded(raw[k - 1].refund.amount);
    }
  }

  /** However the line rows of different refunds interleave, the total column adds up each refund's rounded
      amount once. */
  lemma EachRefundCountsOnce(refunds: seq<Refund>, raw: seq<RawRow>, rows: seq<ExportRow>)
    requires DistinctNumbers(refunds) && RowsFrom(refunds, raw)
    requires forall r <- refunds :: exists i :: 0 <= i < |raw| && raw[i].refund == r
    requires |rows| == |raw| && forall i :: 0 <= i < |raw| ==> Stamped(raw, rows, i)
    ensures SumBy(TotalCells(rows), CellValues()) == SumBy(refunds, RoundedAmount())
  {
    StampedTotal(raw, rows, |raw|);
    TotalOfSeen(refunds, raw, |raw|, RoundedAmount());
    assert TotalCells(rows)[..|raw|] == TotalCells(rows) && raw[..|raw|] == raw;
    forall r <- refunds ensures r.number in Numbers(raw) {
      NumbersOccur(raw, r.number);
    }
    SumByEqual(refunds, SeenValue(Numbers(raw), RoundedAmount()), RoundedAmount());
  }

  // ---- Every line once ----

  function LineCells(rows: seq<ExportRow>): (cells: seq<Cell>)
    ensures |cells| == |rows|
    ensures forall k :: 0 <= k < |rows| ==> cells[k] == rows[k].lineCell
  {
    seq(|rows|, i requires 0 <= i < |rows| => rows[i].lineCell)
  }

  function RoundedLine(): RawRow -> int {
    (r: RawRow) => if r.lineAmount.Some? then RoundToCents(r.lineAmount.value) else 0
  }

  /** The line column adds up every line's rounded amount once, and no row is lost or moved. */
  lemma {:induction false} EachLineCountsOnce(raw: seq<RawRow>, rows: seq<ExportRow>, n: nat)
    requires |rows| == |raw| && n <= |raw| && forall i :: 0 <= i < |raw| ==> Stamped(raw, rows, i)
    ensures SumBy(LineCells(rows)[..n], CellValues()) == SumBy(raw[..n], RoundedLine())
    ensures forall i :: 0 <= i < n ==> rows[i].number == raw[i].refund.number
  {
    if n > 0 {
      EachLineCountsOnce(raw, rows, n - 1);
      SumByStep(LineCells(rows), n - 1, CellValues());
      SumByStep(raw, n - 1, RoundedLine());
      assert Stamped(raw, rows, n - 1);
      if raw[n - 1].lineAmount.Some? {
        PrintsRounded(raw[n - 1].lineAmount.value);
      }
    }
  }
}
