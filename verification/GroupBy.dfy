/** Grouping and outer joins over sequences of rows, with SQL's NULL keys. */
module GroupBy {
  import opened Common

  /** None is NULL. */
  type Key = Option<int>

  datatype Line = Line(key: Key, revenue: int, cogs: int)

  datatype Amount = Amount(key: Key, amount: int)

  datatype Joined = Joined(line: Line, refunded: Option<int>)

  datatype ReportRow = ReportRow(key: Key, revenue: int, cogs: int, refunded: int, profit: int)

  function OnKey<T>(key: T -> Key, value: T -> int, k: Key): T -> int {
    (r: T) => if key(r) == k then value(r) else 0
  }

  function LineKey(): Line -> Key { (l: Line) => l.key }
  function Revenue(): Line -> int { (l: Line) => l.revenue }
  function Cogs(): Line -> int { (l: Line) => l.cogs }
  function AmountKey(): Amount -> Key { (a: Amount) => a.key }
  function AmountOf(): Amount -> int { (a: Amount) => a.amount }
  function JoinedKey(): Joined -> Key { (j: Joined) => j.line.key }
  function JoinedRevenue(): Joined -> int { (j: Joined) => j.line.revenue }
  function JoinedCogs(): Joined -> int { (j: Joined) => j.line.cogs }

  /** The distinct keys, in order of first appearance. */
  function KeysOf<T>(rows: seq<T>, key: T -> Key): seq<Key> {
    if rows == [] then []
    else
      var ks, k := KeysOf(rows[..|rows| - 1], key), key(rows[|rows| - 1]);
      if k in ks then ks else ks + [k]
  }

  ghost predicate Distinct(ks: seq<Key>) {
    forall i, j :: 0 <= i < j < |ks| ==> ks[i] != ks[j]
  }

  lemma {:induction false} KeysAreDistinct<T>(rows: seq<T>, key: T -> Key)
    ensures Distinct(KeysOf(rows, key))
    ensures forall r <- rows :: key(r) in KeysOf(rows, key)
  {
    if rows != [] {
      KeysAreDistinct(rows[..|rows| - 1], key);
    }
  }

  lemma {:induction false} KeyHasRow<T>(rows: seq<T>, key: T -> Key, k: Key)
    requires k in KeysOf(rows, key)
    ensures exists r <- rows :: key(r) == k
  {
    var n := |rows| - 1;
    if k in KeysOf(rows[..n], key) {
      KeyHasRow(rows[..n], key, k);
    } else {
      assert rows[n] in rows;
    }
  }

  // ---- Grouped sums ----

  /** The sum of a group's values, as a function of its key. */
  function GroupSum<T>(rows: seq<T>, key: T -> Key, value: T -> int): Key -> int {
    (k: Key) => SumBy(rows, OnKey(key, value, k))
  }

  lemma {:induction false} GroupsGainOne<T>(ks: seq<Key>, rows: seq<T>, r: T, key: T -> Key, value: T -> int)
    requires Distinct(ks)
    ensures SumBy(ks, GroupSum(rows + [r], key, value))
            == SumBy(ks, GroupSum(rows, key, value)) + (if key(r) in ks then value(r) else 0)
  {
    if ks != [] {
      var n := |ks| - 1;
      GroupsGainOne(ks[..n], rows, r, key, value);
      SumBySnoc(rows, r, OnKey(key, value, ks[n]));
      assert ks[n] !in ks[..n];
    }
  }

  /** A row's value, if its key is one of ks. */
  function Covered<T>(ks: seq<Key>, key: T -> Key, value: T -> int): T -> int {
    (r: T) => if key(r) in ks then value(r) else 0
  }

  lemma {:induction false} EmptyGroups<T>(ks: seq<Key>, key: T -> Key, value: T -> int)
    ensures SumBy(ks, GroupSum([], key, value)) == 0
  {
    if ks != [] {
      EmptyGroups<T>(ks[..|ks| - 1], key, value);
    }
  }

  /** Grouping duplicates nothing, and loses only the rows whose key is not a group's. */
  lemma {:induction false} GroupsAddUp<T>(ks: seq<Key>, rows: seq<T>, key: T -> Key, value: T -> int)
    requires Distinct(ks)
    ensures SumBy(ks, GroupSum(rows, key, value)) == SumBy(rows, Covered(ks, key, value))
  {
    if rows == [] {
      EmptyGroups<T>(ks, key, value);
    } else {
      var n := |rows| - 1;
      GroupsAddUp(ks, rows[..n], key, value);
      assert rows == rows[..n] + [rows[n]];
      GroupsGainOne(ks, rows[..n], rows[n], key, value);
    }
  }

  lemma {:induction false} AllCovered<T>(ks: seq<Key>, rows: seq<T>, key: T -> Key, value: T -> int)
    requires forall r <- rows :: key(r) in ks
    ensures SumBy(rows, Covered(ks, key, value)) == SumBy(rows, value)
  {
    if rows != [] {
      AllCovered(ks, rows[..|rows| - 1], key, value);
      assert rows[|rows| - 1] in rows;
    }
  }

  // ---- The refund subquery and its outer join ----

  function PerKey(ks: seq<Key>, refunds: seq<Amount>): (rows: seq<Amount>)
    ensures |rows| == |ks|
  {
    seq(|ks|, i requires 0 <= i < |ks| => Amount(ks[i], GroupSum(refunds, AmountKey(), AmountOf())(ks[i])))
  }

  /** GROUP BY key: one row per key, with the key's total. */
  function Subquery(refunds: seq<Amount>): seq<Amount> {
    PerKey(KeysOf(refunds, AmountKey()), refunds)
  }

  /** SQL's `=`, for which NULL matches nothing, or IS NOT DISTINCT FROM, for which NULL matches NULL. */
  predicate Matches(nullSafe: bool, a: Key, b: Key) {
    a == b && (nullSafe || a.Some?)
  }

  function MatchesOf(line: Line, sub: seq<Amount>, nullSafe: bool): seq<Joined> {
    if sub == [] then []
    else
      var a := sub[|sub| - 1];
      MatchesOf(line, sub[..|sub| - 1], nullSafe)
      + (if Matches(nullSafe, a.key, line.key) then [Joined(line, Some(a.amount))] else [])
  }

  /** What the join yields for one line. */
  function JoinLine(l: Line, sub: seq<Amount>, nullSafe: bool): seq<Joined> {
    var ms := MatchesOf(l, sub, nullSafe);
    if ms == [] then [Joined(l, None)] else ms
  }

  /** LEFT OUTER JOIN: one row per match, or one with NULL. */
  function LeftJoin(lines: seq<Line>, sub: seq<Amount>, nullSafe: bool): seq<Joined> {
    if lines == [] then []
    else
      LeftJoin(lines[..|lines| - 1], sub, nullSafe) + JoinLine(lines[|lines| - 1], sub, nullSafe)
  }

  /** max over a group, which skips NULLs. */
  function MaxRefunded(rows: seq<Joined>, k: Key): Option<int> {
    if rows == [] then None
    else
      var rest, j := MaxRefunded(rows[..|rows| - 1], k), rows[|rows| - 1];
      if j.line.key != k || j.refunded.None? then rest
      else if rest.None? || rest.value < j.refunded.value then j.refunded
      else rest
  }

  /** It is the greatest of the group's refund totals, NULL if there is none. */
  lemma {:induction false} MaxIsGreatest(rows: seq<Joined>, k: Key)
    ensures match MaxRefunded(rows, k)
            case None => forall j <- rows :: j.line.key == k ==> j.refunded.None?
            case Some(v) =>
              && (exists j <- rows :: j.line.key == k && j.refunded == Some(v))
              && (forall j <- rows :: j.line.key == k && j.refunded.Some? ==> j.refunded.value <= v)
  {
    if rows != [] {
      var n := |rows| - 1;
      MaxIsGreatest(rows[..n], k);
      assert forall j :: j in rows <==> j in rows[..n] || j == rows[n];
    }
  }

  /** A NULL key matches nothing unless the join is null-safe: its line gets no refund total. */
  lemma {:induction false} NullMatchesNothing(l: Line, sub: seq<Amount>)
    requires l.key.None?
    ensures JoinLine(l, sub, false) == [Joined(l, None)]
  {
    if sub != [] {
      NullMatchesNothing(l, sub[..|sub| - 1]);
    }
  }

  function Coalesce(v: Option<int>): int { if v.Some? then v.value else 0 }

  function RowFor(rows: seq<Joined>, k: Key): ReportRow {
    var revenue := GroupSum(rows, JoinedKey(), JoinedRevenue())(k);
    var cogs := GroupSum(rows, JoinedKey(), JoinedCogs())(k);
    var refunded := Coalesce(MaxRefunded(rows, k));
    ReportRow(k, revenue, cogs, refunded, revenue - refunded - cogs)
  }

  /** The report: join the refund totals onto the lines, group by key, and net each group. */
  function Report(lines: seq<Line>, refunds: seq<Amount>, nullSafe: bool): seq<ReportRow> {
    var rows := LeftJoin(lines, Subquery(refunds), nullSafe);
    var ks := KeysOf(rows, JoinedKey());
    seq(|ks|, i requires 0 <= i < |ks| => RowFor(rows, ks[i]))
  }

  // ---- The join neither drops nor repeats a line ----

  /** The key's refund total, NULL for a key without refunds. */
  function RefundOf(refunds: seq<Amount>, k: Key): Option<int> {
    if k in KeysOf(refunds, AmountKey()) then Some(GroupSum(refunds, AmountKey(), AmountOf())(k)) else None
  }

  /** Every line once, with its key's refund total. */
  function Once(lines: seq<Line>, refunds: seq<Amount>): seq<Joined> {
    if lines == [] then []
    else
      var l := lines[|lines| - 1];
      Once(lines[..|lines| - 1], refunds) + [Joined(l, RefundOf(refunds, l.key))]
  }

  lemma {:induction false} MatchesOnce(line: Line, ks: seq<Key>, refunds: seq<Amount>, nullSafe: bool)
    requires Distinct(ks) && (nullSafe || line.key.Some?)
    ensures MatchesOf(line, PerKey(ks, refunds), nullSafe)
            == if line.key in ks then [Joined(line, Some(GroupSum(refunds, AmountKey(), AmountOf())(line.key)))] else []
  {
    if ks != [] {
      var n := |ks| - 1;
      MatchesOnce(line, ks[..n], refunds, nullSafe);
      assert PerKey(ks, refunds)[..n] == PerKey(ks[..n], refunds);
      assert ks[n] !in ks[..n];
    }
  }

  lemma LineOnce(l: Line, refunds: seq<Amount>, nullSafe: bool)
    requires nullSafe || l.key.Some?
    ensures JoinLine(l, Subquery(refunds), nullSafe) == [Joined(l, RefundOf(refunds, l.key))]
  {
    KeysAreDistinct(refunds, AmountKey());
    MatchesOnce(l, KeysOf(refunds, AmountKey()), refunds, nullSafe);
  }

  /** Since the subquery has one row per key, the join yields each line exactly once. */
  lemma {:induction false} JoinKeepsLines(lines: seq<Line>, refunds: seq<Amount>, nullSafe: bool)
    requires nullSafe || forall l <- lines :: l.key.Some?
    ensures LeftJoin(lines, Subquery(refunds), nullSafe) == Once(lines, refunds)
  {
    if lines != [] {
      var n := |lines| - 1;
      JoinKeepsLines(lines[..n], refunds, nullSafe);
      LineOnce(lines[n], refunds, nullSafe);
    }
  }

  // ---- What the report adds up to ----

  lemma {:induction false} OnceSums(lines: seq<Line>, refunds: seq<Amount>, key: Key)
    ensures var rows := Once(lines, refunds);
            && GroupSum(rows, JoinedKey(), JoinedRevenue())(key) == GroupSum(lines, LineKey(), Revenue())(key)
            && GroupSum(rows, JoinedKey(), JoinedCogs())(key) == GroupSum(lines, LineKey(), Cogs())(key)
  {
    if lines != [] {
      var n := |lines| - 1;
      var rows, row := Once(lines[..n], refunds), Joined(lines[n], RefundOf(refunds, lines[n].key));
      OnceSums(lines[..n], refunds, key);
      SumBySnoc(rows, row, OnKey(JoinedKey(), JoinedRevenue(), key));
      SumBySnoc(rows, row, OnKey(JoinedKey(), JoinedCogs(), key));
    }
  }

  lemma LastOnce(lines: seq<Line>, refunds: seq<Amount>)
    requires lines != []
    ensures var rows, l := Once(lines, refunds), lines[|lines| - 1];
            && rows != [] && rows[..|rows| - 1] == Once(lines[..|lines| - 1], refunds)
            && rows[|rows| - 1] == Joined(l, RefundOf(refunds, l.key))
  {
  }

  lemma {:induction false} OnceKeys(lines: seq<Line>, refunds: seq<Amount>)
    ensures KeysOf(Once(lines, refunds), JoinedKey()) == KeysOf(lines, LineKey())
  {
    if lines != [] {
      var n := |lines| - 1;
      OnceKeys(lines[..n], refunds);
      LastOnce(lines, refunds);
    }
  }

  /** A group's rows all carry the same refund total, so max counts it once. */
  lemma {:induction false} MaxIsTheTotal(lines: seq<Line>, refunds: seq<Amount>, k: Key)
    ensures MaxRefunded(Once(lines, refunds), k)
            == if exists l <- lines :: l.key == k then RefundOf(refunds, k) else None
  {
    if lines != [] {
      var n := |lines| - 1;
      MaxIsTheTotal(lines[..n], refunds, k);
      LastOnce(lines, refunds);
      assert forall l <- lines :: l in lines[..n] || l == lines[n];
    }
  }

  lemma {:induction false} NoRefundsNoSum(refunds: seq<Amount>, k: Key)
    requires k !in KeysOf(refunds, AmountKey())
    ensures GroupSum(refunds, AmountKey(), AmountOf())(k) == 0
  {
    if refunds != [] {
      NoRefundsNoSum(refunds[..|refunds| - 1], k);
    }
  }

  /** A report row nets its group: its lines' revenue, less its refunds, less its cost. */
  lemma RowIsNet(lines: seq<Line>, refunds: seq<Amount>, nullSafe: bool, i: nat)
    requires nullSafe || forall l <- lines :: l.key.Some?
    requires i < |Report(lines, refunds, nullSafe)|
    ensures |Report(lines, refunds, nullSafe)| == |KeysOf(lines, LineKey())|
    ensures var k := KeysOf(lines, LineKey())[i];
            var revenue := GroupSum(lines, LineKey(), Revenue())(k);
            var cogs := GroupSum(lines, LineKey(), Cogs())(k);
            var refunded := GroupSum(refunds, AmountKey(), AmountOf())(k);
            Report(lines, refunds, nullSafe)[i] == ReportRow(k, revenue, cogs, refunded, revenue - refunded - cogs)
  {
    JoinKeepsLines(lines, refunds, nullSafe);
    OnceKeys(lines, refunds);
    var k := KeysOf(lines, LineKey())[i];
    OnceSums(lines, refunds, k);
    MaxIsTheTotal(lines, refunds, k);
    KeyHasRow(lines, LineKey(), k);
    if k !in KeysOf(refunds, AmountKey()) {
      NoRefundsNoSum(refunds, k);
    }
  }

  function Profit(): ReportRow -> int { (r: ReportRow) => r.profit }

  function NetOf(lines: seq<Line>, refunds: seq<Amount>): Key -> int {
    (k: Key) => GroupSum(lines, LineKey(), Revenue())(k) - GroupSum(refunds, AmountKey(), AmountOf())(k)
                - GroupSum(lines, LineKey(), Cogs())(k)
  }

  lemma {:induction false} NetsSplit(ks: seq<Key>, lines: seq<Line>, refunds: seq<Amount>)
    ensures SumBy(ks, NetOf(lines, refunds))
            == SumBy(ks, GroupSum(lines, LineKey(), Revenue())) - SumBy(ks, GroupSum(refunds, AmountKey(), AmountOf()))
               - SumBy(ks, GroupSum(lines, LineKey(), Cogs()))
  {
    if ks != [] {
      NetsSplit(ks[..|ks| - 1], lines, refunds);
    }
  }

  lemma {:induction false} ProfitsAreNets(rows: seq<ReportRow>, ks: seq<Key>, net: Key -> int)
    requires |rows| == |ks| && forall i :: 0 <= i < |rows| ==> rows[i].profit == net(ks[i])
    ensures SumBy(rows, Profit()) == SumBy(ks, net)
  {
    if rows != [] {
      ProfitsAreNets(rows[..|rows| - 1], ks[..|ks| - 1], net);
    }
  }

  /** A refund's amount, if no line has its key: no group shows it. */
  function HiddenAmount(ks: seq<Key>): Amount -> int {
    (a: Amount) => if a.key in ks then 0 else a.amount
  }

  /** The refunds that no group of the report shows. */
  function Hidden(lines: seq<Line>, refunds: seq<Amount>): int {
    SumBy(refunds, HiddenAmount(KeysOf(lines, LineKey())))
  }

  /** The refunds shown are those not hidden. */
  lemma ShownRefunds(ks: seq<Key>, refunds: seq<Amount>)
    ensures SumBy(refunds, Covered(ks, AmountKey(), AmountOf()))
            == SumBy(refunds, AmountOf()) - SumBy(refunds, HiddenAmount(ks))
  {
    SumByDifference(refunds, AmountOf(), HiddenAmount(ks), Covered(ks, AmountKey(), AmountOf()));
  }

  /** The report's profits add up to all revenue, less all refunds but the hidden ones, less all cost. */
  lemma ReportTotal(lines: seq<Line>, refunds: seq<Amount>, nullSafe: bool)
    requires nullSafe || forall l <- lines :: l.key.Some?
    ensures SumBy(Report(lines, refunds, nullSafe), Profit())
            == SumBy(lines, Revenue()) - (SumBy(refunds, AmountOf()) - Hidden(lines, refunds)) - SumBy(lines, Cogs())
  {
    var ks, rows := KeysOf(lines, LineKey()), Report(lines, refunds, nullSafe);
    KeysAreDistinct(lines, LineKey());
    JoinKeepsLines(lines, refunds, nullSafe);
    OnceKeys(lines, refunds);
    forall i | 0 <= i < |rows| ensures rows[i].profit == NetOf(lines, refunds)(ks[i]) {
      RowIsNet(lines, refunds, nullSafe, i);
    }
    ProfitsAreNets(rows, ks, NetOf(lines, refunds));
    NetsSplit(ks, lines, refunds);
    GroupsAddUp(ks, lines, LineKey(), Revenue());
    AllCovered(ks, lines, LineKey(), Revenue());
    GroupsAddUp(ks, lines, LineKey(), Cogs());
    AllCovered(ks, lines, LineKey(), Cogs());
    GroupsAddUp(ks, refunds, AmountKey(), AmountOf());
    ShownRefunds(ks, refunds);
  }

  /** The profits add up to revenue less refunds less cost if and only if the refunds whose key has no line sum to
      zero. */
  lemma ReportAddsUpIff(lines: seq<Line>, refunds: seq<Amount>, nullSafe: bool)
    requires nullSafe || forall l <- lines :: l.key.Some?
    ensures SumBy(Report(lines, refunds, nullSafe), Profit())
              == SumBy(lines, Revenue()) - SumBy(refunds, AmountOf()) - SumBy(lines, Cogs())
            <==> Hidden(lines, refunds) == 0
  {
    ReportTotal(lines, refunds, nullSafe);
  }

  /** In particular they do if every refund's key has a line. */
  lemma {:induction false} NothingHidden(lines: seq<Line>, refunds: seq<Amount>)
    requires forall a <- refunds :: a.key in KeysOf(lines, LineKey())
    ensures Hidden(lines, refunds) == 0
  {
    if refunds != [] {
      NothingHidden(lines, refunds[..|refunds| - 1]);
      assert refunds[|refunds| - 1] in refunds;
    }
  }

  lemma ReportAddsUp(lines: seq<Line>, refunds: seq<Amount>, nullSafe: bool)
    requires nullSafe || forall l <- lines :: l.key.Some?
    requires forall a <- refunds :: a.key in KeysOf(lines, LineKey())
    ensures SumBy(Report(lines, refunds, nullSafe), Profit())
            == SumBy(lines, Revenue()) - SumBy(refunds, AmountOf()) - SumBy(lines, Cogs())
  {
    NothingHidden(lines, refunds);
    ReportAddsUpIff(lines, refunds, nullSafe);
  }
}
