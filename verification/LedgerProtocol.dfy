/** Requests on one customer row as database transactions whose steps interleave.
    A posting request locks the row and reads it, then inserts a ledger row and writes the balance back for each
    posting, then commits. A deletion reads the row without a lock and locks it only when it writes its mark. */
module LedgerProtocol {
  import opened Common
  import opened CustomerLedger

  type TxId = nat

  datatype Stage =
    | Fresh
    | Holding(cached: int, rows: seq<Entry>, half: bool)  // half: the last row's balance is not written back yet
    | Checked(readAt: nat)                                // a deletion that has read the balance
    | Marked(readAt: nat)                                 // and has written its mark
    | Finished(committed: bool)

  datatype Action = Acquire | Append | WriteBalance | ReadForDelete | MarkDeleted | Commit | Rollback

  /** One commit. For a deletion, readAt says how many commits came before its unlocked read. */
  datatype Commitment = Commitment(tx: TxId, command: Command, readAt: nat)

  /** row is what is committed; history lists the commits in order. */
  datatype World = World(row: Customer, lock: Option<TxId>, stages: map<TxId, Stage>, history: seq<Commitment>)

  type Requests = map<TxId, Command>

  function StageOf(w: World, t: TxId): Stage {
    if t in w.stages then w.stages[t] else Fresh
  }

  function At(w: World, t: TxId, stage: Stage): World {
    w.(stages := w.stages[t := stage])
  }

  /** The end of a transaction: its locks are released. */
  function End(w: World, t: TxId, committed: bool): World {
    At(w.(lock := if w.lock == Some(t) then None else w.lock), t, Finished(committed))
  }

  function AppendRow(w: World, t: TxId, cached: int, rows: seq<Entry>, p: Posting): World {
    var after := cached + Delta(p);
    if OverLimit(w.row.creditLimit, p, after) then End(w, t, false)
    else At(w, t, Holding(cached, rows + [Entry(p, cached, after)], true))
  }

  /** One step of transaction t. A step that is not enabled changes nothing: the transaction waits. */
  function Step(reqs: Requests, w: World, t: TxId, a: Action): World {
    if t !in reqs then w
    else
      match (StageOf(w, t), a, reqs[t])
      case (Fresh, Acquire, Transact(ps)) =>
        if w.lock != None then w
        else if w.row.deleted then End(w, t, false)
        else At(w.(lock := Some(t)), t, Holding(w.row.balance, [], false))
      case (Holding(cached, rows, false), Append, Transact(ps)) =>
        if |rows| < |ps| then AppendRow(w, t, cached, rows, ps[|rows|]) else w
      case (Holding(_, rows, true), WriteBalance, Transact(ps)) =>
        if rows == [] then w else At(w, t, Holding(rows[|rows| - 1].after, rows, false))
      case (Holding(cached, rows, false), Commit, Transact(ps)) =>
        if |rows| < |ps| then w
        else End(w.(row := w.row.(balance := cached, ledger := w.row.ledger + rows),
                    history := w.history + [Commitment(t, reqs[t], |w.history|)]), t, true)
      case (Fresh, ReadForDelete, SoftDelete) =>
        if w.row.deleted || w.row.balance != 0 then End(w, t, false) else At(w, t, Checked(|w.history|))
      case (Checked(readAt), MarkDeleted, SoftDelete) =>
        if w.lock != None then w else At(w.(lock := Some(t)), t, Marked(readAt))
      case (Marked(readAt), Commit, SoftDelete) =>
        End(w.(row := w.row.(deleted := true),
               history := w.history + [Commitment(t, reqs[t], readAt)]), t, true)
      case (Finished(_), Rollback, _) => w
      case (_, Rollback, _) => End(w, t, false)
      case _ => w
  }

  type Schedule = seq<(TxId, Action)>

  /** Every interleaving is a schedule. */
  function Run(reqs: Requests, w: World, schedule: Schedule): World {
    if schedule == [] then w
    else
      var (t, a) := schedule[|schedule| - 1];
      Step(reqs, Run(reqs, w, schedule[..|schedule| - 1]), t, a)
  }

  function Start(limit: int): World {
    World(NewCustomer(limit), None, map[], [])
  }

  function Commands(history: seq<Commitment>): (cmds: seq<Command>)
    ensures |cmds| == |history|
    ensures forall i :: 0 <= i < |history| ==> cmds[i] == history[i].command
  {
    seq(|history|, i requires 0 <= i < |history| => history[i].command)
  }

  /** The customer row after the first k commits. */
  function RowAfter(limit: int, w: World, k: nat): Customer
    requires k <= |w.history|
  {
    Installed(NewCustomer(limit), Commands(w.history[..k]))
  }

  // ---- What every step keeps ----

  /** What a transaction holding the lock has built so far is what the posting rule gives on the committed row. */
  ghost predicate HoldingOk(w: World, t: TxId, ps: seq<Posting>, stage: Stage)
    requires stage.Holding?
  {
    var done := if stage.half then |stage.rows| - 1 else |stage.rows|;
    && w.lock == Some(t) && !w.row.deleted
    && 0 <= done <= |stage.rows| <= |ps|
    && PostAll(w.row, ps[..done])
       == Ok(w.row.(balance := stage.cached, ledger := w.row.ledger + stage.rows[..done]))
    && (stage.half ==>
          && stage.rows[done] == Entry(ps[done], stage.cached, stage.cached + Delta(ps[done]))
          && !OverLimit(w.row.creditLimit, ps[done], stage.rows[done].after))
  }

  ghost predicate StageOk(limit: int, reqs: Requests, w: World, t: TxId) {
    match StageOf(w, t)
    case Fresh => true
    case Holding(_, _, _) => t in reqs && reqs[t].Transact? && HoldingOk(w, t, reqs[t].postings, StageOf(w, t))
    case Checked(k) => t in reqs && reqs[t].SoftDelete? && k <= |w.history| && RowAfter(limit, w, k).balance == 0
    case Marked(k) =>
      && t in reqs && reqs[t].SoftDelete? && k <= |w.history| && RowAfter(limit, w, k).balance == 0
      && w.lock == Some(t)
    case Finished(committed) => committed <==> exists i :: 0 <= i < |w.history| && w.history[i].tx == t
  }

  ghost predicate CommitOk(limit: int, reqs: Requests, w: World, j: nat)
    requires j < |w.history|
  {
    var h := w.history[j];
    && h.tx in reqs && h.command == reqs[h.tx]
    && StageOf(w, h.tx) == Finished(true)
    && (h.command.Transact? ==> PostAll(RowAfter(limit, w, j), h.command.postings).Ok?)
    && (h.command.SoftDelete? ==> h.readAt <= j && RowAfter(limit, w, h.readAt).balance == 0)
  }

  ghost predicate Inv(limit: int, reqs: Requests, w: World) {
    && w.row == RowAfter(limit, w, |w.history|)
    && (forall t :: StageOk(limit, reqs, w, t))
    && (forall j :: 0 <= j < |w.history| ==> CommitOk(limit, reqs, w, j))
    && (forall i, j :: 0 <= i < j < |w.history| ==> w.history[i].tx != w.history[j].tx)
    && (w.lock.Some? ==> StageOf(w, w.lock.value).Holding? || StageOf(w, w.lock.value).Marked?)
  }

  lemma RowAfterPrefix(limit: int, w: World, w': World, k: nat)
    requires k <= |w.history| && w.history <= w'.history
    ensures RowAfter(limit, w', k) == RowAfter(limit, w, k)
  {
    assert w'.history[..k] == w.history[..k];
  }

  /** w' is w after a step of t that commits nothing. */
  ghost predicate OnlyMoves(w: World, w': World, t: TxId) {
    && w'.row == w.row && w'.history == w.history
    && (forall u :: u != t ==> StageOf(w', u) == StageOf(w, u))
    && (w'.lock == w.lock || ((w.lock == None || w.lock == Some(t)) && (w'.lock == None || w'.lock == Some(t))))
  }

  lemma MoveKeepsInv(limit: int, reqs: Requests, w: World, w': World, t: TxId)
    requires Inv(limit, reqs, w) && OnlyMoves(w, w', t)
    requires !StageOf(w, t).Finished?
    requires StageOk(limit, reqs, w', t)
    requires w'.lock == Some(t) <==> StageOf(w', t).Holding? || StageOf(w', t).Marked?
    ensures Inv(limit, reqs, w')
  {
    assert StageOk(limit, reqs, w, t);
    forall u ensures StageOk(limit, reqs, w', u) {
      assert StageOk(limit, reqs, w, u);
      if u != t && StageOf(w, u).Checked? {
        RowAfterPrefix(limit, w, w', StageOf(w, u).readAt);
      }
    }
    forall j | 0 <= j < |w'.history| ensures CommitOk(limit, reqs, w', j) {
      assert CommitOk(limit, reqs, w, j);
      assert w'.history[..j] == w.history[..j];
    }
    if w'.lock.Some? && w'.lock.value != t {
      assert w'.lock == w.lock;
    }
  }

  lemma AbortKeepsInv(limit: int, reqs: Requests, w: World, t: TxId)
    requires Inv(limit, reqs, w) && !StageOf(w, t).Finished?
    ensures Inv(limit, reqs, End(w, t, false))
  {
    var w' := End(w, t, false);
    forall i | 0 <= i < |w.history| ensures w.history[i].tx != t {
      assert CommitOk(limit, reqs, w, i);
    }
    MoveKeepsInv(limit, reqs, w, w', t);
  }

  /** w' is w after t, holding the lock, has committed h. */
  ghost predicate Commits(limit: int, reqs: Requests, w: World, w': World, t: TxId, h: Commitment) {
    && w.lock == Some(t) && !StageOf(w, t).Finished?
    && h.tx == t && t in reqs && h.command == reqs[t]
    && (h.command.Transact? ==> PostAll(w.row, h.command.postings).Ok?)
    && (h.command.SoftDelete? ==> h.readAt <= |w.history| && RowAfter(limit, w, h.readAt).balance == 0)
    && w' == End(w.(row := Install(w.row, h.command), history := w.history + [h]), t, true)
  }

  lemma CommitRow(limit: int, reqs: Requests, w: World, w': World, t: TxId, h: Commitment)
    requires Inv(limit, reqs, w) && Commits(limit, reqs, w, w', t, h)
    ensures w'.row == RowAfter(limit, w', |w'.history|)
  {
    var n := |w.history|;
    assert w'.history[..n + 1] == w'.history && w.history[..n] == w.history;
    assert Commands(w'.history) == Commands(w.history) + [h.command];
    assert Commands(w'.history)[..n] == Commands(w.history);
  }

  lemma CommitHistory(limit: int, reqs: Requests, w: World, w': World, t: TxId, h: Commitment, j: nat)
    requires Inv(limit, reqs, w) && Commits(limit, reqs, w, w', t, h) && j <= |w.history|
    ensures CommitOk(limit, reqs, w', j)
    ensures j < |w.history| ==> w'.history[j].tx != t
  {
    RowAfterPrefix(limit, w, w', j);
    if j < |w.history| {
      assert CommitOk(limit, reqs, w, j);
    }
    if w'.history[j].command.SoftDelete? {
      RowAfterPrefix(limit, w, w', w'.history[j].readAt);
    }
  }

  lemma CommitStage(limit: int, reqs: Requests, w: World, w': World, t: TxId, h: Commitment, u: TxId)
    requires Inv(limit, reqs, w) && Commits(limit, reqs, w, w', t, h)
    ensures StageOk(limit, reqs, w', u)
  {
    var n := |w.history|;
    assert StageOk(limit, reqs, w, u);
    if u == t {
      assert w'.history[n].tx == t;
    } else if StageOf(w, u).Checked? {
      RowAfterPrefix(limit, w, w', StageOf(w, u).readAt);
    } else if StageOf(w, u) == Finished(true) {
      var i :| 0 <= i < n && w.history[i].tx == u;
      assert w'.history[i].tx == u;
    } else if StageOf(w, u) == Finished(false) {
      assert forall i :: 0 <= i < n ==> w'.history[i] == w.history[i];
    }
  }

  lemma CommitKeepsInv(limit: int, reqs: Requests, w: World, w': World, t: TxId, h: Commitment)
    requires Inv(limit, reqs, w) && Commits(limit, reqs, w, w', t, h)
    ensures Inv(limit, reqs, w')
  {
    CommitRow(limit, reqs, w, w', t, h);
    forall j | 0 <= j < |w'.history|
      ensures CommitOk(limit, reqs, w', j) && (j < |w.history| ==> w'.history[j].tx != t)
    {
      CommitHistory(limit, reqs, w, w', t, h, j);
    }
    forall i, j | 0 <= i < j < |w'.history| ensures w'.history[i].tx != w'.history[j].tx {
      assert w'.history[i] == w.history[i];
    }
    forall u ensures StageOk(limit, reqs, w', u) {
      CommitStage(limit, reqs, w, w', t, h, u);
    }
  }

  lemma AppendKeepsInv(limit: int, reqs: Requests, w: World, t: TxId)
    requires Inv(limit, reqs, w) && t in reqs
    ensures Inv(limit, reqs, Step(reqs, w, t, Append))
  {
    assert StageOk(limit, reqs, w, t);
    var stage := StageOf(w, t);
    if stage.Holding? && !stage.half && |stage.rows| < |reqs[t].postings| {
      var p := reqs[t].postings[|stage.rows|];
      if OverLimit(w.row.creditLimit, p, stage.cached + Delta(p)) {
        AbortKeepsInv(limit, reqs, w, t);
      } else {
        var w' := AppendRow(w, t, stage.cached, stage.rows, p);
        assert stage.rows[..|stage.rows|] == stage.rows == StageOf(w', t).rows[..|stage.rows|];
        MoveKeepsInv(limit, reqs, w, w', t);
      }
    }
  }

  lemma WriteKeepsInv(limit: int, reqs: Requests, w: World, t: TxId)
    requires Inv(limit, reqs, w) && t in reqs
    ensures Inv(limit, reqs, Step(reqs, w, t, WriteBalance))
  {
    assert StageOk(limit, reqs, w, t);
    var stage := StageOf(w, t);
    if stage.Holding? && stage.half {
      var ps, n := reqs[t].postings, |stage.rows|;
      var w' := Step(reqs, w, t, WriteBalance);
      assert ps[..n][..n - 1] == ps[..n - 1];
      assert stage.rows[..n] == stage.rows == stage.rows[..n - 1] + [stage.rows[n - 1]];
      assert w.row.ledger + stage.rows == w.row.ledger + stage.rows[..n - 1] + [stage.rows[n - 1]];
      MoveKeepsInv(limit, reqs, w, w', t);
    }
  }

  lemma StepKeepsInv(limit: int, reqs: Requests, w: World, t: TxId, a: Action)
    requires Inv(limit, reqs, w)
    ensures Inv(limit, reqs, Step(reqs, w, t, a))
  {
    var w' := Step(reqs, w, t, a);
    assert StageOk(limit, reqs, w, t);
    var stage := StageOf(w, t);
    if t !in reqs || stage.Finished? {
    } else if a == Append {
      AppendKeepsInv(limit, reqs, w, t);
    } else if a == WriteBalance {
      WriteKeepsInv(limit, reqs, w, t);
    } else if a == Commit {
      if stage.Holding? && !stage.half && |stage.rows| == |reqs[t].postings| {
        assert stage.rows[..|stage.rows|] == stage.rows;
        assert reqs[t].postings[..|stage.rows|] == reqs[t].postings;
        CommitKeepsInv(limit, reqs, w, w', t, Commitment(t, reqs[t], |w.history|));
      } else if stage.Marked? {
        CommitKeepsInv(limit, reqs, w, w', t, Commitment(t, reqs[t], stage.readAt));
      }
    } else if w' == w {
    } else if StageOf(w', t) == Finished(false) {
      AbortKeepsInv(limit, reqs, w, t);
    } else {
      MoveKeepsInv(limit, reqs, w, w', t);
    }
  }

  lemma {:induction false} RunKeepsInv(limit: int, reqs: Requests, schedule: Schedule)
    ensures Inv(limit, reqs, Run(reqs, Start(limit), schedule))
  {
    if schedule == [] {
      assert Commands([]) == [];
      assert RowAfter(limit, Start(limit), 0) == NewCustomer(limit);
    } else {
      var (t, a) := schedule[|schedule| - 1];
      RunKeepsInv(limit, reqs, schedule[..|schedule| - 1]);
      StepKeepsInv(limit, reqs, Run(reqs, Start(limit), schedule[..|schedule| - 1]), t, a);
    }
  }

  // ---- Main results ----

  /** Under every interleaving the committed rows form a chain that ends in the stored balance, the balance is
      the sum of the signed amounts, and with routine postings it respects the credit limit. */
  lemma LedgerUnderLocks(limit: int, reqs: Requests, schedule: Schedule)
    ensures var row := Run(reqs, Start(limit), schedule).row;
            && Chained(row)
            && row.balance == SumBy(row.ledger, EntryDelta())
            && (limit > 0 && (forall t <- reqs :: RoutineCommand(reqs[t])) ==> row.balance <= limit)
  {
    var w := Run(reqs, Start(limit), schedule);
    RunKeepsInv(limit, reqs, schedule);
    var cmds := Commands(w.history);
    assert w.history[..|w.history|] == w.history;
    InstalledIsSafe(NewCustomer(limit), cmds);
    BalanceIsSum(w.row);
    if limit > 0 && forall t <- reqs :: RoutineCommand(reqs[t]) {
      forall cmd | cmd in cmds ensures RoutineCommand(cmd) {
        var j :| 0 <= j < |cmds| && cmds[j] == cmd;
        assert CommitOk(limit, reqs, w, j);
      }
      CreditLimitHolds(NewCustomer(limit), cmds);
    }
  }

  /** Under every interleaving, the balance was never over a positive limit if and only if every adjustment by hand
      found room for its amount. */
  lemma LimitUnderLocksIff(limit: int, reqs: Requests, schedule: Schedule)
    requires limit > 0 && forall t <- reqs :: PositiveCredits(reqs[t])
    ensures var row := Run(reqs, Start(limit), schedule).row; NeverOverLimit(row) <==> AdjustedWithinLimit(row)
  {
    var w := Run(reqs, Start(limit), schedule);
    RunKeepsInv(limit, reqs, schedule);
    var cmds := Commands(w.history);
    assert w.history[..|w.history|] == w.history;
    forall cmd | cmd in cmds ensures PositiveCredits(cmd) {
      var j :| 0 <= j < |cmds| && cmds[j] == cmd;
      assert CommitOk(limit, reqs, w, j);
    }
    NeverOverLimitIff(limit, cmds);
  }

  /** The postings of the committed transactions, in commit order. */
  function CommittedPostings(history: seq<Commitment>): seq<Posting> {
    if history == [] then []
    else
      var cmd := history[|history| - 1].command;
      CommittedPostings(history[..|history| - 1]) + (if cmd.Transact? then cmd.postings else [])
  }

  lemma RowAfterNext(limit: int, w: World, k: nat)
    requires k < |w.history|
    ensures RowAfter(limit, w, k + 1) == Install(RowAfter(limit, w, k), w.history[k].command)
  {
    assert Commands(w.history[..k + 1])[..k] == Commands(w.history[..k]);
  }

  lemma {:induction false} LedgerHoldsCommitted(limit: int, reqs: Requests, w: World, k: nat)
    requires Inv(limit, reqs, w) && k <= |w.history|
    ensures Postings(RowAfter(limit, w, k).ledger) == CommittedPostings(w.history[..k])
    ensures RowAfter(limit, w, k).balance == SumBy(CommittedPostings(w.history[..k]), PostingDelta())
  {
    if k > 0 {
      var h := w.history[k - 1];
      LedgerHoldsCommitted(limit, reqs, w, k - 1);
      assert CommitOk(limit, reqs, w, k - 1);
      assert w.history[..k][..k - 1] == w.history[..k - 1];
      RowAfterNext(limit, w, k - 1);
      var before := CommittedPostings(w.history[..k - 1]);
      if h.command.Transact? {
        PostAllAdds(RowAfter(limit, w, k - 1), h.command.postings);
        SumByConcat(before, h.command.postings, PostingDelta());
      } else {
        assert before + [] == before;
      }
    }
  }

  function Committers(history: seq<Commitment>): set<TxId> {
    set j | 0 <= j < |history| :: history[j].tx
  }

  lemma {:induction false} CommittersCount(history: seq<Commitment>)
    requires forall i, j :: 0 <= i < j < |history| ==> history[i].tx != history[j].tx
    ensures |Committers(history)| == |history|
  {
    if history != [] {
      var n := |history| - 1;
      CommittersCount(history[..n]);
      assert Committers(history) == Committers(history[..n]) + {history[n].tx};
    }
  }

  /** Aborted transactions leave no trace: the ledger is, posting by posting, what the transactions that report
      success asked for, each once, in commit order. */
  lemma OnlyCommittedLeaveATrace(limit: int, reqs: Requests, schedule: Schedule)
    ensures var w := Run(reqs, Start(limit), schedule);
            && Postings(w.row.ledger) == CommittedPostings(w.history)
            && (forall t :: StageOf(w, t) == Finished(true) <==> t in Committers(w.history))
            && |Committers(w.history)| == |w.history|
            && (forall j :: 0 <= j < |w.history| ==>
                  w.history[j].tx in reqs && w.history[j].command == reqs[w.history[j].tx])
  {
    var w := Run(reqs, Start(limit), schedule);
    RunKeepsInv(limit, reqs, schedule);
    assert w.history[..|w.history|] == w.history;
    LedgerHoldsCommitted(limit, reqs, w, |w.history|);
    CommittersCount(w.history);
    forall t ensures StageOf(w, t) == Finished(true) <==> t in Committers(w.history) {
      assert StageOk(limit, reqs, w, t);
      forall j | 0 <= j < |w.history| && w.history[j].tx == t ensures StageOf(w, t) == Finished(true) {
        assert CommitOk(limit, reqs, w, j);
      }
    }
    forall j | 0 <= j < |w.history|
      ensures w.history[j].tx in reqs && w.history[j].command == reqs[w.history[j].tx]
    {
      assert CommitOk(limit, reqs, w, j);
    }
  }

  /** Under every interleaving, nothing changes a deleted customer's row or ledger. */
  lemma {:induction false} DeletedStaysFrozen(limit: int, reqs: Requests, first: Schedule, later: Schedule)
    requires Run(reqs, Start(limit), first).row.deleted
    ensures Run(reqs, Start(limit), first + later).row == Run(reqs, Start(limit), first).row
  {
    if later == [] {
      assert first + later == first;
    } else {
      var n := |later| - 1;
      var (t, a) := later[n];
      DeletedStaysFrozen(limit, reqs, first, later[..n]);
      assert (first + later)[..|first + later| - 1] == first + later[..n];
      var w := Run(reqs, Start(limit), first + later[..n]);
      RunKeepsInv(limit, reqs, first + later[..n]);
      assert StageOk(limit, reqs, w, t);
      assert (first + later)[|first + later| - 1] == (t, a);
    }
  }

  /** The first deletion in commit order, if any. */
  ghost predicate FirstDeletion(w: World, j: nat) {
    && j < |w.history| && w.history[j].command.SoftDelete?
    && forall i :: 0 <= i < j ==> w.history[i].command.Transact?
  }

  lemma {:induction false} NoDeletionSerial(limit: int, reqs: Requests, w: World, k: nat)
    requires Inv(limit, reqs, w) && k <= |w.history|
    requires forall i :: 0 <= i < k ==> w.history[i].command.Transact?
    ensures Serial(NewCustomer(limit), Commands(w.history[..k])) == RowAfter(limit, w, k)
    ensures !RowAfter(limit, w, k).deleted
  {
    if k > 0 {
      NoDeletionSerial(limit, reqs, w, k - 1);
      assert CommitOk(limit, reqs, w, k - 1);
      assert Commands(w.history[..k])[..k - 1] == Commands(w.history[..k - 1]);
      PostAllIsSafe(RowAfter(limit, w, k - 1), w.history[k - 1].command.postings);
    } else {
      assert Commands(w.history[..0]) == [];
    }
  }

  lemma {:induction false} AfterDeletion(limit: int, w: World, j: nat, k: nat)
    requires FirstDeletion(w, j) && j < k <= |w.history|
    ensures RowAfter(limit, w, k) == RowAfter(limit, w, j).(deleted := true)
    ensures Serial(NewCustomer(limit), Commands(w.history[..j])) == RowAfter(limit, w, j)
            && !RowAfter(limit, w, j).deleted && RowAfter(limit, w, j).balance == 0 ==>
              Serial(NewCustomer(limit), Commands(w.history[..k])) == RowAfter(limit, w, k)
  {
    RowAfterNext(limit, w, k - 1);
    assert Commands(w.history[..k])[..k - 1] == Commands(w.history[..k - 1]);
    if k > j + 1 {
      AfterDeletion(limit, w, j, k - 1);
      var c, cmd := RowAfter(limit, w, k - 1), w.history[k - 1].command;
      InstallIsSafe(c, cmd);
      if cmd.Transact? && PostAll(c, cmd.postings).Ok? {
        PostAllIsSafe(c, cmd.postings);
      }
    }
  }

  lemma {:induction false} CommittedConcat(a: seq<Commitment>, b: seq<Commitment>)
    ensures CommittedPostings(a + b) == CommittedPostings(a) + CommittedPostings(b)
  {
    if b == [] {
      assert a + b == a;
    } else {
      assert (a + b)[..|a + b| - 1] == a + b[..|b| - 1];
      CommittedConcat(a, b[..|b| - 1]);
    }
  }

  lemma CommittedSplit(history: seq<Commitment>, k: nat, j: nat)
    requires k <= j <= |history|
    ensures SumBy(CommittedPostings(history[..j]), PostingDelta())
            == SumBy(CommittedPostings(history[..k]), PostingDelta())
               + SumBy(CommittedPostings(history[k..j]), PostingDelta())
  {
    assert history[..k] + history[k..j] == history[..j];
    CommittedConcat(history[..k], history[k..j]);
    SumByConcat(CommittedPostings(history[..k]), CommittedPostings(history[k..j]), PostingDelta());
  }

  /** Between two commits the balance moves by what was committed between them. */
  lemma BalanceMoves(limit: int, reqs: Requests, w: World, k: nat, j: nat)
    requires Inv(limit, reqs, w) && k <= j <= |w.history|
    ensures RowAfter(limit, w, j).balance
            == RowAfter(limit, w, k).balance + SumBy(CommittedPostings(w.history[k..j]), PostingDelta())
  {
    LedgerHoldsCommitted(limit, reqs, w, j);
    LedgerHoldsCommitted(limit, reqs, w, k);
    CommittedSplit(w.history, k, j);
  }

  lemma DeletedBalanceAt(limit: int, reqs: Requests, w: World, j: nat)
    requires Inv(limit, reqs, w) && FirstDeletion(w, j)
    ensures w.history[j].readAt <= j && w.row == RowAfter(limit, w, j).(deleted := true)
    ensures w.row.balance == SumBy(CommittedPostings(w.history[w.history[j].readAt..j]), PostingDelta())
  {
    assert CommitOk(limit, reqs, w, j);
    AfterDeletion(limit, w, j, |w.history|);
    BalanceMoves(limit, reqs, w, w.history[j].readAt, j);
  }

  /** A deleted customer's balance is what was committed between the deletion's read and its commit. */
  lemma DeletedBalance(limit: int, reqs: Requests, schedule: Schedule, j: nat)
    requires FirstDeletion(Run(reqs, Start(limit), schedule), j)
    ensures var w := Run(reqs, Start(limit), schedule);
            && w.history[j].readAt <= j
            && w.row.deleted
            && w.row.balance == SumBy(CommittedPostings(w.history[w.history[j].readAt..j]), PostingDelta())
  {
    RunKeepsInv(limit, reqs, schedule);
    DeletedBalanceAt(limit, reqs, Run(reqs, Start(limit), schedule), j);
  }

  /** With no deletion, every interleaving ends in the row that serving the committed requests one at a time, in
      commit order, would give. */
  lemma SerializableWithoutDeletion(limit: int, reqs: Requests, schedule: Schedule)
    requires forall h <- Run(reqs, Start(limit), schedule).history :: h.command.Transact?
    ensures var w := Run(reqs, Start(limit), schedule);
            w.row == Serial(NewCustomer(limit), Commands(w.history))
  {
    var w := Run(reqs, Start(limit), schedule);
    RunKeepsInv(limit, reqs, schedule);
    assert w.history[..|w.history|] == w.history;
    NoDeletionSerial(limit, reqs, w, |w.history|);
  }

  lemma SerializableAt(limit: int, reqs: Requests, w: World, j: nat)
    requires Inv(limit, reqs, w) && FirstDeletion(w, j)
    ensures w.history[j].readAt <= j
    ensures w.row == Serial(NewCustomer(limit), Commands(w.history)) <==>
              SumBy(CommittedPostings(w.history[w.history[j].readAt..j]), PostingDelta()) == 0
  {
    assert w.history[..|w.history|] == w.history;
    DeletedBalanceAt(limit, reqs, w, j);
    NoDeletionSerial(limit, reqs, w, j);
    AfterDeletion(limit, w, j, |w.history|);
    SerialIsSafe(limit, Commands(w.history));
  }

  /** With a deletion, it does if and only if what was committed between the first deletion's read and its commit
      nets to zero. */
  lemma SerializableIff(limit: int, reqs: Requests, schedule: Schedule, j: nat)
    requires FirstDeletion(Run(reqs, Start(limit), schedule), j)
    ensures var w := Run(reqs, Start(limit), schedule);
            && w.history[j].readAt <= j
            && (w.row == Serial(NewCustomer(limit), Commands(w.history)) <==>
                  SumBy(CommittedPostings(w.history[w.history[j].readAt..j]), PostingDelta()) == 0)
  {
    RunKeepsInv(limit, reqs, schedule);
    SerializableAt(limit, reqs, Run(reqs, Start(limit), schedule), j);
  }

  lemma RunSnoc(reqs: Requests, w: World, schedule: Schedule, t: TxId, a: Action)
    ensures Run(reqs, w, schedule + [(t, a)]) == Step(reqs, Run(reqs, w, schedule), t, a)
  {
    assert (schedule + [(t, a)])[..|schedule|] == schedule;
  }

  // ---- Requests are served ----

  /** The steps of k postings, one after the other. */
  function PostingSteps(t: TxId, k: nat): Schedule {
    if k == 0 then [(t, Acquire)] else PostingSteps(t, k - 1) + [(t, Append)] + [(t, WriteBalance)]
  }

  /** A request's steps, undisturbed. */
  function Script(t: TxId, cmd: Command): Schedule {
    match cmd
    case Transact(ps) => PostingSteps(t, |ps|) + [(t, Commit)]
    case SoftDelete => [(t, ReadForDelete)] + [(t, MarkDeleted)] + [(t, Commit)]
  }

  /** Transaction t has ended, and has changed nothing but that. */
  ghost predicate Refused(w: World, w': World, t: TxId) {
    && w'.row == w.row && w'.lock == None && w'.history == w.history
    && StageOf(w', t) == Finished(false)
  }

  /** It has posted the first k postings, and nothing is committed yet. */
  ghost predicate Posted(w: World, w': World, t: TxId, ps: seq<Posting>)
    requires PostAll(w.row, ps).Ok?
  {
    && w'.row == w.row && w'.lock == Some(t) && w'.history == w.history
    && var stage := StageOf(w', t);
       && stage.Holding? && !stage.half && |stage.rows| == |ps|
       && PostAll(w.row, ps).customer == w.row.(balance := stage.cached, ledger := w.row.ledger + stage.rows)
  }

  /** What these postings have come to. */
  ghost predicate Served(w: World, w': World, t: TxId, ps: seq<Posting>) {
    if PostAll(w.row, ps).Ok? then Posted(w, w', t, ps) else Refused(w, w', t)
  }

  /** One more posting is inserted and written back, or refused. */
  lemma OnePosting(reqs: Requests, w: World, w': World, t: TxId, k: nat)
    requires t in reqs && reqs[t].Transact? && k < |reqs[t].postings|
    requires PostAll(w.row, reqs[t].postings[..k]).Ok? && Posted(w, w', t, reqs[t].postings[..k])
    ensures Served(w, Step(reqs, Step(reqs, w', t, Append), t, WriteBalance), t, reqs[t].postings[..k + 1])
  {
    var ps, stage := reqs[t].postings, StageOf(w', t);
    assert ps[..k + 1][..k] == ps[..k];
    PostAllIsSafe(w.row, ps[..k]);
    var e := Entry(ps[k], stage.cached, stage.cached + Delta(ps[k]));
    assert w.row.ledger + (stage.rows + [e]) == w.row.ledger + stage.rows + [e];
  }

  lemma NoPosting(reqs: Requests, w: World, w': World, t: TxId, k: nat)
    requires t in reqs && reqs[t].Transact? && k < |reqs[t].postings|
    requires PostAll(w.row, reqs[t].postings[..k]).Err? && Refused(w, w', t)
    ensures Served(w, Step(reqs, Step(reqs, w', t, Append), t, WriteBalance), t, reqs[t].postings[..k + 1])
  {
    assert reqs[t].postings[..k + 1][..k] == reqs[t].postings[..k];
  }

  lemma NextPosting(reqs: Requests, w: World, t: TxId, k: nat)
    requires t in reqs && reqs[t].Transact? && 0 < k <= |reqs[t].postings|
    requires Served(w, Run(reqs, w, PostingSteps(t, k - 1)), t, reqs[t].postings[..k - 1])
    ensures Served(w, Run(reqs, w, PostingSteps(t, k)), t, reqs[t].postings[..k])
  {
    RunSnoc(reqs, w, PostingSteps(t, k - 1), t, Append);
    RunSnoc(reqs, w, PostingSteps(t, k - 1) + [(t, Append)], t, WriteBalance);
    if PostAll(w.row, reqs[t].postings[..k - 1]).Ok? {
      OnePosting(reqs, w, Run(reqs, w, PostingSteps(t, k - 1)), t, k - 1);
    } else {
      NoPosting(reqs, w, Run(reqs, w, PostingSteps(t, k - 1)), t, k - 1);
    }
  }

  lemma Acquired(reqs: Requests, w: World, t: TxId)
    requires t in reqs && reqs[t].Transact? && w.lock == None && StageOf(w, t) == Fresh
    ensures Served(w, Run(reqs, w, PostingSteps(t, 0)), t, reqs[t].postings[..0])
  {
    RunSnoc(reqs, w, [], t, Acquire);
    assert PostingSteps(t, 0) == [] + [(t, Acquire)];
    assert w.row.ledger + [] == w.row.ledger;
  }

  lemma {:induction false} PostingsRun(reqs: Requests, w: World, t: TxId, k: nat)
    requires t in reqs && reqs[t].Transact? && k <= |reqs[t].postings|
    requires w.lock == None && StageOf(w, t) == Fresh
    ensures Served(w, Run(reqs, w, PostingSteps(t, k)), t, reqs[t].postings[..k])
  {
    if k == 0 {
      Acquired(reqs, w, t);
    } else {
      PostingsRun(reqs, w, t, k - 1);
      NextPosting(reqs, w, t, k);
    }
  }

  /** From any world with the lock free, a new posting request that runs to its end undisturbed commits what the
      posting rule gives, or, where that is an error, changes nothing. */
  lemma TransactionIsServed(reqs: Requests, w: World, t: TxId)
    requires t in reqs && reqs[t].Transact? && w.lock == None && StageOf(w, t) == Fresh
    ensures var w' := Run(reqs, w, Script(t, reqs[t]));
            w'.lock == None
            && match PostAll(w.row, reqs[t].postings)
               case Ok(c) =>
                 && w'.row == c && StageOf(w', t) == Finished(true)
                 && w'.history == w.history + [Commitment(t, reqs[t], |w.history|)]
               case Err(_) => w'.row == w.row && StageOf(w', t) == Finished(false) && w'.history == w.history
  {
    var ps := reqs[t].postings;
    PostingsRun(reqs, w, t, |ps|);
    assert ps[..|ps|] == ps;
    RunSnoc(reqs, w, PostingSteps(t, |ps|), t, Commit);
  }

  /** And a new deletion deletes an active customer with a zero balance, and otherwise changes nothing. */
  lemma DeletionIsServed(reqs: Requests, w: World, t: TxId)
    requires t in reqs && reqs[t].SoftDelete? && w.lock == None && StageOf(w, t) == Fresh
    ensures var w' := Run(reqs, w, Script(t, reqs[t]));
            w'.lock == None
            && if !w.row.deleted && w.row.balance == 0
               then w'.row == w.row.(deleted := true) && StageOf(w', t) == Finished(true)
               else w'.row == w.row && StageOf(w', t) == Finished(false)
  {
    RunSnoc(reqs, w, [], t, ReadForDelete);
    assert [] + [(t, ReadForDelete)] == [(t, ReadForDelete)];
    RunSnoc(reqs, w, [(t, ReadForDelete)], t, MarkDeleted);
    RunSnoc(reqs, w, [(t, ReadForDelete)] + [(t, MarkDeleted)], t, Commit);
  }

  /** A request under way that is rolled back ends without a trace and releases the lock if it held it. */
  lemma RollbackReleases(reqs: Requests, w: World, t: TxId)
    requires t in reqs && !StageOf(w, t).Finished?
    ensures var w' := Step(reqs, w, t, Rollback);
            && StageOf(w', t) == Finished(false) && w'.row == w.row && w'.history == w.history
            && w'.lock == if w.lock == Some(t) then None else w.lock
  {
  }

  // ---- Only what must be is refused ----

  lemma {:induction false} ErrorStays(c: Customer, ps: seq<Posting>, k: nat)
    requires k <= |ps| && PostAll(c, ps[..k]).Err?
    ensures PostAll(c, ps).Err?
    decreases |ps| - k
  {
    if k < |ps| {
      assert ps[..k + 1][..k] == ps[..k];
      ErrorStays(c, ps, k + 1);
    } else {
      assert ps[..k] == ps;
    }
  }

  /** A step that ends a request without success, and is no rollback, finds a row on which the request fails. */
  lemma RefusalHasReason(limit: int, reqs: Requests, w: World, t: TxId, a: Action)
    requires Inv(limit, reqs, w) && t in reqs && a != Rollback
    requires !StageOf(w, t).Finished? && StageOf(Step(reqs, w, t, a), t) == Finished(false)
    ensures match reqs[t]
            case Transact(ps) => PostAll(w.row, ps).Err?
            case SoftDelete => w.row.deleted || w.row.balance != 0
  {
    assert StageOk(limit, reqs, w, t);
    if a == Append {
      var ps, k := reqs[t].postings, |StageOf(w, t).rows|;
      assert ps[..k + 1][..k] == ps[..k];
      ErrorStays(w.row, ps, k + 1);
    } else if a == Acquire {
      assert reqs[t].postings[..0] == [];
      ErrorStays(w.row, reqs[t].postings, 0);
    }
  }

  /** Step n of a schedule ended transaction t, which could not have gone through on the row committed then. */
  ghost predicate RefusedAt(reqs: Requests, start: World, schedule: Schedule, t: TxId, n: nat)
    requires n < |schedule| && t in reqs
  {
    var row := Run(reqs, start, schedule[..n]).row;
    && schedule[n].0 == t
    && match reqs[t]
       case Transact(ps) => PostAll(row, ps).Err?
       case SoftDelete => row.deleted || row.balance != 0
  }

  /** Under every interleaving, a request that ends without success, other than by a rollback of its own, was
      refused for a reason: on the row committed at that moment its postings fail, or the customer to be deleted was
      deleted already or had a balance. */
  lemma {:induction false} NothingElseIsRefused(limit: int, reqs: Requests, schedule: Schedule, t: TxId)
    requires t in reqs && StageOf(Run(reqs, Start(limit), schedule), t) == Finished(false)
    requires (t, Rollback) !in schedule
    ensures exists n :: 0 <= n < |schedule| && RefusedAt(reqs, Start(limit), schedule, t, n)
  {
    if schedule != [] {
      var n := |schedule| - 1;
      var w := Run(reqs, Start(limit), schedule[..n]);
      var (u, a) := schedule[n];
      assert (u, a) in schedule;
      if StageOf(w, t) == Finished(false) {
        NothingElseIsRefused(limit, reqs, schedule[..n], t);
        var m :| 0 <= m < n && RefusedAt(reqs, Start(limit), schedule[..n], t, m);
        assert schedule[..n][..m] == schedule[..m];
        assert RefusedAt(reqs, Start(limit), schedule, t, m);
      } else {
        RunKeepsInv(limit, reqs, schedule[..n]);
        assert u == t && a != Rollback && !StageOf(w, t).Finished?;
        RefusalHasReason(limit, reqs, w, t, a);
        assert RefusedAt(reqs, Start(limit), schedule, t, n);
      }
    }
  }

  // ---- A deletion overtaken ----

  /** A sale by transaction 1, from the moment transaction 0 has read a zero balance for its deletion. */
  lemma SaleCommits(p: Posting, reqs: Requests, w: World)
    requires p.entryType.SaleDebt?
    requires reqs == map[0 := SoftDelete, 1 := Transact([p])]
    requires w == World(NewCustomer(0), None, map[0 := Checked(0)], [])
    ensures var appended := Step(reqs, Step(reqs, w, 1, Acquire), 1, Append);
            var w' := Step(reqs, Step(reqs, appended, 1, WriteBalance), 1, Commit);
            StageOf(w', 0) == Checked(0) && w'.lock == None && w'.row.balance == p.amount && !w'.row.deleted
  {
    var w1 := Step(reqs, w, 1, Acquire);
    assert StageOf(w1, 1) == Holding(0, [], false);
    var w2 := Step(reqs, w1, 1, Append);
    assert StageOf(w2, 1) == Holding(0, [Entry(p, 0, p.amount)], true);
    var w3 := Step(reqs, w2, 1, WriteBalance);
    assert StageOf(w3, 1) == Holding(p.amount, [Entry(p, 0, p.amount)], false);
  }

  /** The unlocked read of a deletion can be overtaken: a sale of any amount committed between the read and the
      mark leaves a deleted customer that owes it. */
  lemma DeletionCanBeOvertaken(p: Posting) returns (reqs: Requests, schedule: Schedule)
    requires p.entryType.SaleDebt? && p.amount > 0
    ensures var row := Run(reqs, Start(0), schedule).row;
            row.deleted && row.balance == p.amount
  {
    reqs := map[0 := SoftDelete, 1 := Transact([p])];
    var w := Step(reqs, Start(0), 0, ReadForDelete);
    RunSnoc(reqs, Start(0), [], 0, ReadForDelete);
    schedule := [] + [(0, ReadForDelete)];
    assert Run(reqs, Start(0), schedule) == w;
    SaleCommits(p, reqs, w);
    RunSnoc(reqs, Start(0), schedule, 1, Acquire);
    schedule := schedule + [(1, Acquire)];
    RunSnoc(reqs, Start(0), schedule, 1, Append);
    schedule := schedule + [(1, Append)];
    RunSnoc(reqs, Start(0), schedule, 1, WriteBalance);
    schedule := schedule + [(1, WriteBalance)];
    RunSnoc(reqs, Start(0), schedule, 1, Commit);
    schedule := schedule + [(1, Commit)];
    RunSnoc(reqs, Start(0), schedule, 0, MarkDeleted);
    schedule := schedule + [(0, MarkDeleted)];
    RunSnoc(reqs, Start(0), schedule, 0, Commit);
    schedule := schedule + [(0, Commit)];
  }
}
