/** Sequential customer codes from a per-tenant counter row, under interleaved creations.
    A creation selects the counter row for update, inserts the row if there is none, increments it, inserts the
    customer and commits. The unique constraints on the counter's tenant and on the code abort a transaction. */
module CustomerCodes {
  import opened Common
  import opened Decimal

  const PREFIX := "CUS-"
  const CODE_DIGITS := 6

  function FormatCustomerCode(n: nat): string { PREFIX + Padded(n, CODE_DIGITS) }

  /** A code is the prefix and a number that reads back, of six digits below a million and of no more than it
      needs from there on. */
  lemma CodeRoundTrip(n: nat)
    ensures var code := FormatCustomerCode(n);
            && |code| >= 10 && code[..4] == "CUS-" && Value(code[4..]) == n
            && (n < 1_000_000 ==> |code| == 10)
            && (n >= 1_000_000 ==> code[4..] == Digits(n))
  {
    ReadPadded(n, CODE_DIGITS);
    assert FormatCustomerCode(n)[4..] == Padded(n, CODE_DIGITS);
    assert Pow10(2) == 100 && Pow10(4) == 10_000 && Pow10(6) == 1_000_000;
    if n < 1_000_000 {
      DigitCount(n, 6);
    } else {
      ManyDigits(n, 7);
    }
  }

  lemma CodesAreInjective(m: nat, n: nat)
    requires FormatCustomerCode(m) == FormatCustomerCode(n)
    ensures m == n
  {
    CodeRoundTrip(m);
    CodeRoundTrip(n);
  }

  type TxId = nat

  datatype Stage =
    | Fresh
    | NoCounter                         // the select found no row
    | Locked(lastSeq: nat)
    | Numbered(lastSeq: nat)
    | Created(lastSeq: nat, code: string)
    | Finished(committed: bool)

  datatype Action = Select | InsertCounter | Increment | InsertCustomer | Commit | Rollback | SoftDelete(index: nat)

  datatype CustomerRow = CustomerRow(tx: TxId, code: string, deleted: bool)

  /** counter and customers are what is committed. holder has locked the counter row, or inserted it without
      having committed it yet. */
  datatype World = World(counter: Option<nat>, holder: Option<TxId>, stages: map<TxId, Stage>,
                         customers: seq<CustomerRow>)

  const START := World(None, None, map[], [])

  function StageOf(w: World, t: TxId): Stage {
    if t in w.stages then w.stages[t] else Fresh
  }

  function At(w: World, t: TxId, stage: Stage): World {
    w.(stages := w.stages[t := stage])
  }

  function End(w: World, t: TxId, committed: bool): World {
    At(w.(holder := if w.holder == Some(t) then None else w.holder), t, Finished(committed))
  }

  predicate CodeTaken(w: World, code: string) {
    exists i :: 0 <= i < |w.customers| && w.customers[i].code == code
  }

  /** One step of creation t. A step that is not enabled changes nothing: the transaction waits. */
  function Step(w: World, t: TxId, a: Action): World {
    match (StageOf(w, t), a)
    case (Fresh, Select) =>
      if w.counter.None? then At(w, t, NoCounter)
      else if w.holder != None then w
      else At(w.(holder := Some(t)), t, Locked(w.counter.value))
    case (NoCounter, InsertCounter) =>
      if w.holder != None then w
      else if w.counter.Some? then End(w, t, false)
      else At(w.(holder := Some(t)), t, Locked(0))
    case (Locked(n), Increment) => At(w, t, Numbered(n + 1))
    case (Numbered(n), InsertCustomer) =>
      var code := FormatCustomerCode(n);
      if CodeTaken(w, code) then End(w, t, false) else At(w, t, Created(n, code))
    case (Created(n, code), Commit) =>
      End(w.(counter := Some(n), customers := w.customers + [CustomerRow(t, code, false)]), t, true)
    case (Finished(_), Rollback) => w
    case (_, Rollback) => End(w, t, false)
    case (_, SoftDelete(i)) =>
      if i < |w.customers| then w.(customers := w.customers[i := w.customers[i].(deleted := true)]) else w
    case _ => w
  }

  type Schedule = seq<(TxId, Action)>

  function Run(w: World, schedule: Schedule): World {
    if schedule == [] then w
    else
      var (t, a) := schedule[|schedule| - 1];
      Step(Run(w, schedule[..|schedule| - 1]), t, a)
  }

  function LastSeq(w: World): nat {
    if w.counter.Some? then w.counter.value else 0
  }

  /** Creation t made one of the committed customers. */
  predicate Made(w: World, t: TxId) {
    exists i :: 0 <= i < |w.customers| && w.customers[i].tx == t
  }

  ghost predicate StageOk(w: World, t: TxId) {
    match StageOf(w, t)
    case Locked(n) => w.holder == Some(t) && n == LastSeq(w)
    case Numbered(n) => w.holder == Some(t) && n == LastSeq(w) + 1
    case Created(n, code) => w.holder == Some(t) && n == LastSeq(w) + 1 && code == FormatCustomerCode(n)
    case Finished(committed) => committed <==> Made(w, t)
    case _ => w.holder != Some(t)
  }

  /** The i-th committed customer, deleted or not, holds the code for i + 1, and they come from distinct creations. */
  ghost predicate CodesInOrder(w: World) {
    && |w.customers| == LastSeq(w)
    && (forall i :: 0 <= i < |w.customers| ==>
          && w.customers[i].code == FormatCustomerCode(i + 1)
          && StageOf(w, w.customers[i].tx) == Finished(true))
    && (forall i, j :: 0 <= i < j < |w.customers| ==> w.customers[i].tx != w.customers[j].tx)
  }

  ghost predicate Inv(w: World) {
    CodesInOrder(w) && forall t :: StageOk(w, t)
  }

  lemma NextCodeIsFree(w: World)
    requires CodesInOrder(w)
    ensures !CodeTaken(w, FormatCustomerCode(LastSeq(w) + 1))
  {
    forall i | 0 <= i < |w.customers| ensures w.customers[i].code != FormatCustomerCode(LastSeq(w) + 1) {
      if w.customers[i].code == FormatCustomerCode(LastSeq(w) + 1) {
        CodesAreInjective(i + 1, LastSeq(w) + 1);
      }
    }
  }

  lemma MoveKeepsInv(w: World, w': World, t: TxId)
    requires Inv(w) && !StageOf(w, t).Finished? && StageOk(w', t)
    requires w'.counter == w.counter && w'.customers == w.customers
    requires forall u :: u != t ==> StageOf(w', u) == StageOf(w, u)
    requires || w'.holder == w.holder
             || ((w.holder == None || w.holder == Some(t)) && (w'.holder == None || w'.holder == Some(t)))
    ensures Inv(w')
  {
    assert StageOk(w, t);
    forall u ensures StageOk(w', u) {
      assert StageOk(w, u);
    }
  }

  lemma CommitKeepsInv(w: World, t: TxId)
    requires Inv(w) && StageOf(w, t).Created?
    ensures Inv(Step(w, t, Commit))
  {
    var w' := Step(w, t, Commit);
    var n := |w.customers|;
    assert StageOk(w, t);
    assert forall i :: 0 <= i < n ==> w'.customers[i] == w.customers[i];
    forall u ensures StageOk(w', u) {
      assert StageOk(w, u);
      if u == t {
        assert w'.customers[n].tx == t;
      } else if StageOf(w, u) == Finished(true) {
        var i :| 0 <= i < n && w.customers[i].tx == u;
        assert w'.customers[i].tx == u;
      }
    }
  }

  lemma DeleteKeepsInv(w: World, w': World, k: nat)
    requires Inv(w) && k < |w.customers|
    requires w' == w.(customers := w.customers[k := w.customers[k].(deleted := true)])
    ensures Inv(w')
  {
    assert forall i :: 0 <= i < |w.customers| ==>
      w'.customers[i].tx == w.customers[i].tx && w'.customers[i].code == w.customers[i].code;
    forall u ensures StageOk(w', u) {
      assert StageOk(w, u);
      if StageOf(w, u) == Finished(true) {
        var i :| 0 <= i < |w.customers| && w.customers[i].tx == u;
        assert w'.customers[i].tx == u;
      }
    }
  }

  lemma StepKeepsInv(w: World, t: TxId, a: Action)
    requires Inv(w)
    ensures Inv(Step(w, t, a))
  {
    var w' := Step(w, t, a);
    assert StageOk(w, t);
    NextCodeIsFree(w);
    if w' == w {
    } else if a.SoftDelete? {
      DeleteKeepsInv(w, w', a.index);
    } else if a == Commit {
      CommitKeepsInv(w, t);
    } else {
      MoveKeepsInv(w, w', t);
    }
  }

  lemma {:induction false} RunKeepsInv(schedule: Schedule)
    ensures Inv(Run(START, schedule))
  {
    if schedule != [] {
      RunKeepsInv(schedule[..|schedule| - 1]);
      var (t, a) := schedule[|schedule| - 1];
      StepKeepsInv(Run(START, schedule[..|schedule| - 1]), t, a);
    }
  }

  // ---- Creations are served ----

  lemma RunSnoc(w: World, schedule: Schedule, t: TxId, a: Action)
    ensures Run(w, schedule + [(t, a)]) == Step(Run(w, schedule), t, a)
  {
    assert (schedule + [(t, a)])[..|schedule|] == schedule;
  }

  /** A creation's steps, undisturbed. */
  function Script(w: World, t: TxId): Schedule {
    (if w.counter.Some? then [(t, Select)] else [(t, Select)] + [(t, InsertCounter)])
    + [(t, Increment)] + [(t, InsertCustomer)] + [(t, Commit)]
  }

  /** It locks the counter row, or inserts it. */
  lemma CounterLocked(w: World, t: TxId, locking: Schedule)
    requires w.holder == None && StageOf(w, t) == Fresh
    requires locking == if w.counter.Some? then [(t, Select)] else [(t, Select)] + [(t, InsertCounter)]
    ensures Run(w, locking) == w.(holder := Some(t), stages := w.stages[t := Locked(LastSeq(w))])
  {
    RunSnoc(w, [], t, Select);
    assert [] + [(t, Select)] == [(t, Select)];
    if w.counter.None? {
      RunSnoc(w, [(t, Select)], t, InsertCounter);
      assert w.stages[t := NoCounter][t := Locked(0)] == w.stages[t := Locked(0)];
    }
  }

  /** With the counter locked, a creation numbers and inserts its customer, and commits it. */
  lemma LockedSteps(v: World, t: TxId, n: nat)
    requires v.holder == Some(t) && StageOf(v, t) == Locked(n) && !CodeTaken(v, FormatCustomerCode(n + 1))
    ensures var w' := Step(Step(Step(v, t, Increment), t, InsertCustomer), t, Commit);
            && w'.customers == v.customers + [CustomerRow(t, FormatCustomerCode(n + 1), false)]
            && w'.counter == Some(n + 1) && w'.holder == None && StageOf(w', t) == Finished(true)
  {
    var v' := Step(v, t, Increment);
    assert v' == At(v, t, Numbered(n + 1)) && !CodeTaken(v', FormatCustomerCode(n + 1));
    var v'' := Step(v', t, InsertCustomer);
    assert v'' == At(v', t, Created(n + 1, FormatCustomerCode(n + 1)));
  }

  lemma LockedIsServed(w: World, t: TxId, locking: Schedule, n: nat)
    requires Run(w, locking).holder == Some(t) && StageOf(Run(w, locking), t) == Locked(n)
    requires !CodeTaken(Run(w, locking), FormatCustomerCode(n + 1))
    ensures var w' := Run(w, locking + [(t, Increment)] + [(t, InsertCustomer)] + [(t, Commit)]);
            && w'.customers == Run(w, locking).customers + [CustomerRow(t, FormatCustomerCode(n + 1), false)]
            && w'.counter == Some(n + 1) && w'.holder == None && StageOf(w', t) == Finished(true)
  {
    RunSnoc(w, locking, t, Increment);
    RunSnoc(w, locking + [(t, Increment)], t, InsertCustomer);
    RunSnoc(w, locking + [(t, Increment)] + [(t, InsertCustomer)], t, Commit);
    LockedSteps(Run(w, locking), t, n);
  }

  /** From any state that can be reached, with nobody holding the counter, a new creation that runs to its end
      undisturbed commits a customer with the next code, and the counter with its number. */
  lemma CreationIsServed(schedule: Schedule, t: TxId)
    requires var w := Run(START, schedule); w.holder == None && StageOf(w, t) == Fresh
    ensures var w := Run(START, schedule);
            var w' := Run(w, Script(w, t));
            && w'.customers == w.customers + [CustomerRow(t, FormatCustomerCode(|w.customers| + 1), false)]
            && w'.counter == Some(|w.customers| + 1) && w'.holder == None && StageOf(w', t) == Finished(true)
  {
    var w := Run(START, schedule);
    RunKeepsInv(schedule);
    NextCodeIsFree(w);
    var locking := if w.counter.Some? then [(t, Select)] else [(t, Select)] + [(t, InsertCounter)];
    CounterLocked(w, t, locking);
    LockedIsServed(w, t, locking, LastSeq(w));
  }

  /** Step n of a schedule is creation t's attempt to insert the counter row that another had inserted since. */
  ghost predicate LostRace(schedule: Schedule, t: TxId, n: nat)
    requires n < |schedule|
  {
    schedule[n] == (t, InsertCounter) && StageOf(Run(START, schedule[..n]), t) == NoCounter
    && Run(START, schedule[..n]).counter.Some?
  }

  /** Over every interleaving, a creation that ends without success, other than by a rollback of its own, lost the race
      to insert the counter row. */
  lemma {:induction false} OnlyRacesAreLost(schedule: Schedule, t: TxId)
    requires StageOf(Run(START, schedule), t) == Finished(false) && (t, Rollback) !in schedule
    ensures exists n :: 0 <= n < |schedule| && LostRace(schedule, t, n)
  {
    if schedule != [] {
      var n := |schedule| - 1;
      var w := Run(START, schedule[..n]);
      var (u, a) := schedule[n];
      assert (u, a) in schedule;
      if StageOf(w, t) == Finished(false) {
        OnlyRacesAreLost(schedule[..n], t);
        var m :| 0 <= m < n && LostRace(schedule[..n], t, m);
        assert schedule[..n][..m] == schedule[..m];
        assert LostRace(schedule, t, m);
      } else {
        RunKeepsInv(schedule[..n]);
        NextCodeIsFree(w);
        assert StageOk(w, t) && u == t && a != Rollback;
        assert LostRace(schedule, t, n);
      }
    }
  }

  /** A creation under way that is rolled back ends without a trace, and releases the counter if it held it. */
  lemma RollbackReleases(w: World, t: TxId)
    requires !StageOf(w, t).Finished?
    ensures var w' := Step(w, t, Rollback);
            && StageOf(w', t) == Finished(false) && w'.customers == w.customers && w'.counter == w.counter
            && w'.holder == if w.holder == Some(t) then None else w.holder
  {
  }

  /** Deleting a customer marks its row, which keeps its code, and changes nothing else. */
  lemma DeletionKeepsCode(w: World, t: TxId, i: nat)
    requires i < |w.customers|
    ensures var w' := Step(w, t, SoftDelete(i));
            && w'.counter == w.counter && w'.holder == w.holder && w'.stages == w.stages
            && |w'.customers| == |w.customers|
            && w'.customers[i].deleted && w'.customers[i].code == w.customers[i].code
            && forall j :: 0 <= j < |w.customers| && j != i ==> w'.customers[j] == w.customers[j]
  {
  }

  // ---- Main result ----

  /** Over every interleaving of creations, deletions and rollbacks, the tenant's committed customers, deleted ones
      included, hold exactly the codes for 1 to last_seq, once each and in commit order; each committed creation
      made one of them, and no creation ever runs into the unique constraint on the code. */
  lemma CodesAreExact(schedule: Schedule)
    ensures var w := Run(START, schedule);
            && |w.customers| == LastSeq(w)
            && (forall i :: 0 <= i < |w.customers| ==> w.customers[i].code == FormatCustomerCode(i + 1))
            && (forall i, j :: 0 <= i < j < |w.customers| ==>
                  w.customers[i].code != w.customers[j].code && w.customers[i].tx != w.customers[j].tx)
            && (forall t :: StageOf(w, t) == Finished(true) <==> Made(w, t))
            && (forall t :: StageOf(w, t).Numbered? ==> !CodeTaken(w, FormatCustomerCode(StageOf(w, t).lastSeq)))
  {
    var w := Run(START, schedule);
    RunKeepsInv(schedule);
    NextCodeIsFree(w);
    forall i, j | 0 <= i < j < |w.customers| ensures w.customers[i].code != w.customers[j].code {
      if w.customers[i].code == w.customers[j].code {
        CodesAreInjective(i + 1, j + 1);
      }
    }
    forall t ensures StageOf(w, t) == Finished(true) <==> Made(w, t) {
      assert StageOk(w, t);
    }
    forall t ensures StageOf(w, t).Numbered? ==> StageOf(w, t).lastSeq == LastSeq(w) + 1 {
      assert StageOk(w, t);
    }
  }
}
