/**
 Sequences of store actions, as a user drives them from the dashboard and the
 history view: what holds of every ledger the store can reach, and the
 scenarios the store's own tests describe.
 */
module StoreRuns {
  import opened LedgerModel
  import opened TransactionStore

  /** One call of a store action, with the values the environment supplies. */
  datatype Op =
    | AddOp(typ: string, amount: Num, id: int, datetime: string, storedEmail: Option<string>)
    | UpdateOp(id: int, newAmount: Num)
    | DeleteOp(id: int)
    | ResetOp

  function Apply(l: Ledger, op: Op): Ledger
  {
    match op
    case AddOp(typ, amount, id, datetime, storedEmail) => Add(l, typ, amount, id, datetime, storedEmail).ledger
    case UpdateOp(id, newAmount) => Update(l, id, newAmount).ledger
    case DeleteOp(id) => Delete(l, id).ledger
    case ResetOp => Reset(l)
  }

  /** The ledger after the actions, first to last. */
  function Run(l: Ledger, ops: seq<Op>): Ledger
    decreases |ops|
  {
    if |ops| == 0 then l else Run(Apply(l, ops[0]), ops[1..])
  }

  /**
   What every reachable ledger satisfies: the balance equals the seed offset plus
   the net effect of the listed records, and no stored amount is negative.
   */
  predicate Consistent(l: Ledger)
  {
    Offset(l) == SeedOffset && AmountsNonNegative(l.txs)
  }

  /** Each action, successful or not, keeps a consistent ledger consistent. */
  lemma ApplyKeepsConsistent(l: Ledger, op: Op)
    requires Consistent(l)
    ensures Consistent(Apply(l, op))
  {
    match op
    case AddOp(typ, amount, id, datetime, storedEmail) =>
      AddKeepsOffset(l, typ, amount, id, datetime, storedEmail);
      AddKeepsAmountsNonNegative(l, typ, amount, id, datetime, storedEmail);
    case UpdateOp(id, newAmount) =>
      UpdateKeepsOffset(l, id, newAmount);
      UpdateKeepsAmountsNonNegative(l, id, newAmount);
    case DeleteOp(id) =>
      DeleteKeepsOffset(l, id);
      DeleteKeepsAmountsNonNegative(l, id);
    case ResetOp =>
  }

  lemma {:induction false} RunKeepsConsistent(l: Ledger, ops: seq<Op>)
    requires Consistent(l)
    ensures Consistent(Run(l, ops))
    decreases |ops|
  {
    if |ops| > 0 {
      ApplyKeepsConsistent(l, ops[0]);
      RunKeepsConsistent(Apply(l, ops[0]), ops[1..]);
    }
  }

  /** From the seed, after any actions, the balance is 1,120,000 plus the net of the listed records. */
  lemma RunFromSeed(ops: seq<Op>)
    ensures Run(Initial(), ops).balance == SeedOffset + Net(Run(Initial(), ops).txs)
    ensures AmountsNonNegative(Run(Initial(), ops).txs)
  {
    RunKeepsConsistent(Initial(), ops);
  }

  predicate AddsOnly(ops: seq<Op>)
  {
    forall k :: 0 <= k < |ops| ==> ops[k].AddOp?
  }

  /**
   `b` is `a` with records put in front of its list, and the balance moved by
   exactly the net effect of those records.
   */
  predicate Extends(b: Ledger, a: Ledger)
  {
    && |b.txs| >= |a.txs|
    && b.txs[|b.txs| - |a.txs|..] == a.txs
    && b.balance == a.balance + Net(b.txs[..|b.txs| - |a.txs|])
  }

  lemma ExtendsTransitive(a: Ledger, b: Ledger, c: Ledger)
    requires Extends(b, a) && Extends(c, b)
    ensures Extends(c, a)
  {
    var p1 := b.txs[..|b.txs| - |a.txs|];
    var p2 := c.txs[..|c.txs| - |b.txs|];
    assert b.txs == p1 + a.txs;
    assert c.txs == p2 + b.txs;
    assert c.txs == (p2 + p1) + a.txs;
    assert c.txs[..|c.txs| - |a.txs|] == p2 + p1;
    NetAppend(p2, p1);
  }

  lemma AddExtends(l: Ledger, op: Op)
    requires op.AddOp?
    ensures Extends(Apply(l, op), l)
  {
    var s := Add(l, op.typ, op.amount, op.id, op.datetime, op.storedEmail);
    var l1 := s.ledger;
    if s.outcome.Success? {
      var t := l1.txs[0];
      assert l1.txs == [t] + l.txs;
      assert l1.txs[..1] == [t];
      assert Net([t]) == Signed(t);
    } else {
      assert l1.txs[..0] == [];
    }
  }

  /**
   Deposits and withdrawals alone only put records in front of the list, and the
   balance moves by exactly the net effect of the records they put there.
   */
  lemma {:induction false} AddsOnlyPrepend(l: Ledger, ops: seq<Op>)
    requires AddsOnly(ops)
    ensures Extends(Run(l, ops), l)
    decreases |ops|
  {
    if |ops| == 0 {
      assert l.txs[..0] == [];
    } else {
      var l1 := Apply(l, ops[0]);
      AddExtends(l, ops[0]);
      AddsOnlyPrepend(l1, ops[1..]);
      ExtendsTransitive(l, l1, Run(l, ops));
    }
  }

  /** From the seed, deposits and withdrawals alone leave the balance at 1,000,000 plus the net of what they added. */
  lemma AddsOnlyFromSeed(ops: seq<Op>)
    requires AddsOnly(ops)
    ensures var r := Run(Initial(), ops);
            && |r.txs| >= 3
            && r.txs[|r.txs| - 3..] == InitialTransactions
            && r.balance == InitialBalance + Net(r.txs[..|r.txs| - 3])
  {
    AddsOnlyPrepend(Initial(), ops);
  }

  /** The seed state reports 1,000,000 and holds three records. */
  lemma SeedScenario()
    ensures Initial().balance == 1000000 && |Initial().txs| == 3
  {
  }

  /** Depositing 50,000 into the seed state gives 1,050,000 and a fourth record in front. */
  lemma SeedDepositScenario(id: int, datetime: string, storedEmail: Option<string>)
    ensures var r := Add(Initial(), "Deposit", Finite(50000), id, datetime, storedEmail);
            && r.outcome == Success("Deposit successful.")
            && r.ledger.balance == 1050000
            && |r.ledger.txs| == 4
            && r.ledger.txs[0].kind == Deposit
            && r.ledger.txs[0].amount == 50000
            && (storedEmail == Some("testuser@example.com") ==> r.ledger.txs[0].email == "testuser@example.com")
  {
  }

  /** With a balance of 500, withdrawing 1,000 is refused and nothing changes. */
  lemma LowBalanceWithdrawScenario(txs: seq<Tx>, id: int, datetime: string, storedEmail: Option<string>)
    ensures var l := Ledger(500, txs);
            Add(l, "Withdraw", Finite(1000), id, datetime, storedEmail) == Step(Failure(InsufficientBalance), l)
  {
  }

  /**
   Raising the seed deposit by 5,000 raises the balance by 5,000; lowering a seed
   withdrawal by 10,000 raises it by 10,000. The edited record carries the new amount.
   */
  lemma SeedEditScenarios()
    ensures var r := Update(Initial(), 1, Finite(25000));
            r.outcome.Success? && r.ledger.balance == 1005000 && r.ledger.txs[0].amount == 25000
    ensures var r := Update(Initial(), 2, Finite(30000));
            r.outcome.Success? && r.ledger.balance == 1010000 && r.ledger.txs[1].amount == 30000
  {
    assert IsFirstWithId(Initial().txs, 1, 0);
    assert IsFirstWithId(Initial().txs, 2, 1);
  }

  /** Deleting the seed withdrawal of 40,000 gives the 40,000 back and leaves no record with its id. */
  lemma SeedDeleteScenario()
    ensures var r := Delete(Initial(), 2);
            && r.outcome.Success?
            && r.ledger.balance == 1040000
            && |r.ledger.txs| == 2
            && !HasId(r.ledger.txs, 2)
  {
    var s := Initial().txs;
    assert IsFirstWithId(s, 2, 1);
    assert s[..1] + s[2..] == [s[0], s[2]];
  }

  /** Deleting an id no record carries is refused and changes nothing. */
  lemma DeleteUnknownScenario()
    ensures Delete(Initial(), 99999) == Step(Failure(NotFound), Initial())
  {
  }

  /**
   Deleting a deposit is not checked against the balance: from the seed, deposit
   1,000,000, withdraw the resulting 2,000,000, then delete the deposit.
   */
  lemma DeleteCanLeaveBalanceNegative(datetime: string, storedEmail: Option<string>)
    ensures var l := Run(Initial(), [AddOp("Deposit", Finite(1000000), 7, datetime, storedEmail),
                                     AddOp("Withdraw", Finite(2000000), 8, datetime, storedEmail)]);
            && l.balance == 0
            && Delete(l, 7).outcome.Success?
            && Delete(l, 7).ledger.balance == -1000000
  {
    var ops := [AddOp("Deposit", Finite(1000000), 7, datetime, storedEmail),
                AddOp("Withdraw", Finite(2000000), 8, datetime, storedEmail)];
    var l1 := Apply(Initial(), ops[0]);
    var l2 := Apply(l1, ops[1]);
    assert Run(Initial(), ops) == Run(l1, ops[1..]);
    assert ops[1..][1..] == [];
    assert Run(Initial(), ops) == l2;
    assert IsFirstWithId(l2.txs, 7, 1);
  }
}
