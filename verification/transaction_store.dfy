/**
 The four actions of the transaction store. Each takes the current ledger and
 returns what the action reports together with the ledger afterwards; a failed
 action returns the ledger it was given. The record id, timestamp and the
 session's stored e-mail of a new record are supplied by the caller.
 */
module TransactionStore {
  import opened LedgerModel

  datatype Step = Step(outcome: Outcome, ledger: Ledger)

  const UpdatedMessage: string := "อัปเดตธุรกรรมสำเร็จแล้ว"
  const DeletedMessage: string := "Transaction deleted successfully."

  /** An amount the add action accepts: a number greater than zero. */
  predicate ValidAddAmount(amount: Num)
  {
    amount.Finite? && amount.value > 0
  }

  /** An amount the update action accepts: a number, zero included. */
  predicate ValidEditAmount(amount: Num)
  {
    amount.Finite? && amount.value >= 0
  }

  /**
   `addTransaction(type, amount)`: the amount is checked first, then the type;
   a withdrawal may not exceed the balance. On success one record is put in
   front of the list and the balance moves by exactly the amount.
   */
  function Add(l: Ledger, typ: string, amount: Num, id: int, datetime: string, storedEmail: Option<string>): (r: Step)
    ensures !ValidAddAmount(amount) ==> r == Step(Failure(InvalidAmount), l)
    ensures ValidAddAmount(amount) && typ != "Deposit" && typ != "Withdraw" ==> r == Step(Failure(InvalidType), l)
    ensures ValidAddAmount(amount) && typ == "Withdraw" && amount.value > l.balance ==>
              r == Step(Failure(InsufficientBalance), l)
    ensures r.outcome.Success? <==>
              ValidAddAmount(amount) && (typ == "Deposit" || (typ == "Withdraw" && amount.value <= l.balance))
    ensures r.outcome.Failure? ==> r.ledger == l
    ensures r.outcome.Success? ==>
              && r.outcome.message == typ + " successful."
              && |r.ledger.txs| == |l.txs| + 1
              && r.ledger.txs[1..] == l.txs
              && r.ledger.txs[0].id == id
              && r.ledger.txs[0].datetime == datetime
              && r.ledger.txs[0].amount == amount.value
              && KindName(r.ledger.txs[0].kind) == typ
              && r.ledger.txs[0].email == ResolveEmail(storedEmail)
    ensures r.outcome.Success? && typ == "Deposit" ==> r.ledger.balance == l.balance + amount.value
    ensures r.outcome.Success? && typ == "Withdraw" ==>
              r.ledger.balance == l.balance - amount.value && r.ledger.balance >= 0
  {
    if !ValidAddAmount(amount) then Step(Failure(InvalidAmount), l)
    else
      match ParseKind(typ)
      case None => Step(Failure(InvalidType), l)
      case Some(kind) =>
        if kind == Withdraw && amount.value > l.balance then Step(Failure(InsufficientBalance), l)
        else
          var balance := if kind == Deposit then l.balance + amount.value else l.balance - amount.value;
          var t := Tx(id, datetime, amount.value, kind, ResolveEmail(storedEmail));
          Step(Success(typ + " successful."), Ledger(balance, [t] + l.txs))
  }

  /**
   `updateTransaction(id, newAmount)`: overwrites the amount of the first record
   carrying the id. The old record's effect on the balance is replaced by the
   new one's; the edit is refused if that would leave the balance negative.
   */
  function Update(l: Ledger, id: int, newAmount: Num): (r: Step)
    ensures !ValidEditAmount(newAmount) ==> r == Step(Failure(InvalidEditAmount), l)
    ensures ValidEditAmount(newAmount) && !HasId(l.txs, id) ==> r == Step(Failure(NotFound), l)
    ensures r.outcome.Failure? ==> r.ledger == l
    ensures r.outcome.Success? ==> HasId(l.txs, id) && r.ledger.balance >= 0 && |r.ledger.txs| == |l.txs|
    ensures forall i | IsFirstWithId(l.txs, id, i) && ValidEditAmount(newAmount) ::
              var edited := l.txs[i].(amount := newAmount.value);
              && (l.balance - Signed(l.txs[i]) + Signed(edited) < 0 ==> r == Step(Failure(NegativeBalance), l))
              && (l.balance - Signed(l.txs[i]) + Signed(edited) >= 0 ==>
                    && r.outcome == Success(UpdatedMessage)
                    && r.ledger.balance == l.balance - Signed(l.txs[i]) + Signed(edited)
                    && r.ledger.txs == l.txs[i := edited])
  {
    if !ValidEditAmount(newAmount) then Step(Failure(InvalidEditAmount), l)
    else
      var i := FindIndex(l.txs, id);
      if i == -1 then Step(Failure(NotFound), l)
      else
        var t := l.txs[i];
        var difference := newAmount.value - t.amount;
        var tentative := if t.kind == Deposit then l.balance + difference else l.balance - difference;
        if tentative < 0 then Step(Failure(NegativeBalance), l)
        else Step(Success(UpdatedMessage), Ledger(tentative, l.txs[i := t.(amount := newAmount.value)]))
  }

  /**
   `deleteTransaction(id)`: removes the first record carrying the id and undoes
   its effect on the balance. No check keeps the balance non-negative.
   */
  function Delete(l: Ledger, id: int): (r: Step)
    ensures r.outcome.Success? <==> HasId(l.txs, id)
    ensures !HasId(l.txs, id) ==> r == Step(Failure(NotFound), l)
    ensures forall i | IsFirstWithId(l.txs, id, i) ::
              && r.outcome == Success(DeletedMessage)
              && r.ledger.balance == l.balance - Signed(l.txs[i])
              && r.ledger.txs == l.txs[..i] + l.txs[i + 1..]
              && |r.ledger.txs| == |l.txs| - 1
  {
    var i := FindIndex(l.txs, id);
    if i == -1 then Step(Failure(NotFound), l)
    else
      var t := l.txs[i];
      var balance := if t.kind == Deposit then l.balance - t.amount else l.balance + t.amount;
      Step(Success(DeletedMessage), Ledger(balance, l.txs[..i] + l.txs[i + 1..]))
  }

  /** `resetStore()`: whatever the ledger held, the seed balance and the three seed records. */
  function Reset(l: Ledger): (r: Ledger)
    ensures r.balance == 1000000
    ensures |r.txs| == 3
    ensures r.txs[0].amount == 20000 && r.txs[1].amount == 40000 && r.txs[2].amount == 100000
    ensures r.txs[0].kind == Deposit && r.txs[1].kind == Withdraw && r.txs[2].kind == Withdraw
    ensures r.txs[0].id == 1 && r.txs[1].id == 2 && r.txs[2].id == 3
    ensures r.txs[0].datetime == "2022-06-06T10:19:53Z" && r.txs[1].datetime == "2022-02-15T21:24:24Z"
            && r.txs[2].datetime == "2021-12-31T23:59:49Z"
    ensures forall i :: 0 <= i < |r.txs| ==> r.txs[i].email == "email@gmail.com"
    ensures r.txs == InitialTransactions
    ensures Offset(r) == SeedOffset
  {
    Initial()
  }

  /** A successful add moves the balance by exactly the new record's effect, so the offset is kept. */
  lemma AddKeepsOffset(l: Ledger, typ: string, amount: Num, id: int, datetime: string, storedEmail: Option<string>)
    ensures var r := Add(l, typ, amount, id, datetime, storedEmail);
            Offset(r.ledger) == Offset(l)
  {
    var r := Add(l, typ, amount, id, datetime, storedEmail);
    if r.outcome.Success? {
      NetPrepend(r.ledger.txs[0], l.txs);
      assert r.ledger.txs == [r.ledger.txs[0]] + l.txs;
    }
  }

  /** A successful edit replaces the old record's effect by the new one's in balance and net alike. */
  lemma UpdateKeepsOffset(l: Ledger, id: int, newAmount: Num)
    ensures Offset(Update(l, id, newAmount).ledger) == Offset(l)
  {
    var r := Update(l, id, newAmount);
    if r.outcome.Success? {
      var i := FindIndex(l.txs, id);
      NetReplace(l.txs, i, l.txs[i].(amount := newAmount.value));
    }
  }

  /** A successful delete takes the record's effect out of balance and net alike. */
  lemma DeleteKeepsOffset(l: Ledger, id: int)
    ensures Offset(Delete(l, id).ledger) == Offset(l)
  {
    var r := Delete(l, id);
    if r.outcome.Success? {
      var i := FindIndex(l.txs, id);
      NetRemove(l.txs, i);
    }
  }

  /** A successful add stores a positive amount and keeps the older records. */
  lemma AddKeepsAmountsNonNegative(l: Ledger, typ: string, amount: Num, id: int, datetime: string,
                                   storedEmail: Option<string>)
    requires AmountsNonNegative(l.txs)
    ensures AmountsNonNegative(Add(l, typ, amount, id, datetime, storedEmail).ledger.txs)
  {
    var a := Add(l, typ, amount, id, datetime, storedEmail);
    if a.outcome.Success? {
      assert forall j :: 1 <= j < |a.ledger.txs| ==> a.ledger.txs[j] == l.txs[j - 1];
    }
  }

  /** An edit stores a non-negative amount (zero is accepted). */
  lemma UpdateKeepsAmountsNonNegative(l: Ledger, id: int, newAmount: Num)
    requires AmountsNonNegative(l.txs)
    ensures AmountsNonNegative(Update(l, id, newAmount).ledger.txs)
  {
  }

  /** A delete keeps a subset of the records. */
  lemma DeleteKeepsAmountsNonNegative(l: Ledger, id: int)
    requires AmountsNonNegative(l.txs)
    ensures AmountsNonNegative(Delete(l, id).ledger.txs)
  {
    var d := Delete(l, id);
    if d.outcome.Success? {
      var i := FindIndex(l.txs, id);
      var rest := l.txs[..i] + l.txs[i + 1..];
      assert d.ledger.txs == rest;
      forall j | 0 <= j < |rest|
        ensures rest[j].amount >= 0
      {
        if j < i {
          assert rest[j] == l.txs[j];
        } else {
          assert rest[j] == l.txs[j + 1];
        }
      }
    }
  }
}
