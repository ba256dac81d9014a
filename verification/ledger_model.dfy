/**
 The data of the transaction ledger: transaction records, the ledger aggregate
 (balance plus the record list, newest first), the seed state the store starts
 from, the signed net effect of a record list and the lookup by id that the
 store's edit and delete actions share.
 */
module LedgerModel {

  datatype Option<T> = None | Some(value: T)

  /** The two recognised transaction types. */
  datatype Kind = Deposit | Withdraw

  /** One record of the history. `datetime` is an ISO-8601 timestamp kept as text. */
  datatype Tx = Tx(id: int, datetime: string, amount: int, kind: Kind, email: string)

  /** The store's state: the running balance and the records, newest first. */
  datatype Ledger = Ledger(balance: int, txs: seq<Tx>)

  /** The result of coercing a caller's value with `Number(...)`: not a number, or a number. */
  datatype Num = NaN | Finite(value: int)

  /** The failures an action reports instead of changing the state. */
  datatype Error =
    | InvalidAmount        // add: amount is not a number or not positive
    | InsufficientBalance  // add: withdrawal larger than the balance
    | InvalidType          // add: type is neither "Deposit" nor "Withdraw"
    | InvalidEditAmount    // update: new amount is not a number or negative
    | NotFound             // update, delete: no record carries the id
    | NegativeBalance      // update: the edit would leave the balance below zero

  /** What an action reports: `{ success: true, message }` or `{ success: false, message }`. */
  datatype Outcome = Success(message: string) | Failure(error: Error)

  /** The message text the store reports for each failure. */
  function ErrorMessage(e: Error): string
  {
    match e
    case InvalidAmount => "Invalid transaction amount."
    case InsufficientBalance => "ยอดเงินคงเหลือไม่เพียงพอ"
    case InvalidType => "ประเภทธุรกรรมไม่ถูกต้อง"
    case InvalidEditAmount => "จำนวนเงินไม่ถูกต้องสำหรับการอัปเดต"
    case NotFound => "ไม่พบธุรกรรม"
    case NegativeBalance => "Edit results in negative balance."
  }

  /** The `{ success, message }` pair an outcome is reported as. */
  function Reply(o: Outcome): (r: (bool, string))
    ensures r.0 <==> o.Success?
    ensures o.Success? ==> r.1 == o.message
    ensures o.Failure? ==> r.1 == ErrorMessage(o.error)
  {
    match o
    case Success(m) => (true, m)
    case Failure(e) => (false, ErrorMessage(e))
  }

  /** Each failure has a message of its own, so a caller can tell failures apart by the reply. */
  lemma FailureReplyIdentifiesError(e1: Error, e2: Error)
    ensures Reply(Failure(e1)) == Reply(Failure(e2)) ==> e1 == e2
  {
  }

  /** The type names a caller passes to the add action. */
  function KindName(k: Kind): (s: string)
    ensures ParseKind(s) == Some(k)
  {
    match k
    case Deposit => "Deposit"
    case Withdraw => "Withdraw"
  }

  /** Recognises a type name by exact, case-sensitive comparison. */
  function ParseKind(s: string): (k: Option<Kind>)
    ensures k == Some(Deposit) <==> s == "Deposit"
    ensures k == Some(Withdraw) <==> s == "Withdraw"
  {
    if s == "Deposit" then Some(Deposit)
    else if s == "Withdraw" then Some(Withdraw)
    else None
  }

  const DefaultEmail: string := "email@gmail.com"

  /**
   The originator stamped on a new record: the session's stored e-mail, unless it
   is absent or empty, in which case the placeholder address.
   */
  function ResolveEmail(stored: Option<string>): (e: string)
    ensures e != ""
    ensures stored.Some? && stored.value != "" ==> e == stored.value
    ensures stored == None || stored == Some("") ==> e == DefaultEmail
  {
    if stored.Some? && stored.value != "" then stored.value else DefaultEmail
  }

  /** The effect a record has on the balance: plus for a deposit, minus for a withdrawal. */
  function Signed(t: Tx): int
  {
    if t.kind == Deposit then t.amount else -t.amount
  }

  /** The net effect of a list of records: deposits minus withdrawals. */
  function Net(txs: seq<Tx>): int
  {
    if |txs| == 0 then 0 else Signed(txs[0]) + Net(txs[1..])
  }

  /**
   The conserved quantity: what the balance would be with every listed record
   undone. Every successful add, edit and delete leaves it unchanged.
   */
  function Offset(l: Ledger): int
  {
    l.balance - Net(l.txs)
  }

  /** Every record's amount is non-negative (edits may set an amount to zero). */
  predicate AmountsNonNegative(txs: seq<Tx>)
  {
    forall i :: 0 <= i < |txs| ==> txs[i].amount >= 0
  }

  lemma {:induction false} NetAppend(a: seq<Tx>, b: seq<Tx>)
    ensures Net(a + b) == Net(a) + Net(b)
    decreases |a|
  {
    if |a| == 0 {
      assert a + b == b;
    } else {
      assert (a + b)[0] == a[0];
      assert (a + b)[1..] == a[1..] + b;
      NetAppend(a[1..], b);
    }
  }

  lemma NetPrepend(t: Tx, s: seq<Tx>)
    ensures Net([t] + s) == Signed(t) + Net(s)
  {
    assert ([t] + s)[1..] == s;
  }

  /** Replacing one record changes the net by the difference of the two records' effects. */
  lemma {:induction false} NetReplace(s: seq<Tx>, i: int, t: Tx)
    requires 0 <= i < |s|
    ensures Net(s[i := t]) == Net(s) - Signed(s[i]) + Signed(t)
    decreases |s|
  {
    if i == 0 {
      assert s[i := t][1..] == s[1..];
    } else {
      assert s[i := t][1..] == s[1..][i - 1 := t];
      NetReplace(s[1..], i - 1, t);
    }
  }

  /** Removing one record takes away exactly its effect. */
  lemma {:induction false} NetRemove(s: seq<Tx>, i: int)
    requires 0 <= i < |s|
    ensures Net(s[..i] + s[i + 1..]) == Net(s) - Signed(s[i])
    decreases |s|
  {
    if i == 0 {
      assert s[..i] + s[i + 1..] == s[1..];
    } else {
      var rest := s[..i] + s[i + 1..];
      assert rest[0] == s[0];
      assert rest[1..] == s[1..][..i - 1] + s[1..][i..];
      NetRemove(s[1..], i - 1);
    }
  }

  /** Some record carries the id. */
  predicate HasId(txs: seq<Tx>, id: int)
  {
    exists j :: 0 <= j < |txs| && txs[j].id == id
  }

  /** `i` is the first position whose record carries the id (ids need not be unique). */
  predicate IsFirstWithId(txs: seq<Tx>, id: int, i: int)
  {
    && 0 <= i < |txs|
    && txs[i].id == id
    && forall j :: 0 <= j < i ==> txs[j].id != id
  }

  /** `findIndex` from position `from` on: the first matching position, or -1. */
  function FindIndexFrom(txs: seq<Tx>, id: int, from: nat): (r: int)
    requires from <= |txs|
    ensures r == -1 || from <= r < |txs|
    ensures r != -1 ==> txs[r].id == id && forall j :: from <= j < r ==> txs[j].id != id
    ensures r == -1 <==> forall j :: from <= j < |txs| ==> txs[j].id != id
    decreases |txs| - from
  {
    if from == |txs| then -1
    else if txs[from].id == id then from
    else FindIndexFrom(txs, id, from + 1)
  }

  /** `findIndex(t => t.id === id)`: the first position carrying the id, or -1 when none does. */
  function FindIndex(txs: seq<Tx>, id: int): (r: int)
    ensures r == -1 <==> !HasId(txs, id)
    ensures r != -1 ==> IsFirstWithId(txs, id, r)
  {
    FindIndexFrom(txs, id, 0)
  }

  const InitialBalance: int := 1000000

  const InitialTransactions: seq<Tx> := [
    Tx(1, "2022-06-06T10:19:53Z", 20000, Deposit, DefaultEmail),
    Tx(2, "2022-02-15T21:24:24Z", 40000, Withdraw, DefaultEmail),
    Tx(3, "2021-12-31T23:59:49Z", 100000, Withdraw, DefaultEmail)
  ]

  /** The offset of the seed state: 1,000,000 - (20,000 - 40,000 - 100,000). */
  const SeedOffset: int := 1120000

  /** The state the store is created in. */
  function Initial(): (l: Ledger)
    ensures Offset(l) == SeedOffset
    ensures l.balance >= 0 && AmountsNonNegative(l.txs)
  {
    SeedNet();
    Ledger(InitialBalance, InitialTransactions)
  }

  lemma SeedNet()
    ensures Net(InitialTransactions) == -120000
  {
    var s := InitialTransactions;
    assert Net(s[2..]) == -100000 by {
      assert s[2..][1..] == [];
    }
    assert s[1..][1..] == s[2..];
    assert Net(s[1..]) == -140000;
  }
}
