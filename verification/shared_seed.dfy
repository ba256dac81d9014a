/**
 The store as written, with object identity. The list the store starts from and
 the list `resetStore` installs are shallow copies of the module-level seed
 array, so their first three slots ARE the seed objects; `updateTransaction`
 writes the new amount into the record object it found, which for a seed record
 is the shared seed object itself. A slot here is either one of the three seed
 objects or a record object of its own, and the store carries the current
 contents of the seed objects alongside the list.

 Every action but reset agrees with `TransactionStore` on what the list shows;
 reset does not: after a seed record was edited, it brings the edited amount
 back. `TransactionStore.Reset` is the corrected action.
 */
module SharedSeed {
  import opened LedgerModel
  import TransactionStore

  datatype Slot = Seeded(k: nat) | Fresh(tx: Tx)

  datatype SharedStore = SharedStore(balance: int, slots: seq<Slot>, seed: seq<Tx>)

  datatype SharedStep = SharedStep(outcome: Outcome, store: SharedStore)

  /** Three seed objects; every seed slot names one of them, and no seed object sits in two slots. */
  predicate Wf(s: SharedStore)
  {
    && |s.seed| == 3
    && (forall i :: 0 <= i < |s.slots| && s.slots[i].Seeded? ==> s.slots[i].k < 3)
    && (forall i, j ::
          0 <= i < j < |s.slots| && s.slots[i].Seeded? && s.slots[j].Seeded? ==> s.slots[i].k != s.slots[j].k)
  }

  function Resolve(seed: seq<Tx>, slot: Slot): Tx
    requires slot.Seeded? ==> slot.k < |seed|
  {
    match slot
    case Seeded(k) => seed[k]
    case Fresh(t) => t
  }

  /** What the store shows: each slot read through to the object it refers to. */
  function View(s: SharedStore): (l: Ledger)
    requires Wf(s)
    ensures l.balance == s.balance && |l.txs| == |s.slots|
    ensures forall i :: 0 <= i < |s.slots| ==> l.txs[i] == Resolve(s.seed, s.slots[i])
  {
    Ledger(s.balance, seq(|s.slots|, i requires 0 <= i < |s.slots| => Resolve(s.seed, s.slots[i])))
  }

  const SeedSlots: seq<Slot> := [Seeded(0), Seeded(1), Seeded(2)]

  /** The store at creation: the seed balance and a shallow copy of the untouched seed array. */
  function SharedInitial(): (s: SharedStore)
    ensures Wf(s) && View(s) == Initial()
  {
    SharedStore(InitialBalance, SeedSlots, InitialTransactions)
  }

  /** `addTransaction` as written: a new record object goes in front. */
  function SharedAdd(s: SharedStore, typ: string, amount: Num, id: int, datetime: string,
                     storedEmail: Option<string>): (r: SharedStep)
    requires Wf(s)
    ensures Wf(r.store) && r.store.seed == s.seed
    ensures var c := TransactionStore.Add(View(s), typ, amount, id, datetime, storedEmail);
            r.outcome == c.outcome && View(r.store) == c.ledger
  {
    if !TransactionStore.ValidAddAmount(amount) then SharedStep(Failure(InvalidAmount), s)
    else
      match ParseKind(typ)
      case None => SharedStep(Failure(InvalidType), s)
      case Some(kind) =>
        if kind == Withdraw && amount.value > s.balance then SharedStep(Failure(InsufficientBalance), s)
        else
          var balance := if kind == Deposit then s.balance + amount.value else s.balance - amount.value;
          var t := Tx(id, datetime, amount.value, kind, ResolveEmail(storedEmail));
          var r := SharedStore(balance, [Fresh(t)] + s.slots, s.seed);
          assert View(r).txs == [t] + View(s).txs;
          SharedStep(Success(typ + " successful."), r)
  }

  /**
   `updateTransaction` as written: the amount is written into the record object
   found, so editing a seed record changes the seed object itself.
   */
  function SharedUpdate(s: SharedStore, id: int, newAmount: Num): (r: SharedStep)
    requires Wf(s)
    ensures Wf(r.store) && |r.store.slots| == |s.slots|
    ensures var c := TransactionStore.Update(View(s), id, newAmount);
            r.outcome == c.outcome && View(r.store) == c.ledger
    ensures r.outcome.Failure? ==> r.store == s
    ensures r.outcome.Success? ==>
              var i := FindIndex(View(s).txs, id);
              && 0 <= i < |s.slots|
              && (s.slots[i].Seeded? ==>
                    r.store.slots == s.slots && r.store.seed == s.seed[s.slots[i].k := View(r.store).txs[i]])
              && (s.slots[i].Fresh? ==> r.store.seed == s.seed)
  {
    if !TransactionStore.ValidEditAmount(newAmount) then SharedStep(Failure(InvalidEditAmount), s)
    else
      var i := FindIndex(View(s).txs, id);
      if i == -1 then SharedStep(Failure(NotFound), s)
      else
        var t := View(s).txs[i];
        var difference := newAmount.value - t.amount;
        var tentative := if t.kind == Deposit then s.balance + difference else s.balance - difference;
        if tentative < 0 then SharedStep(Failure(NegativeBalance), s)
        else
          var edited := t.(amount := newAmount.value);
          var r := match s.slots[i]
            case Seeded(k) => SharedStore(tentative, s.slots, s.seed[k := edited])
            case Fresh(_) => SharedStore(tentative, s.slots[i := Fresh(edited)], s.seed);
          EditShowsInPlace(s, r, i, edited);
          SharedStep(Success(TransactionStore.UpdatedMessage), r)
  }

  /** Writing into the object behind slot `i` changes what slot `i` shows and nothing else. */
  lemma EditShowsInPlace(s: SharedStore, r: SharedStore, i: int, edited: Tx)
    requires Wf(s) && 0 <= i < |s.slots|
    requires s.slots[i].Seeded? ==> r.slots == s.slots && r.seed == s.seed[s.slots[i].k := edited]
    requires s.slots[i].Fresh? ==> r.slots == s.slots[i := Fresh(edited)] && r.seed == s.seed
    ensures Wf(r)
    ensures View(r).txs == View(s).txs[i := edited]
  {
    forall j | 0 <= j < |s.slots| && j != i
      ensures Resolve(r.seed, r.slots[j]) == Resolve(s.seed, s.slots[j])
    {
      if s.slots[i].Seeded? && s.slots[j].Seeded? {
        if j < i {
          assert s.slots[j].k != s.slots[i].k;
        } else {
          assert s.slots[i].k != s.slots[j].k;
        }
      }
    }
  }

  /** `deleteTransaction` as written: the slot is spliced out; no object is changed. */
  function SharedDelete(s: SharedStore, id: int): (r: SharedStep)
    requires Wf(s)
    ensures Wf(r.store) && r.store.seed == s.seed
    ensures var c := TransactionStore.Delete(View(s), id);
            r.outcome == c.outcome && View(r.store) == c.ledger
  {
    var i := FindIndex(View(s).txs, id);
    if i == -1 then SharedStep(Failure(NotFound), s)
    else
      var t := View(s).txs[i];
      var balance := if t.kind == Deposit then s.balance - t.amount else s.balance + t.amount;
      var r := SharedStore(balance, s.slots[..i] + s.slots[i + 1..], s.seed);
      RemoveShows(s, r, i);
      SharedStep(Success(TransactionStore.DeletedMessage), r)
  }

  lemma RemoveShows(s: SharedStore, r: SharedStore, i: int)
    requires Wf(s) && 0 <= i < |s.slots|
    requires r.slots == s.slots[..i] + s.slots[i + 1..] && r.seed == s.seed
    ensures Wf(r)
    ensures View(r).txs == View(s).txs[..i] + View(s).txs[i + 1..]
  {
    forall a, b | 0 <= a < b < |r.slots| && r.slots[a].Seeded? && r.slots[b].Seeded?
      ensures r.slots[a].k != r.slots[b].k
    {
      var a' := if a < i then a else a + 1;
      var b' := if b < i then b else b + 1;
      assert r.slots[a] == s.slots[a'] && r.slots[b] == s.slots[b'];
    }
    forall a | 0 <= a < |r.slots| && r.slots[a].Seeded?
      ensures r.slots[a].k < 3
    {
      assert r.slots[a] == s.slots[if a < i then a else a + 1];
    }
  }

  /**
   `resetStore` as written: the seed balance and a fresh shallow copy of the seed
   array, whose objects hold whatever edits were written into them.
   */
  function SharedReset(s: SharedStore): (r: SharedStore)
    requires Wf(s)
    ensures Wf(r) && r.seed == s.seed
    ensures View(r).balance == InitialBalance && View(r).txs == s.seed
    ensures View(r) == TransactionStore.Reset(View(s)) <==> s.seed == InitialTransactions
  {
    var r := SharedStore(InitialBalance, SeedSlots, s.seed);
    assert View(r).txs == s.seed;
    r
  }

  /**
   The discrepancy: edit the seed deposit (id 1) from 20,000 to 25,000, then reset.
   The reset store shows 25,000 again, not the seed's 20,000, and its balance no
   longer matches its records: the offset is 1,115,000 instead of 1,120,000.
   */
  lemma ResetAfterSeedEditKeepsEdit()
    ensures var edit := SharedUpdate(SharedInitial(), 1, Finite(25000));
            var reset := View(SharedReset(edit.store));
            && edit.outcome.Success?
            && reset.txs[0].amount == 25000
            && reset != TransactionStore.Reset(View(edit.store))
            && Offset(reset) == 1115000
            && Offset(reset) != SeedOffset
  {
    var l0 := Initial();
    assert IsFirstWithId(l0.txs, 1, 0);
    var edit := SharedUpdate(SharedInitial(), 1, Finite(25000));
    var reset := View(SharedReset(edit.store));
    assert edit.store.seed == InitialTransactions[0 := InitialTransactions[0].(amount := 25000)];
    NetReplace(InitialTransactions, 0, InitialTransactions[0].(amount := 25000));
    SeedNet();
    assert Net(reset.txs) == -115000;
  }
}
