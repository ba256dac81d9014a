# Transaction ledger store, modelled in Dafny

This project models the ledger store of a small banking demo: a store that holds a
running `balance` and a list of `transactions` (newest first), and exposes four
actions — `addTransaction(type, amount)`, `updateTransaction(id, newAmount)`,
`deleteTransaction(id)` and `resetStore()`. Every action reports
`{ success, message }` and is all-or-nothing.

The model is functional. A `Ledger` is an immutable value. Each action is a pure
function from the current ledger to a `Step` (the reported outcome plus the ledger
afterwards). The values the store takes from its environment are parameters:
the new record's id (`Date.now()`), its timestamp (`new Date().toISOString()`) and
the session's stored e-mail (`localStorage.getItem("userEmail")`).

Modules:

- `LedgerModel` (`ledger_model.dfy`): records, the ledger, caller values coerced by
  `Number(...)`, error kinds and their messages, the seed state, and the signed net
  effect of a list (`Net`). It also defines the conserved quantity
  `Offset = balance - Net(transactions)` and the lookup by id (`FindIndex`, the
  first position whose record carries the id; ids need not be unique).
- `TransactionStore` (`transaction_store.dfy`): the four actions. Also lemmas
  that each successful add, edit and delete keeps `Offset` and keeps amounts
  non-negative.
- `StoreRuns` (`store_runs.dfy`): sequences of actions. With the corrected reset
  (`TransactionStore.Reset`, see Findings), every ledger reachable from the seed
  has `balance == 1,120,000 + Net(transactions)`. Also the scenarios the store's
  tests describe.
- `SharedSeed` (`shared_seed.dfy`): the store as written, with object identity. It
  exhibits the reset defect listed under Findings.

Facts about the code that the model keeps:

- Stored amounts are non-negative, not positive: an edit may set an amount to 0
  (src/stores/transactionStore.js:78).
- The balance can become negative: deleting a deposit is not checked against the
  balance (src/stores/transactionStore.js:143-144;
  `StoreRuns.DeleteCanLeaveBalanceNegative` reaches -1,000,000 from the seed).
- The balance is not the seed balance plus the records' net: in the seed it is
  1,000,000 against a net of -120,000 (src/stores/transactionStore.js:6-29). What
  every add, edit and delete keeps is the offset, balance minus net, which is
  1,120,000 in the seed.
- The amount is validated before the type (src/stores/transactionStore.js:48-62),
  so an unknown type with a bad amount reports the invalid amount.

The seed is the one in `src/stores/transactionStore.js`: balance 1,000,000 and
records 1 (deposit 20,000), 2 (withdrawal 40,000) and 3 (withdrawal 100,000).

## Model

| member | source | states |
|---|---|---|
| LedgerModel.Reply | src/stores/transactionStore.js:48-72 | an outcome is reported as `success` true exactly for a successful action; a success carries its own message and a failure its error's message |
| LedgerModel.FailureReplyIdentifiesError | src/stores/transactionStore.js:50-110 | two failures with the same reply are the same failure: every error has a message of its own, which is how callers and tests tell failures apart |
| LedgerModel.KindName | src/stores/transactionStore.js:53-55 | each of the two type names is recognised back as its own kind |
| LedgerModel.ParseKind | src/stores/transactionStore.js:53-62 | a type is recognised as Deposit exactly when it is the string "Deposit", as Withdraw exactly when it is "Withdraw", and otherwise not at all |
| LedgerModel.ResolveEmail | src/stores/transactionStore.js:69 | a new record's originator is the stored e-mail when present and non-empty, the placeholder address when it is absent or empty, and never empty |
| LedgerModel.NetAppend | src/stores/transactionStore.js:71 | the net effect of two lists put together is the sum of their net effects |
| LedgerModel.NetPrepend | src/stores/transactionStore.js:71 | putting a record in front adds exactly its signed amount to the net |
| LedgerModel.NetReplace | src/stores/transactionStore.js:115 | replacing one record changes the net by the new record's effect minus the old one's |
| LedgerModel.NetRemove | src/stores/transactionStore.js:152 | splicing out one record takes exactly its effect out of the net |
| LedgerModel.FindIndexFrom | src/stores/transactionStore.js:83 | the scan from a position returns -1 exactly when no later record carries the id, and otherwise a position carrying it with none before it from that point |
| LedgerModel.FindIndex | src/stores/transactionStore.js:122-125 | lookup returns -1 exactly when no record carries the id, and otherwise the first position whose record does |
| LedgerModel.SeedNet | src/stores/transactionStore.js:7-29 | the seed records' net effect is 20,000 - 40,000 - 100,000 = -120,000 |
| LedgerModel.Initial | src/stores/transactionStore.js:6-35 | the store starts with offset 1,120,000, a non-negative balance and non-negative amounts |
| TransactionStore.Add | src/stores/transactionStore.js:45-73 | a non-number or non-positive amount fails with the amount error, and an unknown type then fails with the type error. A withdrawal above the balance fails as insufficient. Every failure leaves the ledger unchanged. Success happens exactly in the remaining cases: one record with the given id, time, amount, kind and resolved e-mail goes in front, the old list follows unchanged, and the balance moves by exactly the amount. After a withdrawal the balance is non-negative |
| TransactionStore.Update | src/stores/transactionStore.js:75-119 | a non-number or negative amount (zero allowed) fails first, then an unknown id fails. For the first record carrying the id, the old record's signed effect is replaced by the edited one's. A result below zero fails as a negative balance. Otherwise the result becomes the balance, which is never negative, and only that record's amount changes. Every failure leaves the ledger unchanged |
| TransactionStore.Delete | src/stores/transactionStore.js:121-156 | it succeeds exactly when some record carries the id, and an unknown id fails with the ledger unchanged. On success the first such record is spliced out, the rest keep their order, and its signed effect is taken out of the balance |
| TransactionStore.Reset | src/stores/transactionStore.js:159-163 | whatever the ledger held, the result is balance 1,000,000 with exactly the three seed records (ids 1, 2, 3; deposit 20,000, withdrawals 40,000 and 100,000; their declared timestamps; originator email@gmail.com), and its offset is the seed's |
| TransactionStore.AddKeepsOffset | src/stores/transactionStore.js:53-71 | after an add, balance minus net is what it was before |
| TransactionStore.UpdateKeepsOffset | src/stores/transactionStore.js:99-115 | after an edit, balance minus net is what it was before |
| TransactionStore.DeleteKeepsOffset | src/stores/transactionStore.js:139-152 | after a delete, balance minus net is what it was before |
| TransactionStore.AddKeepsAmountsNonNegative | src/stores/transactionStore.js:47-71 | an add keeps every stored amount non-negative |
| TransactionStore.UpdateKeepsAmountsNonNegative | src/stores/transactionStore.js:77-115 | an edit keeps every stored amount non-negative |
| TransactionStore.DeleteKeepsAmountsNonNegative | src/stores/transactionStore.js:151-152 | a delete keeps every stored amount non-negative |
| StoreRuns.ApplyKeepsConsistent | src/stores/transactionStore.js:45-163 | with the corrected reset, every action, successful or not, keeps a ledger whose offset is 1,120,000 and whose amounts are non-negative in that state (the reset as written does not: see Findings) |
| StoreRuns.RunKeepsConsistent | src/stores/transactionStore.js:45-163 | with the corrected reset, any sequence of actions keeps a ledger with offset 1,120,000 and non-negative amounts in that state (the reset as written does not: see Findings) |
| StoreRuns.RunFromSeed | src/stores/transactionStore.js:6-35 | with the corrected reset, from the seed, after any actions, the balance is 1,120,000 plus the net of the listed records and no amount is negative (the reset as written does not keep this: see Findings) |
| StoreRuns.ExtendsTransitive | src/stores/transactionStore.js:71 | putting records in front twice is putting their concatenation in front, with the balance moved by its net |
| StoreRuns.AddExtends | src/stores/transactionStore.js:53-71 | an add, successful or not, only puts records in front and moves the balance by their net |
| StoreRuns.AddsOnlyPrepend | src/stores/transactionStore.js:45-73 | any sequence of adds only puts records in front of the list and moves the balance by exactly their net |
| StoreRuns.AddsOnlyFromSeed | src/stores/transactionStore.js:45-73 | from the seed, after adds only, the seed records are still last and the balance is 1,000,000 plus the net of the added records |
| StoreRuns.SeedScenario | src/stores/transactionStore.spec.js:32-37 | the store starts at 1,000,000 with three records |
| StoreRuns.SeedDepositScenario | src/stores/transactionStore.spec.js:40-58 | depositing 50,000 into the seed gives 1,050,000, four records and a deposit of 50,000 in front, stamped with the stored e-mail `testuser@example.com` when that is the stored value |
| StoreRuns.LowBalanceWithdrawScenario | src/stores/transactionStore.spec.js:76-88 | at balance 500, withdrawing 1,000 fails as insufficient and changes nothing |
| StoreRuns.SeedEditScenarios | src/stores/transactionStore.spec.js:114-146 | raising the seed deposit by 5,000 succeeds and raises the balance by 5,000; lowering a seed withdrawal by 10,000 succeeds and raises it by 10,000; each edited record carries its new amount |
| StoreRuns.SeedDeleteScenario | src/stores/transactionStore.spec.js:148-169 | deleting the seed withdrawal of 40,000 raises the balance by 40,000, leaves two records and none with its id |
| StoreRuns.DeleteUnknownScenario | src/stores/transactionStore.spec.js:171-176 | deleting an unknown id fails as not found and changes nothing |
| StoreRuns.DeleteCanLeaveBalanceNegative | src/stores/transactionStore.js:139-148 | from the seed, depositing 1,000,000, withdrawing the resulting 2,000,000 (balance 0) and then deleting the deposit succeeds and leaves the balance at -1,000,000 |
| SharedSeed.SharedInitial | src/stores/transactionStore.js:35 | the store as created shows exactly the seed state |
| SharedSeed.SharedAdd | src/stores/transactionStore.js:45-73 | the add as written reports and shows exactly what `TransactionStore.Add` does, and leaves the seed objects alone |
| SharedSeed.SharedUpdate | src/stores/transactionStore.js:113-115 | the edit as written reports and shows exactly what `TransactionStore.Update` does. A failed edit changes nothing. A successful edit of a seed slot writes the edited record into that seed object and leaves the slots alone; an edit of a record of its own leaves the seed objects alone |
| SharedSeed.EditShowsInPlace | src/stores/transactionStore.js:115 | writing into the object behind one slot changes what that slot shows and nothing else, because no seed object sits in two slots |
| SharedSeed.SharedDelete | src/stores/transactionStore.js:121-156 | the delete as written reports and shows exactly what `TransactionStore.Delete` does, and leaves the seed objects alone |
| SharedSeed.RemoveShows | src/stores/transactionStore.js:152 | splicing out a slot splices out the record it shows |
| SharedSeed.SharedReset | src/stores/transactionStore.js:159-163 | the reset as written shows balance 1,000,000 and the seed objects' current contents. It agrees with `TransactionStore.Reset` exactly when no seed object was edited |
| SharedSeed.ResetAfterSeedEditKeepsEdit | src/stores/transactionStore.js:161 | editing seed record 1 to 25,000 and then resetting shows 25,000 again, and the offset becomes 1,115,000 rather than 1,120,000 |

## Findings

| source | as written | input that shows it | evidently intended | confidence | as-written member | corrected member |
|---|---|---|---|---|---|---|
| src/stores/transactionStore.js:161 | The reset installs a new array, but it is a shallow copy of the module-level seed array. Its records are the seed objects themselves, and line 115 writes an edited amount into the record object found. Editing a seed record therefore changes the seed, and later resets bring the edit back. The store created at line 35 shares the same objects. | `updateTransaction(1, 25000)`, then `resetStore()`: record 1 shows 25,000, not 20,000. The balance is 1,000,000 while the records' net is -115,000. | The reset restores the three seed records as declared, so the balance again matches the records with offset 1,120,000. | high; not executed (relies on the reactive wrapper writing through to the plain record object) | SharedSeed.ResetAfterSeedEditKeepsEdit | TransactionStore.Reset |

The rest of the model uses `TransactionStore.Reset`. With it,
`StoreRuns.RunKeepsConsistent` proves the offset 1,120,000 for every sequence of
actions, resets included.

## Left out

- `formattedBalance` (locale formatting with `toLocaleString`) is a foreign library call and is not modelled.
- Money is `int`. JavaScript floating point is not modelled: fractional amounts, `Infinity`, rounding, and `Number(...)` coercion of strings. `Num` only tells a number apart from `NaN`.
- The guards against a stored amount that is not a number (src/stores/transactionStore.js:89-97 and 128-136) cannot fire once amounts are integers, so they are left out.
- The record's `type` is stored as the kind `Deposit | Withdraw`, not as text. Only recognised names reach the list, and the edit and delete actions treat every other stored value as a withdrawal.
- `Date.now()`, `new Date().toISOString()` and the stored e-mail are caller parameters. Ids are not assumed unique.
- `console.log`/`console.error` output and the Pinia/Vue reactivity wrappers are not modelled. Reactivity matters only through object identity, which `SharedSeed` models.
- The tests assign the balance directly (`store.balance = 500`). That is modelled by letting an action start from any ledger; the reachability lemmas cover the four actions only.
- `resetStore()` takes no argument and reports nothing; the model's reset takes the ledger it discards as an argument so that it fits the other actions' shape.
- The route table and its log-in guard (`src/router/index.js`), application bootstrap (`src/main.js`) and build configuration (`vitest.config.js`, `tailwind.config.js`) are UI plumbing and are not modelled.
