# Payments engine: the transaction state machine in Dafny

This project models the core of a small payments engine written in Rust
(`src/payments.rs`). The engine applies a stream of typed transactions to
per-client accounts. The transaction kinds are deposit, withdrawal, dispute,
resolve and chargeback. The accounts live in a key-value store keyed by
client id.

An account holds four things:

- the balances `available`, `held` and `total`;
- a `locked` flag;
- the lists `deposits` and `withdrawals`;
- the lifecycle lists `disputes` and `resolves`.

A deposit record moves along `deposits` → `disputes` → `resolves`, and a
chargeback discards it. Every action reads one account into a local copy,
checks its guards, updates the copy, and saves it once at the end. A failed
action returns before that save, so the store keeps the old account.

Modules, leaves first:

- `Wrappers` (wrappers.dfy): `Option` and `Result`.
- `Types` (types.dfy): `ClientID` (u16), `TxID` (u32), `Amount`, `TransactionData`, the five transaction kinds, the lifecycle records `Disputed`, `Resolved`, `Chargedback`, `Account`, `ActionError`, `InnerError`, `NewAccount`.
- `Seqs` (seqs.dfy): the two `Vec` operations the core uses, `position` and `remove`, plus `Image`, the multiset of a list's images.
- `Transactions` (transactions.dfy): the validated constructors, the `dispute`/`resolve`/`chargeback` transitions, the closures given to `position`/`find`, and the guards `check_is_locked`, `check_tx_exists`, `check_sufficient_funds`, `check_div_negative`.
- `Machine` (machine.dfy): one pure step per action kind over a store snapshot (`map<ClientID, Account>`); `Commit` (the one save, on success only); `Step`/`Apply`/`Run` over any action; the account and store invariants; `Lifecycle`, the multiset of deposit records across the three lifecycle lists.
- `Storage` (storage.dfy): class `Container`, the in-memory store used by the tests, with `get_or_create`, `get_account` and `save_account`.
- `Actions` (actions.dfy): the five `apply` methods. They work step by step on a local account and on the `Container`, and each is proved to equal its `Machine` step.
- `Invariants` (invariants.dfy): every action keeps the store invariant. That covers `total == available + held`, records owned by their account's client, unique tx-ids across deposits and withdrawals, and each account stored under its own client.
- `Properties` (properties.dfy): error cases and effects of each action, lifecycle moves, and lock permanence.
- `Scenarios` (scenarios.dfy): the unit tests as lemmas over concrete runs, plus three runs that show how far tx-id uniqueness reaches.

Amounts are `real`. The core only adds, subtracts and compares
`rust_decimal::Decimal` values. A real does these exactly; it does not round
or overflow the way a 96-bit decimal can (see "## Left out").
`c.is_sign_negative()` on `c = a - b` is read as `a - b < 0`.

Where the code is weaker than a natural reading of its invariants, the model
follows the code:

- `check_tx_exists` (src/payments.rs:404-412) looks only at the current
  `deposits` and `withdrawals` of the client's own account. A disputed
  deposit's tx-id can therefore be deposited again
  (`Scenarios.DisputedTxCanBeDepositedAgain`). Any other client may reuse a
  tx-id (`Scenarios.OtherClientMayReuseTx`). A withdrawal's tx-id is never
  accepted again for that client (`Properties.WithdrawalTxNeverReaccepted`).
- Because of the first point, `disputes` can hold two records with the same
  tx-id. A resolve moves only the first of them, so the tx-id may still be in
  `disputes` afterwards (`Scenarios.ResolveLeavesSecondDispute`).
- Amounts are not checked for sign. A negative deposit that is then disputed
  makes `held` negative. For that reason, the second guarded subtraction in
  withdrawal and chargeback (on `total`) can fail on its own, and the model
  keeps it.
- A chargeback is only reachable from a resolved record. It takes the amount
  off `available` and `total` and leaves `held` alone (src/payments.rs:539-541).
  A record that is only disputed cannot be charged back
  (`Properties.ChargebackCases`).
- The client re-checks inside `dispute`, `resolve` and `chargeback`
  (src/payments.rs:315, 329, 348) are kept. Under the store invariant they
  never fire (`Properties.DisputeCases`, `ResolveCases`, `ChargebackCases`).
  The tx-id re-checks are kept too. Each `apply` method's proof shows they
  cannot fire, because `position` already matched the tx-id.

## Model

| member | source | states |
|---|---|---|
| Types.NewAccount | src/payments.rs:178-191 | a new account has client `cid`, zero balances, is unlocked and has four empty lists |
| Seqs.Position | src/payments.rs:467-471 | returns the first index whose element satisfies the closure; `None` exactly when no element does |
| Seqs.RemoveAt | src/payments.rs:473 | `Vec::remove`: one element shorter, elements before `i` unchanged, later ones shifted down one, multiset minus the removed element |
| Seqs.ImageRemoveAt | src/payments.rs:525 | removing one element removes exactly its image from the multiset of images |
| Transactions.NewDeposit | src/payments.rs:295-308 | `InvalidType(t_type)` unless the type is deposit; `MissingAmount` without an amount; otherwise a deposit with the record's client, tx and amount |
| Transactions.NewWithdrawal | src/payments.rs:379-392 | `InvalidType(t_type)` unless the type is withdrawal; `MissingAmount` without an amount; otherwise the record's client, tx and amount |
| Transactions.NewDispute | src/payments.rs:442-457 | `InvalidType(t_type)` unless the type is dispute; `HasAmount` if an amount is present; otherwise the record's client and tx |
| Transactions.NewResolve | src/payments.rs:494-509 | `InvalidType(t_type)` unless the type is resolve; `HasAmount` if an amount is present; otherwise the record's client and tx |
| Transactions.NewChargeback | src/payments.rs:548-563 | `InvalidType(t_type)` unless the type is chargeback; `HasAmount` if an amount is present; otherwise the record's client and tx |
| Transactions.ConstructorsExclusive | src/main.rs:78-94 | at most one constructor accepts a record; exactly one does when the amount is present exactly for deposit and withdrawal |
| Transactions.ConstructorsRoundTrip | src/payments.rs:237-246 | every typed transaction is rebuilt from its own input record, and an accepted record is the record of its result |
| Transactions.DisputeDeposit | src/payments.rs:310-320 | succeeds, wrapping the deposit, exactly when tx and client match; `InvalidTxID` on a tx mismatch, else `InvalidClientID` |
| Transactions.ResolveDisputed | src/payments.rs:324-334 | succeeds, wrapping the dispute, exactly when tx and client match the deposit; errors as above |
| Transactions.ChargebackResolved | src/payments.rs:343-353 | succeeds, wrapping the resolved record, exactly when tx and client match the deposit; errors as above |
| Transactions.CheckIsLocked | src/payments.rs:362-368 | fails, with `AccountLocked`, exactly when the account is locked |
| Transactions.CheckTxExists | src/payments.rs:404-412 | fails, with `InvalidTxID`, exactly when some deposit or withdrawal of the account has the tx-id |
| Transactions.CheckSufficientFunds | src/payments.rs:396-402 | fails, with `InsufficientFunds`, exactly when `available < amount` |
| Transactions.CheckDivNegative | src/payments.rs:566-573 | succeeds exactly when `b <= a`, with a non-negative result `c` where `c + b == a`; otherwise `InsufficientFunds` |
| Machine.DepositStep | src/payments.rs:258-269 | defines a deposit on the stored account, or on `NewAccount` for an unseen client: `AccountLocked`, then `InvalidTxID`, then the amount added to `available` and `total` and the deposit appended; its properties are stated by `Properties.DepositCases` and `DepositCreatesAccount` |
| Machine.WithdrawalStep | src/payments.rs:418-431 | defines a withdrawal: `InvalidClientID` for an unseen client, `AccountLocked`, `InvalidTxID`, `InsufficientFunds` from either guarded subtraction, else the amount taken off `available` and `total` and the withdrawal appended; stated by `Properties.WithdrawalCases` |
| Machine.DisputeStep | src/payments.rs:464-485 | defines a dispute: the first deposit with the tx-id (`position`) is removed, re-checked by `dispute`, guarded on `available`, appended to `disputes`, and its amount moved to `held`; stated by `Properties.DisputeCases` and `DisputeMovesRecord` |
| Machine.ResolveStep | src/payments.rs:516-536 | defines a resolve: the first dispute with the tx-id is removed, re-checked, guarded on `held`, appended to `resolves`, and its amount moved back to `available`; stated by `Properties.ResolveCases` and `ResolveMovesRecord` |
| Machine.ChargebackStep | src/payments.rs:579-601 | defines a chargeback: the first resolved record with the tx-id is removed, re-checked, its amount taken off `available` and `total` by two guarded subtractions, and the account locked; stated by `Properties.ChargebackCases` and `ChargebackDropsRecord` |
| Machine.Commit | src/payments.rs:258-268 | defines the single `save_account` at the end of every `apply`, reached only when no `?` returned early; stated by `Properties.FailureLeavesStore` and `Invariants.CommitKeepsValid` |
| Machine.Run | src/main.rs:69-95 | the dispatch loop applies the actions in order and drops each error; no stored account is ever removed |
| Storage.Container.constructor | src/payments.rs:610-613 | the default store is empty |
| Storage.Container.GetOrCreate | src/payments.rs:616-621 | never fails; the stored account, or `NewAccount(id)` for an unseen client |
| Storage.Container.GetAccount | src/payments.rs:623-628 | succeeds exactly when the client is stored, with its account; `InvalidClientID` otherwise |
| Storage.Container.SaveAccount | src/payments.rs:630-632 | the store maps `acc.client` to `acc` and is otherwise unchanged |
| Actions.ApplyDeposit | src/payments.rs:258-269 | returns the outcome of `DepositStep` and leaves the store as `Commit` of it: saved on success, untouched on error |
| Actions.ApplyWithdrawal | src/payments.rs:418-431 | returns the outcome of `WithdrawalStep`; the store is changed only on success |
| Actions.ApplyDispute | src/payments.rs:464-485 | returns the outcome of `DisputeStep`; the store is changed only on success, although the local copy already lost the record |
| Actions.ApplyResolve | src/payments.rs:516-536 | returns the outcome of `ResolveStep`; the store is changed only on success |
| Actions.ApplyChargeback | src/payments.rs:579-601 | returns the outcome of `ChargebackStep`; the store is changed only on success |
| Invariants.StepWritesOwnClient | src/payments.rs:630-632 | under the store invariant, an accepted action writes only the entry of its own client |
| Invariants.StepKeepsBalance | src/payments.rs:254-602 | every accepted action keeps `total == available + held` |
| Invariants.DepositKeepsValid | src/payments.rs:263-265 | a deposit with a fresh tx-id keeps the account invariant |
| Invariants.WithdrawalKeepsValid | src/payments.rs:424-426 | a withdrawal with a fresh tx-id keeps the account invariant |
| Invariants.RemoveDepositKeepsUnique | src/payments.rs:473 | removing a deposit keeps tx-ids unique |
| Invariants.CommitKeepsValid | src/payments.rs:630-632 | saving a valid account under its client keeps the store valid |
| Invariants.DepositApplyKeepsValid | src/payments.rs:258-269 | a deposit, accepted or not, keeps the store invariant |
| Invariants.WithdrawalApplyKeepsValid | src/payments.rs:418-431 | a withdrawal keeps the store invariant |
| Invariants.DisputeApplyKeepsValid | src/payments.rs:464-485 | a dispute keeps the store invariant |
| Invariants.ResolveApplyKeepsValid | src/payments.rs:516-536 | a resolve keeps the store invariant |
| Invariants.ChargebackApplyKeepsValid | src/payments.rs:579-601 | a chargeback keeps the store invariant |
| Invariants.ApplyKeepsValid | src/payments.rs:254-602 | every action keeps the store invariant |
| Invariants.RunKeepsValid | src/main.rs:69-95 | after any sequence of actions the store is valid and every account has `total == available + held` |
| Properties.FailureLeavesStore | src/payments.rs:254-602 | a rejected action leaves the whole store unchanged |
| Properties.DepositCases | src/payments.rs:258-269 | locked: `AccountLocked`; tx-id used: `InvalidTxID`; otherwise `available` and `total` grow by the amount, `held` and `locked` stay, the deposit is appended and the other lists stay |
| Properties.DepositCreatesAccount | src/payments.rs:616-621 | a first deposit of an unseen client stores `(amount, 0, amount, unlocked, [d], [], [], [])` |
| Properties.WithdrawalCases | src/payments.rs:418-431 | unseen client: `InvalidClientID`; locked: `AccountLocked`; used tx-id: `InvalidTxID`; `available < amount`: `InsufficientFunds`; enough available but `total < amount`: `InsufficientFunds` as well; accepted exactly when all guards pass, taking the amount off `available` and `total` and appending the withdrawal |
| Properties.UsedTxRejected | src/payments.rs:404-412 | a deposit or withdrawal whose tx-id the account's deposits or withdrawals hold fails, with `InvalidTxID` when unlocked |
| Properties.WithdrawalsOnlyGrow | src/payments.rs:426 | an account's withdrawals list only grows by appending, over any run |
| Properties.WithdrawalTxNeverReaccepted | src/payments.rs:404-412 | after an accepted withdrawal, no later deposit or withdrawal of that client with its tx-id is accepted |
| Properties.DisputeCases | src/payments.rs:464-485 | unseen: `InvalidClientID`; locked: `AccountLocked`; no deposit with the tx-id: `InvalidTxID`; otherwise accepted exactly when its amount is available, else `InsufficientFunds`; never `InvalidClientID` for a stored client |
| Properties.ResolveCases | src/payments.rs:516-536 | as for dispute, over the first dispute with the tx-id and against `held` |
| Properties.ChargebackCases | src/payments.rs:579-601 | as for dispute, over the first resolved record with the tx-id, against both `available` and `total` |
| Properties.DepositAddsRecord | src/payments.rs:265 | a deposit adds exactly its record to the lifecycle; a withdrawal leaves it unchanged |
| Properties.DisputeMovesRecord | src/payments.rs:467-480 | the first deposit with the tx-id (no earlier one has it) leaves `deposits` and is appended to `disputes`; its amount moves from `available` to `held`; client, `total`, `locked` and the other lists stay; with unique tx-ids no deposit with it is left |
| Properties.DisputeKeepsLifecycle | src/payments.rs:473-478 | a dispute neither loses nor copies a deposit record |
| Properties.ResolveMovesRecord | src/payments.rs:519-531 | the first dispute with the tx-id (no earlier one has it) leaves `disputes` and is appended to `resolves`; its amount moves from `held` to `available`; client, `total`, `locked` and the other lists stay |
| Properties.ResolveKeepsLifecycle | src/payments.rs:525-529 | a resolve neither loses nor copies a deposit record |
| Properties.ChargebackDropsRecord | src/payments.rs:583-596 | the first resolved record with the tx-id (no earlier one has it) is removed; `available` and `total` drop by its amount; client, `held` and the other lists stay; the account is locked |
| Properties.ChargebackShrinksLifecycle | src/payments.rs:589-593 | a chargeback removes exactly one deposit record with its tx-id from the lifecycle |
| Properties.LockedAccountRejectsAll | src/payments.rs:362-368 | every action on a locked account fails with `AccountLocked` and leaves the store unchanged |
| Properties.LockedStaysLocked | src/payments.rs:596 | a locked account is unchanged by any later run |
| Properties.LockedForever | src/payments.rs:793-841 | every later action on a locked account fails with `AccountLocked` |
| Properties.ChargebackFreezesAccount | src/payments.rs:579-601 | after an accepted chargeback the account is locked and every later action on it fails with `AccountLocked` |
| Scenarios.FirstDeposit | src/payments.rs:636-665 | deposit(1, 1, 1.0) on an empty store gives account 1 = (1, 0, 1, unlocked, [d]) |
| Scenarios.DepositTest | src/payments.rs:636-674 | two deposits of 1.0 give available 2, total 2, both deposits in order |
| Scenarios.DuplicateDepositTest | src/payments.rs:677-691 | repeating a deposit fails with `InvalidTxID` and changes nothing |
| Scenarios.WithdrawalTest | src/payments.rs:694-761 | withdrawing 1.0 of 1.0 empties the balances; withdrawing 2.0 fails with `InsufficientFunds` and changes nothing |
| Scenarios.DisputeProcessTest | src/payments.rs:844-943 | deposit, dispute, resolve, chargeback give (1,0,1) → (0,1,1) → (1,0,1) → (0,0,0, locked) |
| Scenarios.FrozenAccountTest | src/payments.rs:793-841 | after that sequence a new deposit fails with `AccountLocked` |
| Scenarios.DisputedTxCanBeDepositedAgain | src/payments.rs:404-412 | after a dispute of tx 1 a new deposit with tx 1 is accepted |
| Scenarios.OtherClientMayReuseTx | src/payments.rs:404-412 | a second client may deposit with a tx-id the first client used |
| Scenarios.ResolveLeavesSecondDispute | src/payments.rs:519-525 | with two disputes of tx 1, a resolve of tx 1 moves only the older one |
| Scenarios.SecondDispute | src/payments.rs:467-480 | disputing the redeposited tx 1 appends a second dispute with that tx-id behind the first one |
| Scenarios.ResolveFirstDispute | src/payments.rs:519-525 | with two disputes of tx 1 pending, a resolve of tx 1 removes the older one and leaves the later one |

## Left out

- The sled-backed `DB`, its `Drop` that clears and flushes the database, and `AccountsIterator` (src/payments.rs:30-61, 83-112): a foreign persistence engine with bincode encoding and panics on I/O errors. The store is the map of the in-memory test container, whose `get_or_create` cannot fail.
- `AccountData`, `round_serialize` and the rounding to four decimal places (src/payments.rs:119-145, 168-176): output formatting done by `rust_decimal`. The output rendering of the `decimal_format` test is therefore not modelled either; its input value from `from_f64` is also a binary float conversion.
- All of src/main.rs: argument handling, CSV reading and writing, and the dispatch loop that drops errors. `Machine.Run` stands in for that loop when properties span several actions.
- `Accounts::handle` (src/payments.rs:63-70): a one-line pass-through. The actions are applied to the store directly.
- The `Transaction<T>` wrapper struct: the lists hold the records themselves.
- `Decimal` range and precision: a real never overflows, while `rust_decimal` arithmetic panics past 96 bits. A real sum or difference is also exact, while `rust_decimal` rounds a result whose exact value does not fit its 96-bit mantissa at the current scale; the model does not reproduce that rounding. A negative zero from `is_sign_negative` is not modelled either.
- `#[non_exhaustive]` on the error enums: the Dafny datatypes are closed.
