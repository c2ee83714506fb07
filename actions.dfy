/** The five `Action::apply` implementations. Each reads one account into a
    local copy, runs the guards, updates that copy field by field and list
    by list, and writes it back once; an early error return skips the write,
    so changes already made to the local copy are lost. Each method is proved
    to do exactly what the matching step of `Machine` describes. */
module Actions {

  import opened Wrappers
  import opened Types
  import opened Seqs
  import opened Transactions
  import opened Machine
  import opened Storage

  method ApplyDeposit(store: Container, d: Deposit) returns (r: Result<(), ActionError>)
    modifies store
    ensures r == Outcome(DepositStep(old(store.data), d))
    ensures store.data == Commit(old(store.data), DepositStep(old(store.data), d))
  {
    // the in-memory store's `get_or_create` never fails
    var got := store.GetOrCreate(d.client);
    var acc := got.Extract();
    var _ :- CheckIsLocked(acc);
    var _ :- CheckTxExists(d.tx, acc);

    acc := acc.(available := acc.available + d.amount);
    acc := acc.(total := acc.total + d.amount);
    acc := acc.(deposits := acc.deposits + [d]);

    store.SaveAccount(acc);
    return Success(());
  }

  method ApplyWithdrawal(store: Container, w: Withdrawal) returns (r: Result<(), ActionError>)
    modifies store
    ensures r == Outcome(WithdrawalStep(old(store.data), w))
    ensures store.data == Commit(old(store.data), WithdrawalStep(old(store.data), w))
  {
    var acc :- store.GetAccount(w.client);
    var _ :- CheckIsLocked(acc);
    var _ :- CheckTxExists(w.tx, acc);
    var _ :- CheckSufficientFunds(w.amount, acc);

    // cannot fail once `check_sufficient_funds` has passed
    var available := CheckDivNegative(acc.available, w.amount);
    acc := acc.(available := available.Extract());
    var total :- CheckDivNegative(acc.total, w.amount);
    acc := acc.(total := total);
    acc := acc.(withdrawals := acc.withdrawals + [w]);

    store.SaveAccount(acc);
    return Success(());
  }

  method ApplyDispute(store: Container, d: Dispute) returns (r: Result<(), ActionError>)
    modifies store
    ensures r == Outcome(DisputeStep(old(store.data), d))
    ensures store.data == Commit(old(store.data), DisputeStep(old(store.data), d))
  {
    var acc :- store.GetAccount(d.client);
    var _ :- CheckIsLocked(acc);
    var found := Position(acc.deposits, DepositHasTx(d.tx));
    if found.None? {
      return Failure(InvalidTxID);
    }
    var pos := found.value;

    var tx := acc.deposits[pos];
    acc := acc.(deposits := RemoveAt(acc.deposits, pos));

    var amount := tx.amount;
    var disputed :- DisputeDeposit(tx, d);

    acc := acc.(disputes := acc.disputes + [disputed]);
    var available :- CheckDivNegative(acc.available, amount);
    acc := acc.(available := available);
    acc := acc.(held := acc.held + amount);

    store.SaveAccount(acc);
    return Success(());
  }

  method ApplyResolve(store: Container, res: Resolve) returns (r: Result<(), ActionError>)
    modifies store
    ensures r == Outcome(ResolveStep(old(store.data), res))
    ensures store.data == Commit(old(store.data), ResolveStep(old(store.data), res))
  {
    var acc :- store.GetAccount(res.client);
    var _ :- CheckIsLocked(acc);
    var found := Position(acc.disputes, DisputedHasTx(res.tx));
    if found.None? {
      return Failure(InvalidTxID);
    }
    var pos := found.value;

    var tx := acc.disputes[pos];
    acc := acc.(disputes := RemoveAt(acc.disputes, pos));
    var amount := tx.deposit.amount;
    var resolved :- ResolveDisputed(tx, res);

    acc := acc.(resolves := acc.resolves + [resolved]);
    var held :- CheckDivNegative(acc.held, amount);
    acc := acc.(held := held);
    acc := acc.(available := acc.available + amount);

    store.SaveAccount(acc);
    return Success(());
  }

  method ApplyChargeback(store: Container, c: Chargeback) returns (r: Result<(), ActionError>)
    modifies store
    ensures r == Outcome(ChargebackStep(old(store.data), c))
    ensures store.data == Commit(old(store.data), ChargebackStep(old(store.data), c))
  {
    var acc :- store.GetAccount(c.client);
    var _ :- CheckIsLocked(acc);
    var found := Position(acc.resolves, ResolvedHasTx(c.tx));
    if found.None? {
      return Failure(InvalidTxID);
    }
    var pos := found.value;

    var tx := acc.resolves[pos];
    acc := acc.(resolves := RemoveAt(acc.resolves, pos));
    var amount := tx.disputed.deposit.amount;
    // the charged-back record is the terminal state and is not stored
    var _ :- ChargebackResolved(tx, c);
    var available :- CheckDivNegative(acc.available, amount);
    acc := acc.(available := available);
    var total :- CheckDivNegative(acc.total, amount);
    acc := acc.(total := total);
    acc := acc.(locked := true);

    store.SaveAccount(acc);
    return Success(());
  }
}
