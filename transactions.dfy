/** Validated construction of the typed transactions, the lifecycle
    transitions `dispute`, `resolve` and `chargeback`, and the guard helpers
    the actions use. */
module Transactions {

  import opened Wrappers
  import opened Types
  import opened Seqs

  // ----- Construction from the loose input record -----

  /** `Transaction::<Deposit>::new`. */
  function NewDeposit(t: TransactionData): (r: Result<Deposit, InnerError>)
    ensures t.tType != DepositType ==> r == Failure(InvalidType(t.tType))
    ensures t.tType == DepositType && t.amount.None? ==> r == Failure(MissingAmount)
    ensures r.Success? <==> t.tType == DepositType && t.amount.Some?
    ensures r.Success? ==> r.value.client == t.client && r.value.tx == t.tx && r.value.amount == t.amount.value
  {
    if t.tType != DepositType then Failure(InvalidType(t.tType))
    else if t.amount.None? then Failure(MissingAmount)
    else Success(Deposit(t.client, t.tx, t.amount.value))
  }

  /** `Transaction::<Withdrawal>::new`. */
  function NewWithdrawal(t: TransactionData): (r: Result<Withdrawal, InnerError>)
    ensures t.tType != WithdrawalType ==> r == Failure(InvalidType(t.tType))
    ensures t.tType == WithdrawalType && t.amount.None? ==> r == Failure(MissingAmount)
    ensures r.Success? <==> t.tType == WithdrawalType && t.amount.Some?
    ensures r.Success? ==> r.value.client == t.client && r.value.tx == t.tx && r.value.amount == t.amount.value
  {
    if t.tType != WithdrawalType then Failure(InvalidType(t.tType))
    else if t.amount.None? then Failure(MissingAmount)
    else Success(Withdrawal(t.client, t.tx, t.amount.value))
  }

  /** `Transaction::<Dispute>::new`. */
  function NewDispute(t: TransactionData): (r: Result<Dispute, InnerError>)
    ensures t.tType != DisputeType ==> r == Failure(InvalidType(t.tType))
    ensures t.tType == DisputeType && t.amount.Some? ==> r == Failure(HasAmount)
    ensures r.Success? <==> t.tType == DisputeType && t.amount.None?
    ensures r.Success? ==> r.value.client == t.client && r.value.tx == t.tx
  {
    if t.tType != DisputeType then Failure(InvalidType(t.tType))
    else if t.amount.Some? then Failure(HasAmount)
    else Success(Dispute(t.client, t.tx))
  }

  /** `Transaction::<Resolve>::new`. */
  function NewResolve(t: TransactionData): (r: Result<Resolve, InnerError>)
    ensures t.tType != ResolveType ==> r == Failure(InvalidType(t.tType))
    ensures t.tType == ResolveType && t.amount.Some? ==> r == Failure(HasAmount)
    ensures r.Success? <==> t.tType == ResolveType && t.amount.None?
    ensures r.Success? ==> r.value.client == t.client && r.value.tx == t.tx
  {
    if t.tType != ResolveType then Failure(InvalidType(t.tType))
    else if t.amount.Some? then Failure(HasAmount)
    else Success(Resolve(t.client, t.tx))
  }

  /** `Transaction::<Chargeback>::new`. */
  function NewChargeback(t: TransactionData): (r: Result<Chargeback, InnerError>)
    ensures t.tType != ChargebackType ==> r == Failure(InvalidType(t.tType))
    ensures t.tType == ChargebackType && t.amount.Some? ==> r == Failure(HasAmount)
    ensures r.Success? <==> t.tType == ChargebackType && t.amount.None?
    ensures r.Success? ==> r.value.client == t.client && r.value.tx == t.tx
  {
    if t.tType != ChargebackType then Failure(InvalidType(t.tType))
    else if t.amount.Some? then Failure(HasAmount)
    else Success(Chargeback(t.client, t.tx))
  }

  /** The number of constructors that accept `t`. */
  function Accepting(t: TransactionData): nat
  {
    (if NewDeposit(t).Success? then 1 else 0) +
    (if NewWithdrawal(t).Success? then 1 else 0) +
    (if NewDispute(t).Success? then 1 else 0) +
    (if NewResolve(t).Success? then 1 else 0) +
    (if NewChargeback(t).Success? then 1 else 0)
  }

  /** A record is accepted by at most one constructor, and by exactly one
      when its amount is present exactly for the kinds that carry one. */
  lemma ConstructorsExclusive(t: TransactionData)
    ensures Accepting(t) <= 1
    ensures Accepting(t) == 1 <==> (t.amount.Some? <==> t.tType in {DepositType, WithdrawalType})
  {
  }

  /** The input record a deposit is read from. */
  function DepositData(d: Deposit): TransactionData
  {
    TransactionData(DepositType, d.client, d.tx, Some(d.amount))
  }

  function WithdrawalData(w: Withdrawal): TransactionData
  {
    TransactionData(WithdrawalType, w.client, w.tx, Some(w.amount))
  }

  function DisputeData(d: Dispute): TransactionData
  {
    TransactionData(DisputeType, d.client, d.tx, None)
  }

  function ResolveData(r: Resolve): TransactionData
  {
    TransactionData(ResolveType, r.client, r.tx, None)
  }

  function ChargebackData(c: Chargeback): TransactionData
  {
    TransactionData(ChargebackType, c.client, c.tx, None)
  }

  /** Every typed transaction is constructed from its own input record, and
      an accepted record is the record of the value it produced. */
  lemma ConstructorsRoundTrip(d: Deposit, w: Withdrawal, p: Dispute, r: Resolve, c: Chargeback, t: TransactionData)
    ensures NewDeposit(DepositData(d)) == Success(d)
    ensures NewWithdrawal(WithdrawalData(w)) == Success(w)
    ensures NewDispute(DisputeData(p)) == Success(p)
    ensures NewResolve(ResolveData(r)) == Success(r)
    ensures NewChargeback(ChargebackData(c)) == Success(c)
    ensures NewDeposit(t).Success? ==> DepositData(NewDeposit(t).value) == t
    ensures NewWithdrawal(t).Success? ==> WithdrawalData(NewWithdrawal(t).value) == t
    ensures NewDispute(t).Success? ==> DisputeData(NewDispute(t).value) == t
    ensures NewResolve(t).Success? ==> ResolveData(NewResolve(t).value) == t
    ensures NewChargeback(t).Success? ==> ChargebackData(NewChargeback(t).value) == t
  {
  }

  // ----- Lifecycle transitions -----

  /** `Transaction::<Deposit>::dispute`: wraps the deposit once the dispute
      names its tx-id and its client. */
  function DisputeDeposit(dep: Deposit, d: Dispute): (r: Result<Disputed, ActionError>)
    ensures r.Success? <==> d.tx == dep.tx && d.client == dep.client
    ensures d.tx != dep.tx ==> r == Failure(InvalidTxID)
    ensures d.tx == dep.tx && d.client != dep.client ==> r == Failure(InvalidClientID)
    ensures r.Success? ==> r.value.deposit == dep
  {
    if d.tx != dep.tx then Failure(InvalidTxID)
    else if d.client != dep.client then Failure(InvalidClientID)
    else Success(Disputed(dep))
  }

  /** `Disputed::resolve`. */
  function ResolveDisputed(rec: Disputed, r: Resolve): (res: Result<Resolved, ActionError>)
    ensures res.Success? <==> r.tx == rec.deposit.tx && r.client == rec.deposit.client
    ensures r.tx != rec.deposit.tx ==> res == Failure(InvalidTxID)
    ensures r.tx == rec.deposit.tx && r.client != rec.deposit.client ==> res == Failure(InvalidClientID)
    ensures res.Success? ==> res.value.disputed == rec
  {
    if r.tx != rec.deposit.tx then Failure(InvalidTxID)
    else if r.client != rec.deposit.client then Failure(InvalidClientID)
    else Success(Resolved(rec))
  }

  /** `Resolved::chargeback`. */
  function ChargebackResolved(rec: Resolved, c: Chargeback): (res: Result<Chargedback, ActionError>)
    ensures res.Success? <==> c.tx == rec.disputed.deposit.tx && c.client == rec.disputed.deposit.client
    ensures c.tx != rec.disputed.deposit.tx ==> res == Failure(InvalidTxID)
    ensures c.tx == rec.disputed.deposit.tx && c.client != rec.disputed.deposit.client ==> res == Failure(InvalidClientID)
    ensures res.Success? ==> res.value.resolved == rec
  {
    if c.tx != rec.disputed.deposit.tx then Failure(InvalidTxID)
    else if c.client != rec.disputed.deposit.client then Failure(InvalidClientID)
    else Success(Chargedback(rec))
  }

  // ----- Closures handed to `position` and `find` -----

  function DepositHasTx(tx: TxID): Deposit -> bool
  {
    (e: Deposit) => e.tx == tx
  }

  function WithdrawalHasTx(tx: TxID): Withdrawal -> bool
  {
    (e: Withdrawal) => e.tx == tx
  }

  function DisputedHasTx(tx: TxID): Disputed -> bool
  {
    (e: Disputed) => e.deposit.tx == tx
  }

  function ResolvedHasTx(tx: TxID): Resolved -> bool
  {
    (e: Resolved) => e.disputed.deposit.tx == tx
  }

  // ----- Guards -----

  /** A tx-id is taken in an account when one of its current deposits or
      withdrawals carries it. */
  predicate TxUsed(acc: Account, tx: TxID)
  {
    (exists i :: 0 <= i < |acc.deposits| && acc.deposits[i].tx == tx) ||
    (exists i :: 0 <= i < |acc.withdrawals| && acc.withdrawals[i].tx == tx)
  }

  /** `check_is_locked`. */
  function CheckIsLocked(acc: Account): (r: Result<(), ActionError>)
    ensures r.Failure? <==> acc.locked
    ensures r.Failure? ==> r.error == AccountLocked
  {
    if acc.locked then Failure(AccountLocked) else Success(())
  }

  /** `check_tx_exists`: `find(..).is_some()` over deposits and withdrawals. */
  function CheckTxExists(tx: TxID, acc: Account): (r: Result<(), ActionError>)
    ensures r.Failure? <==> TxUsed(acc, tx)
    ensures r.Failure? ==> r.error == InvalidTxID
  {
    var isDeposit := Position(acc.deposits, DepositHasTx(tx)).Some?;
    var isWithdrawal := Position(acc.withdrawals, WithdrawalHasTx(tx)).Some?;
    if isDeposit || isWithdrawal then Failure(InvalidTxID) else Success(())
  }

  /** `check_sufficient_funds`. */
  function CheckSufficientFunds(amount: Amount, acc: Account): (r: Result<(), ActionError>)
    ensures r.Failure? <==> acc.available < amount
    ensures r.Failure? ==> r.error == InsufficientFunds
  {
    if acc.available < amount then Failure(InsufficientFunds) else Success(())
  }

  /** `check_div_negative`: `a - b`, refused when it is negative. */
  function CheckDivNegative(a: Amount, b: Amount): (r: Result<Amount, ActionError>)
    ensures r.Success? <==> b <= a
    ensures r.Success? ==> r.value >= 0.0 && r.value + b == a
    ensures r.Failure? ==> r.error == InsufficientFunds
  {
    var c := a - b;
    if c < 0.0 then Failure(InsufficientFunds) else Success(c)
  }
}
