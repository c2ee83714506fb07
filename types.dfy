/** The entities of the payments engine: identifiers, amounts, the loose input
    record, the typed transaction kinds, the lifecycle records and the account. */
module Types {

  import opened Wrappers

  /** `ClientID` is a `u16`. */
  type ClientID = x: int | 0 <= x < 0x1_0000

  /** `TxID` is a `u32`. */
  type TxID = x: int | 0 <= x < 0x1_0000_0000

  /** A `rust_decimal::Decimal`. The core only adds, subtracts and compares
      amounts; a real does these exactly, without the rounding or overflow
      of a 96-bit decimal. */
  type Amount = real

  datatype TransactionType = DepositType | WithdrawalType | DisputeType | ResolveType | ChargebackType

  /** The loosely typed record read from one input row. */
  datatype TransactionData = TransactionData(
    tType: TransactionType,
    client: ClientID,
    tx: TxID,
    amount: Option<Amount>)

  /** The five validated transaction kinds. */
  datatype Deposit = Deposit(client: ClientID, tx: TxID, amount: Amount)
  datatype Withdrawal = Withdrawal(client: ClientID, tx: TxID, amount: Amount)
  datatype Dispute = Dispute(client: ClientID, tx: TxID)
  datatype Resolve = Resolve(client: ClientID, tx: TxID)
  datatype Chargeback = Chargeback(client: ClientID, tx: TxID)

  /** Lifecycle records: each one owns the record of the previous stage. */
  datatype Disputed = Disputed(deposit: Deposit)
  datatype Resolved = Resolved(disputed: Disputed)
  datatype Chargedback = Chargedback(resolved: Resolved)

  datatype Account = Account(
    client: ClientID,
    available: Amount,
    held: Amount,
    total: Amount,
    locked: bool,
    deposits: seq<Deposit>,
    withdrawals: seq<Withdrawal>,
    disputes: seq<Disputed>,
    resolves: seq<Resolved>)

  datatype ActionError = AccountLocked | InsufficientFunds | InvalidClientID | InvalidTxID

  datatype InnerError = InvalidType(tType: TransactionType) | MissingAmount | HasAmount

  /** `Account::new`: the account a first deposit creates for an unseen client. */
  function NewAccount(cid: ClientID): (acc: Account)
    ensures acc.client == cid && !acc.locked
    ensures acc.available == acc.held == acc.total == 0.0
    ensures acc.deposits == [] && acc.withdrawals == [] && acc.disputes == [] && acc.resolves == []
  {
    Account(cid, 0.0, 0.0, 0.0, false, [], [], [], [])
  }
}
