/** The transaction state machine as functions over a snapshot of the store:
    what each action does to the one account it touches, and the invariants
    an account and the store keep. */
module Machine {

  import opened Wrappers
  import opened Types
  import opened Seqs
  import opened Transactions

  /** The content of the account store: accounts keyed by client. */
  type Snapshot = map<ClientID, Account>

  // ----- One step per action kind -----

  /** A deposit, on the stored account or on a new one for an unseen client. */
  function DepositStep(db: Snapshot, d: Deposit): Result<Account, ActionError>
  {
    var acc := if d.client in db then db[d.client] else NewAccount(d.client);
    if acc.locked then Failure(AccountLocked)
    else if TxUsed(acc, d.tx) then Failure(InvalidTxID)
    else Success(acc.(available := acc.available + d.amount,
                      total := acc.total + d.amount,
                      deposits := acc.deposits + [d]))
  }

  /** A withdrawal; the account must already exist. Both subtractions are
      guarded, the first by `check_sufficient_funds` as well. */
  function WithdrawalStep(db: Snapshot, w: Withdrawal): Result<Account, ActionError>
  {
    if w.client !in db then Failure(InvalidClientID)
    else
      var acc := db[w.client];
      if acc.locked then Failure(AccountLocked)
      else if TxUsed(acc, w.tx) then Failure(InvalidTxID)
      else if acc.available < w.amount then Failure(InsufficientFunds)
      else if acc.total < w.amount then Failure(InsufficientFunds)
      else Success(acc.(available := acc.available - w.amount,
                        total := acc.total - w.amount,
                        withdrawals := acc.withdrawals + [w]))
  }

  /** A dispute moves the first deposit with its tx-id to `disputes` and its
      amount from `available` to `held`. */
  function DisputeStep(db: Snapshot, d: Dispute): Result<Account, ActionError>
  {
    if d.client !in db then Failure(InvalidClientID)
    else
      var acc := db[d.client];
      if acc.locked then Failure(AccountLocked)
      else
        match Position(acc.deposits, DepositHasTx(d.tx))
        case None => Failure(InvalidTxID)
        case Some(p) =>
          var dep := acc.deposits[p];
          if dep.client != d.client then Failure(InvalidClientID)
          else if acc.available < dep.amount then Failure(InsufficientFunds)
          else Success(acc.(deposits := RemoveAt(acc.deposits, p),
                            disputes := acc.disputes + [Disputed(dep)],
                            available := acc.available - dep.amount,
                            held := acc.held + dep.amount))
  }

  /** A resolve moves the first dispute with its tx-id to `resolves` and its
      amount from `held` back to `available`. */
  function ResolveStep(db: Snapshot, r: Resolve): Result<Account, ActionError>
  {
    if r.client !in db then Failure(InvalidClientID)
    else
      var acc := db[r.client];
      if acc.locked then Failure(AccountLocked)
      else
        match Position(acc.disputes, DisputedHasTx(r.tx))
        case None => Failure(InvalidTxID)
        case Some(p) =>
          var rec := acc.disputes[p];
          if rec.deposit.client != r.client then Failure(InvalidClientID)
          else if acc.held < rec.deposit.amount then Failure(InsufficientFunds)
          else Success(acc.(disputes := RemoveAt(acc.disputes, p),
                            resolves := acc.resolves + [Resolved(rec)],
                            held := acc.held - rec.deposit.amount,
                            available := acc.available + rec.deposit.amount))
  }

  /** A chargeback drops the first resolved record with its tx-id, takes its
      amount off `available` and `total` (not `held`) and locks the account. */
  function ChargebackStep(db: Snapshot, c: Chargeback): Result<Account, ActionError>
  {
    if c.client !in db then Failure(InvalidClientID)
    else
      var acc := db[c.client];
      if acc.locked then Failure(AccountLocked)
      else
        match Position(acc.resolves, ResolvedHasTx(c.tx))
        case None => Failure(InvalidTxID)
        case Some(p) =>
          var dep := acc.resolves[p].disputed.deposit;
          if dep.client != c.client then Failure(InvalidClientID)
          else if acc.available < dep.amount then Failure(InsufficientFunds)
          else if acc.total < dep.amount then Failure(InsufficientFunds)
          else Success(acc.(resolves := RemoveAt(acc.resolves, p),
                            available := acc.available - dep.amount,
                            total := acc.total - dep.amount,
                            locked := true))
  }

  /** The single write that ends a successful action; a failed one writes nothing. */
  function Commit(db: Snapshot, r: Result<Account, ActionError>): Snapshot
  {
    if r.Success? then db[r.value.client := r.value] else db
  }

  /** What `apply` returns for a step's outcome. */
  function Outcome(r: Result<Account, ActionError>): Result<(), ActionError>
  {
    if r.Success? then Success(()) else Failure(r.error)
  }

  // ----- All actions together -----

  datatype Action =
    | DepositAction(deposit: Deposit)
    | WithdrawalAction(withdrawal: Withdrawal)
    | DisputeAction(dispute: Dispute)
    | ResolveAction(resolve: Resolve)
    | ChargebackAction(chargeback: Chargeback)

  function ClientOf(a: Action): ClientID
  {
    match a
    case DepositAction(d) => d.client
    case WithdrawalAction(w) => w.client
    case DisputeAction(d) => d.client
    case ResolveAction(r) => r.client
    case ChargebackAction(c) => c.client
  }

  /** The deposit or withdrawal `a` would record under tx-id `tx`. */
  predicate IntroducesTx(a: Action, tx: TxID)
  {
    (a.DepositAction? && a.deposit.tx == tx) || (a.WithdrawalAction? && a.withdrawal.tx == tx)
  }

  function Step(db: Snapshot, a: Action): Result<Account, ActionError>
  {
    match a
    case DepositAction(d) => DepositStep(db, d)
    case WithdrawalAction(w) => WithdrawalStep(db, w)
    case DisputeAction(d) => DisputeStep(db, d)
    case ResolveAction(r) => ResolveStep(db, r)
    case ChargebackAction(c) => ChargebackStep(db, c)
  }

  function Apply(db: Snapshot, a: Action): Snapshot
  {
    Commit(db, Step(db, a))
  }

  /** Actions applied one after another, a rejected one being skipped. An
      account, once stored, is never removed. */
  function Run(db: Snapshot, acts: seq<Action>): (r: Snapshot)
    ensures db.Keys <= r.Keys
    decreases |acts|
  {
    if acts == [] then db else Run(Apply(db, acts[0]), acts[1..])
  }

  // ----- Invariants -----

  predicate Balanced(acc: Account)
  {
    acc.total == acc.available + acc.held
  }

  /** Every record in an account belongs to that account's client. */
  predicate Owned(acc: Account)
  {
    (forall i :: 0 <= i < |acc.deposits| ==> acc.deposits[i].client == acc.client) &&
    (forall i :: 0 <= i < |acc.withdrawals| ==> acc.withdrawals[i].client == acc.client) &&
    (forall i :: 0 <= i < |acc.disputes| ==> acc.disputes[i].deposit.client == acc.client) &&
    (forall i :: 0 <= i < |acc.resolves| ==> acc.resolves[i].disputed.deposit.client == acc.client)
  }

  /** No tx-id occurs twice among an account's deposits and withdrawals. */
  predicate TxIdsUnique(acc: Account)
  {
    (forall i, j :: 0 <= i < j < |acc.deposits| ==> acc.deposits[i].tx != acc.deposits[j].tx) &&
    (forall i, j :: 0 <= i < j < |acc.withdrawals| ==> acc.withdrawals[i].tx != acc.withdrawals[j].tx) &&
    (forall i, j :: 0 <= i < |acc.deposits| && 0 <= j < |acc.withdrawals| ==>
       acc.deposits[i].tx != acc.withdrawals[j].tx)
  }

  predicate AccountValid(acc: Account)
  {
    Balanced(acc) && Owned(acc) && TxIdsUnique(acc)
  }

  predicate StoreValid(db: Snapshot)
  {
    forall c :: c in db ==> db[c].client == c && AccountValid(db[c])
  }

  function UnwrapDisputed(e: Disputed): Deposit
  {
    e.deposit
  }

  function UnwrapResolved(e: Resolved): Deposit
  {
    e.disputed.deposit
  }

  /** Every deposit record of an account, whichever lifecycle list holds it. */
  function Lifecycle(acc: Account): multiset<Deposit>
  {
    multiset(acc.deposits) + Image(acc.disputes, UnwrapDisputed) + Image(acc.resolves, UnwrapResolved)
  }
}
