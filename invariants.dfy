/** The invariants every successful action keeps: the balance identity, each
    record belonging to its account's client, unique tx-ids among deposits
    and withdrawals, and every account stored under its own client. */
module Invariants {

  import opened Wrappers
  import opened Types
  import opened Seqs
  import opened Transactions
  import opened Machine

  /** The account an action reads: the stored one, or for a deposit on an
      unseen client the new account `get_or_create` makes. */
  function Before(db: Snapshot, a: Action): Account
  {
    if ClientOf(a) in db then db[ClientOf(a)] else NewAccount(ClientOf(a))
  }

  /** A successful action writes the account it read back under the same
      client, so no other entry of the store changes. */
  lemma StepWritesOwnClient(db: Snapshot, a: Action)
    requires StoreValid(db)
    requires Step(db, a).Success?
    ensures Step(db, a).value.client == ClientOf(a)
    ensures Apply(db, a) == db[ClientOf(a) := Step(db, a).value]
    ensures forall c :: c in db && c != ClientOf(a) ==> c in Apply(db, a) && Apply(db, a)[c] == db[c]
  {
  }

  /** Every successful action keeps `total == available + held`. */
  lemma StepKeepsBalance(db: Snapshot, a: Action)
    requires Balanced(Before(db, a))
    requires Step(db, a).Success?
    ensures Balanced(Step(db, a).value)
  {
  }

  lemma DepositKeepsValid(acc: Account, d: Deposit)
    requires AccountValid(acc) && d.client == acc.client && !TxUsed(acc, d.tx)
    ensures AccountValid(acc.(available := acc.available + d.amount,
                              total := acc.total + d.amount,
                              deposits := acc.deposits + [d]))
  {
  }

  lemma WithdrawalKeepsValid(acc: Account, w: Withdrawal)
    requires AccountValid(acc) && w.client == acc.client && !TxUsed(acc, w.tx)
    ensures AccountValid(acc.(available := acc.available - w.amount,
                              total := acc.total - w.amount,
                              withdrawals := acc.withdrawals + [w]))
  {
  }

  lemma RemoveDepositKeepsUnique(acc: Account, p: nat)
    requires TxIdsUnique(acc) && p < |acc.deposits|
    ensures TxIdsUnique(acc.(deposits := RemoveAt(acc.deposits, p)))
  {
    var s := acc.deposits;
    var r := RemoveAt(s, p);
    forall i, j | 0 <= i < j < |r| ensures r[i].tx != r[j].tx {
      var i' := if i < p then i else i + 1;
      var j' := if j < p then j else j + 1;
      assert r[i] == s[i'] && r[j] == s[j'] && i' < j';
    }
    forall i, j | 0 <= i < |r| && 0 <= j < |acc.withdrawals| ensures r[i].tx != acc.withdrawals[j].tx {
      var i' := if i < p then i else i + 1;
      assert r[i] == s[i'];
    }
  }

  /** Writing a valid account under its own client keeps the store valid. */
  lemma CommitKeepsValid(db: Snapshot, r: Result<Account, ActionError>)
    requires StoreValid(db)
    requires r.Success? ==> AccountValid(r.value)
    ensures StoreValid(Commit(db, r))
  {
  }

  lemma DepositApplyKeepsValid(db: Snapshot, d: Deposit)
    requires StoreValid(db)
    ensures StoreValid(Apply(db, DepositAction(d)))
  {
    if DepositStep(db, d).Success? {
      DepositKeepsValid(Before(db, DepositAction(d)), d);
    }
    CommitKeepsValid(db, DepositStep(db, d));
  }

  lemma WithdrawalApplyKeepsValid(db: Snapshot, w: Withdrawal)
    requires StoreValid(db)
    ensures StoreValid(Apply(db, WithdrawalAction(w)))
  {
    if WithdrawalStep(db, w).Success? {
      WithdrawalKeepsValid(db[w.client], w);
    }
    CommitKeepsValid(db, WithdrawalStep(db, w));
  }

  lemma DisputeApplyKeepsValid(db: Snapshot, d: Dispute)
    requires StoreValid(db)
    ensures StoreValid(Apply(db, DisputeAction(d)))
  {
    var r := DisputeStep(db, d);
    if r.Success? {
      var acc := db[d.client];
      var p := Position(acc.deposits, DepositHasTx(d.tx)).value;
      var dep := acc.deposits[p];
      var removed := acc.(deposits := RemoveAt(acc.deposits, p));
      RemoveDepositKeepsUnique(acc, p);
      assert Owned(removed);
      assert r.value == removed.(disputes := acc.disputes + [Disputed(dep)],
                                 available := acc.available - dep.amount,
                                 held := acc.held + dep.amount);
      assert AccountValid(r.value);
    }
    CommitKeepsValid(db, r);
  }

  lemma ResolveApplyKeepsValid(db: Snapshot, res: Resolve)
    requires StoreValid(db)
    ensures StoreValid(Apply(db, ResolveAction(res)))
  {
    var r := ResolveStep(db, res);
    if r.Success? {
      var acc := db[res.client];
      var p := Position(acc.disputes, DisputedHasTx(res.tx)).value;
      var rec := acc.disputes[p];
      var removed := acc.(disputes := RemoveAt(acc.disputes, p));
      assert Owned(removed);
      assert r.value == removed.(resolves := acc.resolves + [Resolved(rec)],
                                 held := acc.held - rec.deposit.amount,
                                 available := acc.available + rec.deposit.amount);
      assert AccountValid(r.value);
    }
    CommitKeepsValid(db, r);
  }

  lemma ChargebackApplyKeepsValid(db: Snapshot, c: Chargeback)
    requires StoreValid(db)
    ensures StoreValid(Apply(db, ChargebackAction(c)))
  {
    var r := ChargebackStep(db, c);
    if r.Success? {
      var acc := db[c.client];
      var p := Position(acc.resolves, ResolvedHasTx(c.tx)).value;
      var dep := acc.resolves[p].disputed.deposit;
      var removed := acc.(resolves := RemoveAt(acc.resolves, p));
      assert Owned(removed);
      assert r.value == removed.(available := acc.available - dep.amount,
                                 total := acc.total - dep.amount,
                                 locked := true);
      assert AccountValid(r.value);
    }
    CommitKeepsValid(db, r);
  }

  /** Every action, accepted or rejected, keeps every invariant of the store. */
  lemma ApplyKeepsValid(db: Snapshot, a: Action)
    requires StoreValid(db)
    ensures StoreValid(Apply(db, a))
  {
    match a
    case DepositAction(d) => DepositApplyKeepsValid(db, d);
    case WithdrawalAction(w) => WithdrawalApplyKeepsValid(db, w);
    case DisputeAction(d) => DisputeApplyKeepsValid(db, d);
    case ResolveAction(r) => ResolveApplyKeepsValid(db, r);
    case ChargebackAction(c) => ChargebackApplyKeepsValid(db, c);
  }

  /** After any sequence of actions the store still keeps its invariants;
      in particular every account has `total == available + held`. */
  lemma {:induction false} RunKeepsValid(db: Snapshot, acts: seq<Action>)
    requires StoreValid(db)
    ensures StoreValid(Run(db, acts))
    ensures forall c :: c in Run(db, acts) ==> Balanced(Run(db, acts)[c])
    decreases |acts|
  {
    if acts != [] {
      ApplyKeepsValid(db, acts[0]);
      RunKeepsValid(Apply(db, acts[0]), acts[1..]);
    }
  }
}
