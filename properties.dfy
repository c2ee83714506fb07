/** What each action promises: its error cases, its effect on balances and
    on the lifecycle lists, and the permanence of a lock. */
module Properties {

  import opened Wrappers
  import opened Types
  import opened Seqs
  import opened Transactions
  import opened Machine
  import opened Invariants

  // ----- Failures write nothing -----

  /** A rejected action leaves the whole store as it was, even where the
      action had already taken a record out of its local copy. */
  lemma FailureLeavesStore(db: Snapshot, a: Action)
    requires Step(db, a).Failure?
    ensures Apply(db, a) == db
  {
  }

  // ----- Deposit -----

  lemma DepositCases(db: Snapshot, d: Deposit)
    ensures var acc := if d.client in db then db[d.client] else NewAccount(d.client);
      && (acc.locked ==> DepositStep(db, d) == Failure(AccountLocked))
      && (!acc.locked && TxUsed(acc, d.tx) ==> DepositStep(db, d) == Failure(InvalidTxID))
      && (!acc.locked && !TxUsed(acc, d.tx) ==>
            DepositStep(db, d).Success? &&
            var acc' := DepositStep(db, d).value;
            && acc'.client == acc.client
            && acc'.available == acc.available + d.amount
            && acc'.total == acc.total + d.amount
            && acc'.held == acc.held && acc'.locked == acc.locked
            && acc'.deposits == acc.deposits + [d]
            && acc'.withdrawals == acc.withdrawals
            && acc'.disputes == acc.disputes && acc'.resolves == acc.resolves)
  {
  }

  /** The first deposit of an unseen client creates its account. */
  lemma DepositCreatesAccount(db: Snapshot, d: Deposit)
    requires d.client !in db
    ensures Apply(db, DepositAction(d)) ==
      db[d.client := Account(d.client, d.amount, 0.0, d.amount, false, [d], [], [], [])]
  {
    assert !TxUsed(NewAccount(d.client), d.tx);
    assert [] + [d] == [d];
  }

  // ----- Withdrawal -----

  lemma WithdrawalCases(db: Snapshot, w: Withdrawal)
    ensures w.client !in db ==> WithdrawalStep(db, w) == Failure(InvalidClientID)
    ensures w.client in db ==> var acc := db[w.client];
      && (acc.locked ==> WithdrawalStep(db, w) == Failure(AccountLocked))
      && (!acc.locked && TxUsed(acc, w.tx) ==> WithdrawalStep(db, w) == Failure(InvalidTxID))
      && (!acc.locked && !TxUsed(acc, w.tx) && acc.available < w.amount ==>
            WithdrawalStep(db, w) == Failure(InsufficientFunds))
      && (!acc.locked && !TxUsed(acc, w.tx) && w.amount <= acc.available && acc.total < w.amount ==>
            WithdrawalStep(db, w) == Failure(InsufficientFunds))
      && (WithdrawalStep(db, w).Success? <==>
            !acc.locked && !TxUsed(acc, w.tx) && w.amount <= acc.available && w.amount <= acc.total)
      && (WithdrawalStep(db, w).Success? ==>
            var acc' := WithdrawalStep(db, w).value;
            && acc'.available == acc.available - w.amount
            && acc'.total == acc.total - w.amount
            && acc'.client == acc.client && acc'.held == acc.held && !acc'.locked
            && acc'.withdrawals == acc.withdrawals + [w]
            && acc'.deposits == acc.deposits
            && acc'.disputes == acc.disputes && acc'.resolves == acc.resolves)
  {
  }

  // ----- Tx-id uniqueness -----

  /** A deposit or withdrawal reusing a tx-id that the account's deposits or
      withdrawals still hold is refused. */
  lemma UsedTxRejected(db: Snapshot, a: Action, tx: TxID)
    requires IntroducesTx(a, tx)
    requires TxUsed(Before(db, a), tx)
    ensures Step(db, a).Failure?
    ensures !Before(db, a).locked ==> Step(db, a) == Failure(InvalidTxID)
  {
  }

  /** The withdrawals of an account only ever grow, by appending. */
  lemma {:induction false} WithdrawalsOnlyGrow(db: Snapshot, cid: ClientID, acts: seq<Action>)
    requires StoreValid(db) && cid in db
    ensures cid in Run(db, acts)
    ensures db[cid].withdrawals <= Run(db, acts)[cid].withdrawals
    decreases |acts|
  {
    if acts != [] {
      var a := acts[0];
      if Step(db, a).Success? {
        StepWritesOwnClient(db, a);
      }
      ApplyKeepsValid(db, a);
      WithdrawalsOnlyGrow(Apply(db, a), cid, acts[1..]);
    }
  }

  /** Once a withdrawal is accepted, no later deposit or withdrawal of that
      client with the same tx-id is ever accepted. */
  lemma WithdrawalTxNeverReaccepted(db: Snapshot, w: Withdrawal, acts: seq<Action>)
    requires StoreValid(db) && WithdrawalStep(db, w).Success?
    ensures var db1 := Apply(db, WithdrawalAction(w));
      forall k :: 0 <= k < |acts| && ClientOf(acts[k]) == w.client && IntroducesTx(acts[k], w.tx) ==> Step(Run(db1, acts[..k]), acts[k]).Failure?
  {
    var db1 := Apply(db, WithdrawalAction(w));
    ApplyKeepsValid(db, WithdrawalAction(w));
    var ws := db1[w.client].withdrawals;
    assert ws[|ws| - 1] == w;
    forall k | 0 <= k < |acts| && ClientOf(acts[k]) == w.client && IntroducesTx(acts[k], w.tx)
      ensures Step(Run(db1, acts[..k]), acts[k]).Failure?
    {
      var dbk := Run(db1, acts[..k]);
      WithdrawalsOnlyGrow(db1, w.client, acts[..k]);
      var ws' := dbk[w.client].withdrawals;
      assert ws'[|ws| - 1] == w;
      assert TxUsed(Before(dbk, acts[k]), w.tx);
      UsedTxRejected(dbk, acts[k], w.tx);
    }
  }

  // ----- Dispute, resolve, chargeback: error cases -----

  /** With unique tx-ids, a dispute is accepted exactly when the account is
      unlocked, holds a deposit with the tx-id and has its amount available;
      the client re-check never fires. */
  lemma DisputeCases(db: Snapshot, d: Dispute)
    requires StoreValid(db)
    ensures d.client !in db ==> DisputeStep(db, d) == Failure(InvalidClientID)
    ensures d.client in db ==> var acc := db[d.client];
      && DisputeStep(db, d) != Failure(InvalidClientID)
      && (acc.locked ==> DisputeStep(db, d) == Failure(AccountLocked))
      && (!acc.locked && (forall i :: 0 <= i < |acc.deposits| ==> acc.deposits[i].tx != d.tx) ==>
            DisputeStep(db, d) == Failure(InvalidTxID))
      && (forall i :: 0 <= i < |acc.deposits| && acc.deposits[i].tx == d.tx && !acc.locked ==>
            (DisputeStep(db, d).Success? <==> acc.deposits[i].amount <= acc.available) &&
            (DisputeStep(db, d).Failure? ==> DisputeStep(db, d).error == InsufficientFunds))
  {
    if d.client in db {
      var acc := db[d.client];
      if !acc.locked {
        match Position(acc.deposits, DepositHasTx(d.tx))
        case None =>
        case Some(p) =>
          assert acc.deposits[p].client == d.client;
          forall i | 0 <= i < |acc.deposits| && acc.deposits[i].tx == d.tx
            ensures i == p
          {
          }
      }
    }
  }

  /** A resolve is accepted exactly when the account is unlocked and its
      first dispute with the tx-id has its amount held; the client re-check
      never fires. */
  lemma ResolveCases(db: Snapshot, r: Resolve)
    requires StoreValid(db)
    ensures r.client !in db ==> ResolveStep(db, r) == Failure(InvalidClientID)
    ensures r.client in db ==> var acc := db[r.client];
      && ResolveStep(db, r) != Failure(InvalidClientID)
      && (acc.locked ==> ResolveStep(db, r) == Failure(AccountLocked))
      && (!acc.locked && (forall i :: 0 <= i < |acc.disputes| ==> acc.disputes[i].deposit.tx != r.tx) ==>
            ResolveStep(db, r) == Failure(InvalidTxID))
      && (forall i :: (0 <= i < |acc.disputes| && acc.disputes[i].deposit.tx == r.tx && !acc.locked &&
                       (forall j :: 0 <= j < i ==> acc.disputes[j].deposit.tx != r.tx)) ==>
            (ResolveStep(db, r).Success? <==> acc.disputes[i].deposit.amount <= acc.held) &&
            (ResolveStep(db, r).Failure? ==> ResolveStep(db, r).error == InsufficientFunds))
  {
    if r.client in db {
      var acc := db[r.client];
      if !acc.locked {
        match Position(acc.disputes, DisputedHasTx(r.tx))
        case None =>
        case Some(p) =>
          assert acc.disputes[p].deposit.client == r.client;
          forall i | 0 <= i < |acc.disputes| && acc.disputes[i].deposit.tx == r.tx &&
              (forall j :: 0 <= j < i ==> acc.disputes[j].deposit.tx != r.tx)
            ensures i == p
          {
          }
      }
    }
  }

  /** A chargeback is accepted exactly when the account is unlocked and its
      first resolved record with the tx-id has its amount both available and
      in the total; a deposit that is only disputed cannot be charged back. */
  lemma ChargebackCases(db: Snapshot, c: Chargeback)
    requires StoreValid(db)
    ensures c.client !in db ==> ChargebackStep(db, c) == Failure(InvalidClientID)
    ensures c.client in db ==> var acc := db[c.client];
      && ChargebackStep(db, c) != Failure(InvalidClientID)
      && (acc.locked ==> ChargebackStep(db, c) == Failure(AccountLocked))
      && (!acc.locked && (forall i :: 0 <= i < |acc.resolves| ==> acc.resolves[i].disputed.deposit.tx != c.tx) ==>
            ChargebackStep(db, c) == Failure(InvalidTxID))
      && (forall i :: (0 <= i < |acc.resolves| && acc.resolves[i].disputed.deposit.tx == c.tx && !acc.locked &&
                       (forall j :: 0 <= j < i ==> acc.resolves[j].disputed.deposit.tx != c.tx)) ==>
            var amount := acc.resolves[i].disputed.deposit.amount;
            (ChargebackStep(db, c).Success? <==> amount <= acc.available && amount <= acc.total) &&
            (ChargebackStep(db, c).Failure? ==> ChargebackStep(db, c).error == InsufficientFunds))
  {
    if c.client in db {
      var acc := db[c.client];
      if !acc.locked {
        match Position(acc.resolves, ResolvedHasTx(c.tx))
        case None =>
        case Some(p) =>
          assert acc.resolves[p].disputed.deposit.client == c.client;
          forall i | 0 <= i < |acc.resolves| && acc.resolves[i].disputed.deposit.tx == c.tx &&
              (forall j :: 0 <= j < i ==> acc.resolves[j].disputed.deposit.tx != c.tx)
            ensures i == p
          {
          }
      }
    }
  }

  // ----- Lifecycle moves -----

  lemma ImageAppend<T>(s: seq<T>, x: T, f: T -> Deposit)
    ensures Image(s + [x], f) == Image(s, f) + multiset{f(x)}
  {
    assert (s + [x])[..|s|] == s;
  }

  /** A deposit adds its record to the account's lifecycle; a withdrawal
      leaves the lifecycle as it was. */
  lemma DepositAddsRecord(db: Snapshot, d: Deposit, w: Withdrawal)
    ensures DepositStep(db, d).Success? ==>
      Lifecycle(DepositStep(db, d).value) == Lifecycle(Before(db, DepositAction(d))) + multiset{d}
    ensures WithdrawalStep(db, w).Success? ==>
      Lifecycle(WithdrawalStep(db, w).value) == Lifecycle(db[w.client])
  {
  }

  /** A dispute takes the first deposit with its tx-id out of `deposits`,
      appends it to `disputes` and moves its amount from `available` to
      `held`; with unique tx-ids no deposit with that tx-id is left. */
  lemma DisputeMovesRecord(db: Snapshot, d: Dispute)
    requires DisputeStep(db, d).Success?
    ensures d.client in db
    ensures var acc := db[d.client]; var acc' := DisputeStep(db, d).value;
      && (exists p :: 0 <= p < |acc.deposits| && acc.deposits[p].tx == d.tx
           && (forall j :: 0 <= j < p ==> acc.deposits[j].tx != d.tx)
           && acc'.deposits == RemoveAt(acc.deposits, p)
           && acc'.disputes == acc.disputes + [Disputed(acc.deposits[p])]
           && acc'.available == acc.available - acc.deposits[p].amount
           && acc'.held == acc.held + acc.deposits[p].amount)
      && acc'.client == acc.client && acc'.total == acc.total && acc'.locked == acc.locked
      && acc'.withdrawals == acc.withdrawals && acc'.resolves == acc.resolves
      && (StoreValid(db) ==> forall i :: 0 <= i < |acc'.deposits| ==> acc'.deposits[i].tx != d.tx)
  {
    var acc := db[d.client];
    var acc' := DisputeStep(db, d).value;
    var p := Position(acc.deposits, DepositHasTx(d.tx)).value;
    assert acc.deposits[p].tx == d.tx;
    assert forall j :: 0 <= j < p ==> acc.deposits[j].tx != d.tx;
    assert acc'.deposits == RemoveAt(acc.deposits, p);
    assert acc'.disputes == acc.disputes + [Disputed(acc.deposits[p])];
    if StoreValid(db) {
      assert TxIdsUnique(acc);
      RemoveUniqueTx(acc.deposits, p);
    }
  }

  /** Removing the deposit at `p` from a list with unique tx-ids leaves no
      deposit with its tx-id. */
  lemma RemoveUniqueTx(s: seq<Deposit>, p: nat)
    requires p < |s|
    requires forall i, j :: 0 <= i < j < |s| ==> s[i].tx != s[j].tx
    ensures forall i :: 0 <= i < |RemoveAt(s, p)| ==> RemoveAt(s, p)[i].tx != s[p].tx
  {
    var s' := RemoveAt(s, p);
    forall i | 0 <= i < |s'| ensures s'[i].tx != s[p].tx {
      var i' := if i < p then i else i + 1;
      assert s'[i] == s[i'] && i' != p;
    }
  }

  lemma MoveToDisputesKeepsLifecycle(acc: Account, acc': Account, p: nat)
    requires p < |acc.deposits|
    requires acc'.deposits == RemoveAt(acc.deposits, p)
    requires acc'.disputes == acc.disputes + [Disputed(acc.deposits[p])]
    requires acc'.resolves == acc.resolves
    ensures Lifecycle(acc') == Lifecycle(acc)
  {
    var dep := acc.deposits[p];
    ImageAppend(acc.disputes, Disputed(dep), UnwrapDisputed);
    assert multiset(acc.deposits) == multiset(acc'.deposits) + multiset{dep};
  }

  /** A dispute neither loses nor copies a deposit record. */
  lemma DisputeKeepsLifecycle(db: Snapshot, d: Dispute)
    requires DisputeStep(db, d).Success?
    ensures d.client in db
    ensures Lifecycle(DisputeStep(db, d).value) == Lifecycle(db[d.client])
  {
    var acc := db[d.client];
    var p := Position(acc.deposits, DepositHasTx(d.tx)).value;
    MoveToDisputesKeepsLifecycle(acc, DisputeStep(db, d).value, p);
  }

  /** A resolve takes the first dispute with its tx-id out of `disputes`,
      appends it to `resolves` and moves its amount from `held` back to
      `available`. */
  lemma ResolveMovesRecord(db: Snapshot, r: Resolve)
    requires ResolveStep(db, r).Success?
    ensures r.client in db
    ensures var acc := db[r.client]; var acc' := ResolveStep(db, r).value;
      && (exists p :: 0 <= p < |acc.disputes| && acc.disputes[p].deposit.tx == r.tx
           && (forall j :: 0 <= j < p ==> acc.disputes[j].deposit.tx != r.tx)
           && acc'.disputes == RemoveAt(acc.disputes, p)
           && acc'.resolves == acc.resolves + [Resolved(acc.disputes[p])]
           && acc'.held == acc.held - acc.disputes[p].deposit.amount
           && acc'.available == acc.available + acc.disputes[p].deposit.amount)
      && acc'.client == acc.client && acc'.total == acc.total && acc'.locked == acc.locked
      && acc'.deposits == acc.deposits && acc'.withdrawals == acc.withdrawals
  {
    var acc := db[r.client];
    var acc' := ResolveStep(db, r).value;
    var p := Position(acc.disputes, DisputedHasTx(r.tx)).value;
    assert acc.disputes[p].deposit.tx == r.tx;
    assert acc'.disputes == RemoveAt(acc.disputes, p);
  }

  /** The image of `s` holds the image of each of its elements. */
  lemma ImageHas<T>(s: seq<T>, p: nat, f: T -> Deposit)
    requires p < |s|
    ensures f(s[p]) in Image(s, f)
  {
    assert s == s[..p] + ([s[p]] + s[p + 1..]);
    ImageConcat(s[..p], [s[p]] + s[p + 1..], f);
    ImageConcat([s[p]], s[p + 1..], f);
    assert [s[p]][..0] == [];
  }

  /** A resolve neither loses nor copies a deposit record. */
  lemma ResolveKeepsLifecycle(db: Snapshot, r: Resolve)
    requires ResolveStep(db, r).Success?
    ensures r.client in db
    ensures Lifecycle(ResolveStep(db, r).value) == Lifecycle(db[r.client])
  {
    var acc := db[r.client];
    var acc' := ResolveStep(db, r).value;
    var p := Position(acc.disputes, DisputedHasTx(r.tx)).value;
    assert acc'.disputes == RemoveAt(acc.disputes, p);
    assert acc'.resolves == acc.resolves + [Resolved(acc.disputes[p])];
    MoveToResolvesKeepsLifecycle(acc, acc', p);
  }

  lemma MoveToResolvesKeepsLifecycle(acc: Account, acc': Account, p: nat)
    requires p < |acc.disputes|
    requires acc'.disputes == RemoveAt(acc.disputes, p)
    requires acc'.resolves == acc.resolves + [Resolved(acc.disputes[p])]
    requires acc'.deposits == acc.deposits
    ensures Lifecycle(acc') == Lifecycle(acc)
  {
    var rec := acc.disputes[p];
    ImageAppend(acc.resolves, Resolved(rec), UnwrapResolved);
    ImageRemoveAt(acc.disputes, p, UnwrapDisputed);
    ImageHas(acc.disputes, p, UnwrapDisputed);
  }

  /** A chargeback drops the first resolved record with its tx-id, takes its
      amount off `available` and `total`, leaves `held` as it was and locks
      the account. */
  lemma ChargebackDropsRecord(db: Snapshot, c: Chargeback)
    requires ChargebackStep(db, c).Success?
    ensures c.client in db
    ensures var acc := db[c.client]; var acc' := ChargebackStep(db, c).value;
      && (exists p :: 0 <= p < |acc.resolves| && acc.resolves[p].disputed.deposit.tx == c.tx
           && (forall j :: 0 <= j < p ==> acc.resolves[j].disputed.deposit.tx != c.tx)
           && acc'.resolves == RemoveAt(acc.resolves, p)
           && acc'.available == acc.available - acc.resolves[p].disputed.deposit.amount
           && acc'.total == acc.total - acc.resolves[p].disputed.deposit.amount)
      && acc'.client == acc.client && acc'.held == acc.held && acc'.locked
      && acc'.deposits == acc.deposits && acc'.withdrawals == acc.withdrawals
      && acc'.disputes == acc.disputes
  {
    var acc := db[c.client];
    var acc' := ChargebackStep(db, c).value;
    var p := Position(acc.resolves, ResolvedHasTx(c.tx)).value;
    assert acc.resolves[p].disputed.deposit.tx == c.tx;
    assert acc'.resolves == RemoveAt(acc.resolves, p);
  }

  /** A chargeback removes exactly one deposit record from the lifecycle,
      for good. */
  lemma ChargebackShrinksLifecycle(db: Snapshot, c: Chargeback)
    requires ChargebackStep(db, c).Success?
    ensures c.client in db
    ensures var acc := db[c.client];
      exists dep :: dep in Lifecycle(acc) && dep.tx == c.tx &&
        Lifecycle(ChargebackStep(db, c).value) == Lifecycle(acc) - multiset{dep}
  {
    var acc := db[c.client];
    var acc' := ChargebackStep(db, c).value;
    var p := Position(acc.resolves, ResolvedHasTx(c.tx)).value;
    var rec := acc.resolves[p];
    assert acc'.resolves == RemoveAt(acc.resolves, p);
    ImageRemoveAt(acc.resolves, p, UnwrapResolved);
    ImageHas(acc.resolves, p, UnwrapResolved);
    assert UnwrapResolved(rec) == rec.disputed.deposit;
  }

  // ----- A locked account is frozen -----

  /** Every action on a locked account fails with `AccountLocked` and
      leaves the store as it was. */
  lemma LockedAccountRejectsAll(db: Snapshot, a: Action)
    requires ClientOf(a) in db && db[ClientOf(a)].locked
    ensures Step(db, a) == Failure(AccountLocked)
    ensures Apply(db, a) == db
  {
  }

  /** A locked account never changes again, whatever actions follow. */
  lemma {:induction false} LockedStaysLocked(db: Snapshot, cid: ClientID, acts: seq<Action>)
    requires StoreValid(db) && cid in db && db[cid].locked
    ensures cid in Run(db, acts) && Run(db, acts)[cid] == db[cid]
    decreases |acts|
  {
    if acts != [] {
      var a := acts[0];
      if Step(db, a).Success? {
        StepWritesOwnClient(db, a);
        if ClientOf(a) == cid {
          LockedAccountRejectsAll(db, a);
        }
      }
      ApplyKeepsValid(db, a);
      LockedStaysLocked(Apply(db, a), cid, acts[1..]);
    }
  }

  /** Every action on a locked account, however late in a run, fails with
      `AccountLocked`. */
  lemma LockedForever(db: Snapshot, cid: ClientID, acts: seq<Action>)
    requires StoreValid(db) && cid in db && db[cid].locked
    ensures forall k :: 0 <= k < |acts| && ClientOf(acts[k]) == cid ==>
      Step(Run(db, acts[..k]), acts[k]) == Failure(AccountLocked)
  {
    forall k | 0 <= k < |acts| && ClientOf(acts[k]) == cid
      ensures Step(Run(db, acts[..k]), acts[k]) == Failure(AccountLocked)
    {
      LockedStaysLocked(db, cid, acts[..k]);
      LockedAccountRejectsAll(Run(db, acts[..k]), acts[k]);
    }
  }

  /** A successful chargeback locks the account, and from then on every
      action on it fails with `AccountLocked`. */
  lemma ChargebackFreezesAccount(db: Snapshot, c: Chargeback, acts: seq<Action>)
    requires StoreValid(db) && ChargebackStep(db, c).Success?
    ensures var db1 := Apply(db, ChargebackAction(c));
      && c.client in db1 && db1[c.client].locked
      && (forall k :: 0 <= k < |acts| && ClientOf(acts[k]) == c.client ==>
            Step(Run(db1, acts[..k]), acts[k]) == Failure(AccountLocked))
  {
    var db1 := Apply(db, ChargebackAction(c));
    StepWritesOwnClient(db, ChargebackAction(c));
    ApplyKeepsValid(db, ChargebackAction(c));
    LockedForever(db1, c.client, acts);
  }
}
