/** The unit tests of the payments module as lemmas over concrete runs, and
    three runs that show how far tx-id uniqueness reaches. */
module Scenarios {

  import opened Wrappers
  import opened Types
  import opened Seqs
  import opened Transactions
  import opened Machine

  const D1 := Deposit(1, 1, 1.0)
  const D2 := Deposit(1, 2, 1.0)

  /** The store after the deposit every test starts with. */
  lemma FirstDeposit() returns (db1: Snapshot)
    ensures db1 == Apply(map[], DepositAction(D1))
    ensures db1 == map[1 := Account(1, 1.0, 0.0, 1.0, false, [D1], [], [], [])]
  {
    var acc := NewAccount(1);
    assert !TxUsed(acc, 1);
    assert DepositStep(map[], D1).value == acc.(available := 1.0, total := 1.0, deposits := [D1]);
    db1 := Apply(map[], DepositAction(D1));
  }

  /** Test `deposit`: two deposits of 1 on client 1. */
  lemma DepositTest()
    ensures Apply(map[], DepositAction(D1)) == map[1 := Account(1, 1.0, 0.0, 1.0, false, [D1], [], [], [])]
    ensures Run(map[], [DepositAction(D1), DepositAction(D2)]) ==
      map[1 := Account(1, 2.0, 0.0, 2.0, false, [D1, D2], [], [], [])]
  {
    var db1 := FirstDeposit();
    assert !TxUsed(db1[1], 2);
    assert [D1] + [D2] == [D1, D2];
    var db2 := Apply(db1, DepositAction(D2));
    assert db2 == map[1 := Account(1, 2.0, 0.0, 2.0, false, [D1, D2], [], [], [])];
    var acts := [DepositAction(D1), DepositAction(D2)];
    assert Run(map[], acts) == Run(db1, acts[1..]);
    assert Run(db1, acts[1..]) == Run(db2, []);
  }

  /** Test `duplicate_deposit`: the same deposit twice is refused the second time. */
  lemma DuplicateDepositTest()
    ensures var db1 := Apply(map[], DepositAction(D1));
      Step(db1, DepositAction(D1)) == Failure(InvalidTxID) && Apply(db1, DepositAction(D1)) == db1
  {
    var db1 := FirstDeposit();
    assert db1[1].deposits[0].tx == 1;
  }

  /** Tests `withdrawal` and `withdrawal_negative`: withdrawing 1 of a
      deposit of 1 empties the account; withdrawing 2 is refused. */
  lemma WithdrawalTest()
    ensures var db1 := Apply(map[], DepositAction(D1));
      && Apply(db1, WithdrawalAction(Withdrawal(1, 2, 1.0))) ==
           map[1 := Account(1, 0.0, 0.0, 0.0, false, [D1], [Withdrawal(1, 2, 1.0)], [], [])]
      && Step(db1, WithdrawalAction(Withdrawal(1, 2, 2.0))) == Failure(InsufficientFunds)
      && Apply(db1, WithdrawalAction(Withdrawal(1, 2, 2.0))) == db1
  {
    var db1 := FirstDeposit();
    assert !TxUsed(db1[1], 2);
    var w := Withdrawal(1, 2, 1.0);
    assert WithdrawalStep(db1, w).value == db1[1].(available := 0.0, total := 0.0, withdrawals := [w]);
  }

  /** Test `dispute_process`: deposit, dispute, resolve and chargeback of
      tx 1 on client 1, with the balances after each step. */
  lemma DisputeProcessTest()
    ensures var db1 := Apply(map[], DepositAction(D1));
      var db2 := Apply(db1, DisputeAction(Dispute(1, 1)));
      var db3 := Apply(db2, ResolveAction(Resolve(1, 1)));
      var db4 := Apply(db3, ChargebackAction(Chargeback(1, 1)));
      && db1 == map[1 := Account(1, 1.0, 0.0, 1.0, false, [D1], [], [], [])]
      && db2 == map[1 := Account(1, 0.0, 1.0, 1.0, false, [], [], [Disputed(D1)], [])]
      && db3 == map[1 := Account(1, 1.0, 0.0, 1.0, false, [], [], [], [Resolved(Disputed(D1))])]
      && db4 == map[1 := Account(1, 0.0, 0.0, 0.0, true, [], [], [], [])]
  {
    var db1 := FirstDeposit();
    assert Position(db1[1].deposits, DepositHasTx(1)) == Some(0);
    assert RemoveAt(db1[1].deposits, 0) == [];
    assert DisputeStep(db1, Dispute(1, 1)).value ==
      db1[1].(deposits := [], disputes := [Disputed(D1)], available := 0.0, held := 1.0);
    var db2 := Apply(db1, DisputeAction(Dispute(1, 1)));
    assert Position(db2[1].disputes, DisputedHasTx(1)) == Some(0);
    assert RemoveAt(db2[1].disputes, 0) == [];
    assert ResolveStep(db2, Resolve(1, 1)).value ==
      db2[1].(disputes := [], resolves := [Resolved(Disputed(D1))], available := 1.0, held := 0.0);
    var db3 := Apply(db2, ResolveAction(Resolve(1, 1)));
    assert Position(db3[1].resolves, ResolvedHasTx(1)) == Some(0);
    assert RemoveAt(db3[1].resolves, 0) == [];
    assert ChargebackStep(db3, Chargeback(1, 1)).value ==
      db3[1].(resolves := [], available := 0.0, total := 0.0, locked := true);
  }

  /** Test `cannot_use_frozen_account`: after the chargeback a new deposit
      is refused with `AccountLocked`. */
  lemma FrozenAccountTest()
    ensures var db4 := Run(map[], [DepositAction(D1), DisputeAction(Dispute(1, 1)),
                                   ResolveAction(Resolve(1, 1)), ChargebackAction(Chargeback(1, 1))]);
      Step(db4, DepositAction(D2)) == Failure(AccountLocked)
  {
    DisputeProcessTest();
    var acts := [DepositAction(D1), DisputeAction(Dispute(1, 1)),
                 ResolveAction(Resolve(1, 1)), ChargebackAction(Chargeback(1, 1))];
    var db1 := Apply(map[], acts[0]);
    var db2 := Apply(db1, acts[1]);
    var db3 := Apply(db2, acts[2]);
    var db4 := Apply(db3, acts[3]);
    assert Run(map[], acts) == Run(db1, acts[1..]);
    assert Run(db1, acts[1..]) == Run(db2, acts[2..]);
    assert Run(db2, acts[2..]) == Run(db3, acts[3..]);
    assert Run(db3, acts[3..]) == Run(db4, []);
  }

  /** A disputed deposit's tx-id is free again: a second deposit with it
      is accepted, and two records with tx 1 then live in the account. */
  lemma DisputedTxCanBeDepositedAgain()
    ensures var db2 := Apply(Apply(map[], DepositAction(D1)), DisputeAction(Dispute(1, 1)));
      && DepositStep(db2, Deposit(1, 1, 5.0)).Success?
      && Apply(db2, DepositAction(Deposit(1, 1, 5.0))) ==
           map[1 := Account(1, 5.0, 1.0, 6.0, false, [Deposit(1, 1, 5.0)], [], [Disputed(D1)], [])]
  {
    DisputeProcessTest();
    var db2 := Apply(Apply(map[], DepositAction(D1)), DisputeAction(Dispute(1, 1)));
    assert !TxUsed(db2[1], 1);
    var d := Deposit(1, 1, 5.0);
    assert DepositStep(db2, d).value == db2[1].(available := 5.0, total := 6.0, deposits := [d]);
  }

  /** Tx-ids are checked per account: another client may reuse one. */
  lemma OtherClientMayReuseTx()
    ensures var db1 := Apply(map[], DepositAction(D1));
      Apply(db1, DepositAction(Deposit(2, 1, 1.0))) ==
        map[1 := db1[1], 2 := Account(2, 1.0, 0.0, 1.0, false, [Deposit(2, 1, 1.0)], [], [], [])]
  {
    var db1 := FirstDeposit();
    var d := Deposit(2, 1, 1.0);
    assert !TxUsed(NewAccount(2), 1);
    assert DepositStep(db1, d).value == NewAccount(2).(available := 1.0, total := 1.0, deposits := [d]);
  }

  /** After a re-deposit and a second dispute of tx 1, `disputes` holds two
      records with tx 1, and a resolve of tx 1 moves only the older one. */
  lemma ResolveLeavesSecondDispute()
    ensures var D5 := Deposit(1, 1, 5.0);
      var db3 := Apply(Apply(Apply(map[], DepositAction(D1)), DisputeAction(Dispute(1, 1))), DepositAction(D5));
      var db4 := Apply(db3, DisputeAction(Dispute(1, 1)));
      && db4[1].disputes == [Disputed(D1), Disputed(D5)]
      && Apply(db4, ResolveAction(Resolve(1, 1)))[1].disputes == [Disputed(D5)]
  {
    DisputedTxCanBeDepositedAgain();
    var D5 := Deposit(1, 1, 5.0);
    var acc3 := Account(1, 5.0, 1.0, 6.0, false, [D5], [], [Disputed(D1)], []);
    var acc4 := SecondDispute(acc3);
    ResolveFirstDispute(acc4);
  }

  /** Disputing the redeposited tx 1 appends a second dispute with the same
      tx-id behind the first one. */
  lemma SecondDispute(acc3: Account) returns (acc4: Account)
    requires acc3 == Account(1, 5.0, 1.0, 6.0, false, [Deposit(1, 1, 5.0)], [], [Disputed(D1)], [])
    ensures acc4 == Account(1, 0.0, 6.0, 6.0, false, [], [], [Disputed(D1), Disputed(Deposit(1, 1, 5.0))], [])
    ensures Apply(map[1 := acc3], DisputeAction(Dispute(1, 1))) == map[1 := acc4]
  {
    var D5 := Deposit(1, 1, 5.0);
    assert Position(acc3.deposits, DepositHasTx(1)) == Some(0);
    assert RemoveAt(acc3.deposits, 0) == [];
    assert [Disputed(D1)] + [Disputed(D5)] == [Disputed(D1), Disputed(D5)];
    acc4 := Account(1, 0.0, 6.0, 6.0, false, [], [], [Disputed(D1), Disputed(D5)], []);
    assert DisputeStep(map[1 := acc3], Dispute(1, 1)) == Success(acc4);
  }

  /** Resolving tx 1 with two disputes of it pending moves only the older one
      and leaves the later one in `disputes`. */
  lemma ResolveFirstDispute(acc4: Account)
    requires acc4 == Account(1, 0.0, 6.0, 6.0, false, [], [], [Disputed(D1), Disputed(Deposit(1, 1, 5.0))], [])
    ensures Apply(map[1 := acc4], ResolveAction(Resolve(1, 1)))[1].disputes == [Disputed(Deposit(1, 1, 5.0))]
  {
    assert Position(acc4.disputes, DisputedHasTx(1)) == Some(0);
    assert RemoveAt(acc4.disputes, 0) == [Disputed(Deposit(1, 1, 5.0))];
  }
}
