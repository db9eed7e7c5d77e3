/** Withdrawals: crypto ones are debited when they are paid out, Paystack ones when the transfer is reported. */
module Withdrawals {
  import opened Common
  import opened Database
  import Wallet

  function WithdrawalRow(via: PaymentMethod, amount: real, wallet: Id): Transaction
  {
    Transaction(WITHDRAWAL, via, PENDING, amount, Some(wallet), Some(wallet), None, None)
  }

  predicate WithdrawalAccepted(l: Ledger, user: Id, via: PaymentMethod, amount: real, reference: Id)
  {
    && via != WALLET
    && user in l.walletOf && l.walletOf[user] in l.balances
    && !(amount > l.balances[l.walletOf[user]])
    && Recordable(l, reference, WithdrawalRow(via, amount, l.walletOf[user]))
  }

  /**
   * What happens to an accepted withdrawal once the provider has answered: `payout` is the hash or
   * transfer code it returned, or nothing when it threw. A hash that is already taken makes the last
   * update throw after the debit, and the row is marked failed with the debit in place.
   */
  function WithdrawalSettled(l: Ledger, wallet: Id, via: PaymentMethod, amount: real, reference: Id,
                             payout: Option<string>): Ledger
    requires reference in l.transactions
  {
    if payout.None? then Marked(l, reference, FAILED)
    else if via != CRYPTO then l
    else if !CanDebit(l, wallet, amount) then Marked(l, reference, FAILED)
    else if payout.value in l.byHash then Marked(Debited(l, wallet, amount), reference, FAILED)
    else MarkedWithHash(Debited(l, wallet, amount), reference, SUCCESS, payout.value)
  }

  function InitiatedWithdrawal(l: Ledger, user: Id, via: PaymentMethod, amount: real, reference: Id,
                               payout: Option<string>): Ledger
  {
    if WithdrawalAccepted(l, user, via, amount, reference) then
      var wallet := l.walletOf[user];
      WithdrawalSettled(Recorded(l, reference, WithdrawalRow(via, amount, wallet)),
                        wallet, via, amount, reference, payout)
    else l
  }

  /** The wallet is debited at once. */
  predicate DebitsAtOnce(l: Ledger, wallet: Id, via: PaymentMethod, amount: real, payout: Option<string>)
    requires wallet in l.balances
  {
    via == CRYPTO && payout.Some? && amount > 0.0 && !l.below(l.balances[wallet], amount)
  }

  /** What settling a row that was just recorded leaves of it. */
  function RowLeft(l: Ledger, row: Transaction, wallet: Id, via: PaymentMethod, amount: real, payout: Option<string>)
    : Transaction
    requires wallet in l.balances
  {
    if via == PAYSTACK && payout.Some? then row
    else if DebitsAtOnce(l, wallet, via, amount, payout) && payout.value !in l.byHash
    then row.(status := SUCCESS, hash := payout)
    else row.(status := FAILED)
  }

  lemma {:induction false} SettlementEnds(l: Ledger, wallet: Id, via: PaymentMethod, amount: real, reference: Id,
                                          payout: Option<string>)
    requires via in {PAYSTACK, CRYPTO} && wallet in l.balances && reference in l.transactions
    requires l.transactions[reference].hash.None?
    ensures var after := WithdrawalSettled(l, wallet, via, amount, reference, payout);
      var debited := DebitsAtOnce(l, wallet, via, amount, payout);
      && after == l.(transactions := after.transactions, balances := after.balances, byHash := after.byHash)
      && after.transactions
         == l.transactions[reference := RowLeft(l, l.transactions[reference], wallet, via, amount, payout)]
      && after.balances == (if debited then l.balances[wallet := l.balances[wallet] - amount] else l.balances)
      && after.byHash == if debited && payout.value !in l.byHash then l.byHash[payout.value := reference] else l.byHash
  {
    var row := l.transactions[reference];
    assert l.transactions[reference := row] == l.transactions;
  }

  /** Everything a withdrawal asks of the state. */
  predicate Withdrawable(l: Ledger, user: Id, via: PaymentMethod, amount: real, reference: Id)
  {
    && via in {PAYSTACK, CRYPTO}
    && user in l.walletOf && l.walletOf[user] in l.balances
    && amount <= l.balances[l.walletOf[user]]
    && reference !in l.transactions
  }

  /**
   * Whatever the method, a withdrawal is recorded exactly when the method is PAYSTACK or CRYPTO, the user has an
   * existing wallet whose balance is not below the amount, and the reference is free. The row has that amount and
   * names the wallet on both sides. In every other case the ledger is left as it is.
   */
  lemma {:induction false} WithdrawalRecords(l: Ledger, user: Id, via: PaymentMethod, amount: real, reference: Id,
                                             payout: Option<string>)
    ensures var after := InitiatedWithdrawal(l, user, via, amount, reference, payout);
      var open := && via in {PAYSTACK, CRYPTO}
                  && user in l.walletOf && l.walletOf[user] in l.balances
                  && amount <= l.balances[l.walletOf[user]]
                  && reference !in l.transactions;
      && (reference in after.transactions && reference !in l.transactions <==> open)
      && (after != l <==> open)
      && (open ==>
           var wallet := Some(l.walletOf[user]);
           var row := after.transactions[reference];
           && after.transactions == l.transactions[reference := row]
           && row == Transaction(WITHDRAWAL, via, row.status, amount, wallet, wallet, row.hash, None))
  {
    if Withdrawable(l, user, via, amount, reference) {
      WithdrawalEnds(l, user, via, amount, reference, payout);
    }
  }

  /**
   * How a recorded withdrawal ends. Without an answer of the provider it is FAILED and nothing is debited. A Paystack
   * one stays pending, and nothing is debited yet. A crypto one is debited when the amount is positive and the guard
   * lets the balance through; it is SUCCESS with its hash if that is new, and FAILED otherwise.
   */
  lemma {:induction false} WithdrawalEnds(l: Ledger, user: Id, via: PaymentMethod, amount: real, reference: Id,
                                          payout: Option<string>)
    requires Withdrawable(l, user, via, amount, reference)
    ensures var after, wallet := InitiatedWithdrawal(l, user, via, amount, reference, payout), l.walletOf[user];
      var debited := via == CRYPTO && payout.Some? && amount > 0.0 && !l.below(l.balances[wallet], amount);
      var paidOut := debited && payout.value !in l.byHash;
      var status := if via == PAYSTACK && payout.Some? then PENDING else if paidOut then SUCCESS else FAILED;
      && after == l.(transactions := after.transactions, balances := after.balances, byHash := after.byHash)
      && after.transactions
         == l.transactions[reference := Transaction(WITHDRAWAL, via, status, amount, Some(wallet), Some(wallet),
                                                    if paidOut then payout else None, None)]
      && after.balances == (if debited then l.balances[wallet := l.balances[wallet] - amount] else l.balances)
      && after.byHash == if paidOut then l.byHash[payout.value := reference] else l.byHash
  {
    var wallet := l.walletOf[user];
    var row := WithdrawalRow(via, amount, wallet);
    SettlementEnds(Recorded(l, reference, row), wallet, via, amount, reference, payout);
  }

  /** The part after the PIN check, which decides whether this is reached. */
  method InitiateWithdrawal(db: Database, user: Id, via: PaymentMethod, amount: real, reference: Id,
                            payout: Option<string>) returns (reply: Reply)
    modifies db
    ensures db.View() == InitiatedWithdrawal(old(db.View()), user, via, amount, reference, payout)
    ensures reply.Returned? <==>
              && db.View() != old(db.View()) && reference in db.transactions
              && db.transactions[reference].status != FAILED
  {
    if via == WALLET {
      return Thrown("Unsupported withdrawal method");
    }
    if user !in db.walletOf || db.walletOf[user] !in db.balances {
      return Thrown("Wallet not found for user");
    }
    var wallet := db.walletOf[user];
    if amount > db.balances[wallet] {
      return Thrown("Insufficient balance");
    }
    reply := Wallet.RecordTransaction(db, reference, WithdrawalRow(via, amount, wallet));
    if reply.Thrown? {
      return;
    }
    assert reference in db.transactions;
    if payout.None? {
      reply := Thrown("provider");
    } else if via == CRYPTO {
      reply := Wallet.Debit(db, wallet, amount);
      if reply.Returned? {
        reply := Wallet.UpdateStatusAndHash(db, reference, SUCCESS, payout.value);
      }
    } else {
      reply := Wallet.UpdateStatus(db, reference, PENDING);
      assert db.View() == Recorded(old(db.View()), reference, WithdrawalRow(via, amount, wallet));
    }
    if reply.Thrown? {
      var _ := Wallet.UpdateStatus(db, reference, FAILED);
    }
  }

  // ---- Paystack webhooks ----

  predicate PendingWithdrawal(l: Ledger, reference: Id)
  {
    && Pending(l, reference)
    && l.transactions[reference].kind == WITHDRAWAL
    && l.transactions[reference].sender.Some?
  }

  predicate TransferDebits(l: Ledger, reference: Id)
  {
    PendingWithdrawal(l, reference)
    && CanDebit(l, l.transactions[reference].sender.value, l.transactions[reference].amount)
  }

  function TransferSucceeded(l: Ledger, reference: Id): Ledger
  {
    if TransferDebits(l, reference) then
      var row := l.transactions[reference];
      Marked(Debited(l, row.sender.value, row.amount), reference, SUCCESS)
    else l
  }

  /**
   * A reported transfer debits exactly when its row is a pending withdrawal of a positive amount whose sender's wallet
   * exists and passes the guard. Then the sender loses the amount of the row, the row becomes SUCCESS and nothing else
   * changes.
   */
  lemma {:induction false} TransferPays(l: Ledger, reference: Id)
    ensures var after := TransferSucceeded(l, reference);
      var pays := && reference in l.transactions && l.transactions[reference].status == PENDING
                  && l.transactions[reference].kind == WITHDRAWAL
                  && l.transactions[reference].amount > 0.0
                  && l.transactions[reference].sender.Some?
                  && l.transactions[reference].sender.value in l.balances
                  && !l.below(l.balances[l.transactions[reference].sender.value], l.transactions[reference].amount);
      && (after != l <==> pays)
      && (pays ==>
           var row := l.transactions[reference];
           after == l.(transactions := l.transactions[reference := row.(status := SUCCESS)],
                       balances := l.balances[row.sender.value := l.balances[row.sender.value] - row.amount]))
  {
    if TransferDebits(l, reference) {
      assert TransferSucceeded(l, reference).transactions[reference].status == SUCCESS;
    }
  }

  /** When a handler of a transfer throws: the row is one it should have settled, and it has changed nothing. */
  ghost predicate Stuck(before: Ledger, after: Ledger, reference: Id)
  {
    && reference in before.transactions && before.transactions[reference].kind == WITHDRAWAL
    && before.transactions[reference].status == PENDING && after == before
  }

  method HandleSuccessfulPaystackWithdrawal(db: Database, reference: Id) returns (reply: Reply)
    modifies db
    ensures db.View() == TransferSucceeded(old(db.View()), reference)
    ensures reply.Thrown? <==> Stuck(old(db.View()), db.View(), reference)
  {
    if reference !in db.transactions || db.transactions[reference].kind != WITHDRAWAL {
      return Returned;
    }
    var row := db.transactions[reference];
    if row.status != PENDING {
      return Returned;
    }
    if row.sender.None? {
      return Thrown("Wallet not found");
    }
    var before := db.View();
    reply := Wallet.Debit(db, row.sender.value, row.amount);
    if reply.Returned? {
      reply := Wallet.UpdateStatus(db, reference, SUCCESS);
    }
    if reply.Thrown? {
      db.Rollback(before);
    } else {
      assert db.transactions[reference].status == SUCCESS;
    }
  }

  predicate TransferRefunds(l: Ledger, reference: Id)
  {
    PendingWithdrawal(l, reference)
    && CanCredit(l, l.transactions[reference].sender.value, l.transactions[reference].amount)
  }

  /** A failed transfer credits the sender, although nothing was debited when the withdrawal began. */
  function TransferFailed(l: Ledger, reference: Id): Ledger
  {
    if TransferRefunds(l, reference) then
      var row := l.transactions[reference];
      Marked(Credited(l, row.sender.value, row.amount), reference, FAILED)
    else l
  }

  /**
   * A failed transfer credits exactly when its row is a pending withdrawal of a positive amount whose sender's wallet
   * exists. Then the sender gains the amount of the row, the row becomes FAILED and nothing else changes.
   */
  lemma {:induction false} FailedTransferPaysBack(l: Ledger, reference: Id)
    ensures var after := TransferFailed(l, reference);
      var pays := && reference in l.transactions && l.transactions[reference].status == PENDING
                  && l.transactions[reference].kind == WITHDRAWAL
                  && l.transactions[reference].amount > 0.0
                  && l.transactions[reference].sender.Some?
                  && l.transactions[reference].sender.value in l.balances;
      && (after != l <==> pays)
      && (pays ==>
           var row := l.transactions[reference];
           after == l.(transactions := l.transactions[reference := row.(status := FAILED)],
                       balances := l.balances[row.sender.value := l.balances[row.sender.value] + row.amount]))
  {
    if TransferRefunds(l, reference) {
      assert TransferFailed(l, reference).transactions[reference].status == FAILED;
    }
  }

  method HandleFailedPaystackWithdrawal(db: Database, reference: Id) returns (reply: Reply)
    modifies db
    ensures db.View() == TransferFailed(old(db.View()), reference)
    ensures reply.Thrown? <==> Stuck(old(db.View()), db.View(), reference)
  {
    if reference !in db.transactions || db.transactions[reference].kind != WITHDRAWAL {
      return Returned;
    }
    var row := db.transactions[reference];
    if row.status != PENDING {
      return Returned;
    }
    if row.sender.None? {
      return Thrown("Record to update not found");
    }
    var before := db.View();
    reply := Wallet.UpdateStatus(db, reference, FAILED);
    if reply.Returned? {
      reply := Wallet.Credit(db, row.sender.value, row.amount);
    }
    if reply.Thrown? {
      db.Rollback(before);
    } else {
      assert db.transactions[reference].status == FAILED;
    }
  }
}
