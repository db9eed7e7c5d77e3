/** Deposits: a pending row is credited once its payment is confirmed, or marked failed. */
module Deposits {
  import opened Common
  import opened Database
  import Wallet

  function DepositRow(via: PaymentMethod, amount: real, wallet: Id, hash: Option<string>): Transaction
  {
    Transaction(DEPOSIT, via, PENDING, amount, None, Some(wallet), hash, None)
  }

  predicate DepositAccepted(l: Ledger, user: Id, via: PaymentMethod, amount: real, reference: Id,
                            hash: Option<string>)
  {
    && via != WALLET
    && user in l.walletOf
    && Recordable(l, reference, DepositRow(via, amount, l.walletOf[user], hash))
  }

  function InitiatedDeposit(l: Ledger, user: Id, via: PaymentMethod, amount: real, reference: Id,
                            hash: Option<string>): Ledger
  {
    if DepositAccepted(l, user, via, amount, reference, hash)
    then Recorded(l, reference, DepositRow(via, amount, l.walletOf[user], hash))
    else l
  }

  /**
   * A pending row of that amount for the user's own wallet is recorded exactly when the method is PAYSTACK or CRYPTO,
   * the user has a wallet, and reference and hash are free. Nothing else is written.
   */
  lemma {:induction false} DepositRecords(l: Ledger, user: Id, via: PaymentMethod, amount: real, reference: Id,
                                          hash: Option<string>)
    ensures var after := InitiatedDeposit(l, user, via, amount, reference, hash);
      var open := && via in {PAYSTACK, CRYPTO} && user in l.walletOf
                  && reference !in l.transactions && (hash.Some? ==> hash.value !in l.byHash);
      && (reference in after.transactions && reference !in l.transactions <==> open)
      && (after != l <==> open)
      && (open ==>
           && after == l.(transactions := after.transactions, byHash := after.byHash)
           && after.transactions == l.transactions[reference := after.transactions[reference]]
           && after.transactions[reference]
              == Transaction(DEPOSIT, via, PENDING, amount, None, Some(l.walletOf[user]), hash, None)
           && after.byHash == if hash.Some? then l.byHash[hash.value := reference] else l.byHash)
  {
    var after := InitiatedDeposit(l, user, via, amount, reference, hash);
    if DepositAccepted(l, user, via, amount, reference, hash) {
      assert reference in after.transactions;
    }
  }

  /** The provider is asked last: when it throws the row is already there and stays. */
  method InitiateDeposit(db: Database, user: Id, via: PaymentMethod, amount: real, reference: Id,
                         hash: Option<string>, providerOk: bool) returns (reply: Reply)
    modifies db
    ensures reply.Returned? <==> providerOk && DepositAccepted(old(db.View()), user, via, amount, reference, hash)
    ensures db.View() == InitiatedDeposit(old(db.View()), user, via, amount, reference, hash)
  {
    if via == WALLET {
      return Thrown("Unsupported deposit method");
    }
    if user !in db.walletOf {
      return Thrown("Wallet not found for user");
    }
    var wallet := db.walletOf[user];
    reply := Wallet.RecordTransaction(db, reference, DepositRow(via, amount, wallet, hash));
    if reply.Returned? && !providerOk {
      reply := Thrown("provider");
    }
  }

  // ---- Verification of a crypto payment ----

  /**
   * A verified payment credits the row of its hash: the row is pending and its wallet can be credited.
   * `books` is what verification and conversion made of the payment, when it succeeded.
   */
  predicate VerifiedCredits(l: Ledger, hash: string, books: Option<real>)
  {
    && hash != "" && hash in l.byHash && Pending(l, l.byHash[hash])
    && books.Some?
    && l.transactions[l.byHash[hash]].recipient.Some?
    && CanCredit(l, l.transactions[l.byHash[hash]].recipient.value, books.value)
  }

  function VerifiedDeposit(l: Ledger, hash: string, books: Option<real>): Ledger
  {
    if VerifiedCredits(l, hash, books) then
      var reference := l.byHash[hash];
      Marked(Credited(l, l.transactions[reference].recipient.value, books.value), reference, SUCCESS)
    else l
  }

  /**
   * A verification pays exactly when it succeeded with a positive amount for the hash of a pending row whose wallet
   * exists. Then that wallet gains the verified amount, the row becomes SUCCESS and nothing else changes.
   */
  lemma {:induction false} VerificationPays(l: Ledger, hash: string, books: Option<real>)
    requires hash in l.byHash ==> l.byHash[hash] in l.transactions
    ensures var after := VerifiedDeposit(l, hash, books);
      var pays := && hash != "" && hash in l.byHash && l.transactions[l.byHash[hash]].status == PENDING
                  && books.Some? && books.value > 0.0
                  && l.transactions[l.byHash[hash]].recipient.Some?
                  && l.transactions[l.byHash[hash]].recipient.value in l.balances;
      && (after != l <==> pays)
      && (pays ==>
           var reference, row := l.byHash[hash], l.transactions[l.byHash[hash]];
           after == l.(transactions := l.transactions[reference := row.(status := SUCCESS)],
                       balances := l.balances[row.recipient.value := l.balances[row.recipient.value] + books.value]))
  {
    if VerifiedCredits(l, hash, books) {
      assert VerifiedDeposit(l, hash, books).transactions[l.byHash[hash]].status == SUCCESS;
    }
  }

  /** The index over hashes names existing rows. */
  predicate HashesResolve(l: Ledger)
  {
    forall h :: h in l.byHash ==> l.byHash[h] in l.transactions
  }

  method VerifyDeposit(db: Database, via: PaymentMethod, hash: Option<string>, books: Option<real>)
    returns (reply: Reply)
    requires HashesResolve(db.View())
    modifies db
    ensures db.View() == if via == CRYPTO && hash.Some? then VerifiedDeposit(old(db.View()), hash.value, books)
                         else old(db.View())
    ensures reply.Thrown? <==>
              || via == WALLET
              || (via == CRYPTO && (hash.None? || hash.value == ""))
              || (&& via == CRYPTO && books.Some? && hash.value in old(db.byHash)
                  && old(db.transactions)[old(db.byHash)[hash.value]].status == PENDING
                  && db.View() == old(db.View()))
  {
    if via == WALLET {
      return Thrown("Unsupported method");
    }
    if via == PAYSTACK {
      return Returned;  // the provider's answer never carries the field that is read
    }
    if hash.None? || hash.value == "" {
      return Thrown("Transaction hash is required for crypto verification");
    }
    if hash.value !in db.byHash {
      return Returned;
    }
    if books.None? {
      return Returned;
    }
    var reference := db.byHash[hash.value];
    var row := db.transactions[reference];
    if row.status == PENDING {
      if row.recipient.None? {
        return Thrown("Record to update not found");
      }
      reply := Wallet.Credit(db, row.recipient.value, books.value);
      if reply.Thrown? {
        return;
      }
      reply := Wallet.UpdateStatus(db, reference, SUCCESS);
    } else {
      reply := Returned;
    }
  }

  // ---- Paystack webhooks ----

  /** charge.success credits exactly when no response was recorded for the reference and the pending row can be paid. */
  predicate ChargeCredits(l: Ledger, reference: Id)
  {
    && !HasResponse(l, PAYSTACK, reference)
    && Pending(l, reference)
    && l.transactions[reference].recipient.Some?
    && CanCredit(l, l.transactions[reference].recipient.value, l.transactions[reference].amount)
  }

  function ChargeSucceeded(l: Ledger, reference: Id): Ledger
  {
    if ChargeCredits(l, reference) then
      var row := l.transactions[reference];
      Marked(Credited(l, row.recipient.value, row.amount), reference, SUCCESS)
    else l
  }

  /** A delivery whose response is on record, like each one that comes through the endpoint, pays nothing. */
  lemma {:induction false} RecordedChargeIsLeft(l: Ledger, reference: Id)
    requires reference in l.responses && l.responses[reference] == PAYSTACK
    ensures ChargeSucceeded(l, reference) == l
  {
  }

  /**
   * A successful charge pays exactly when Paystack has no response on record for it and its row is pending with a
   * positive amount and an existing wallet. Then that wallet gains the amount of the row, the row becomes SUCCESS and
   * nothing else changes.
   */
  lemma {:induction false} ChargePays(l: Ledger, reference: Id)
    ensures var after := ChargeSucceeded(l, reference);
      var pays := && !(reference in l.responses && l.responses[reference] == PAYSTACK)
                  && reference in l.transactions && l.transactions[reference].status == PENDING
                  && l.transactions[reference].amount > 0.0
                  && l.transactions[reference].recipient.Some?
                  && l.transactions[reference].recipient.value in l.balances;
      && (after != l <==> pays)
      && (pays ==>
           var row := l.transactions[reference];
           after == l.(transactions := l.transactions[reference := row.(status := SUCCESS)],
                       balances := l.balances[row.recipient.value := l.balances[row.recipient.value] + row.amount]))
  {
    if ChargeCredits(l, reference) {
      assert ChargeSucceeded(l, reference).transactions[reference].status == SUCCESS;
    }
  }

  method HandleSuccessfulPaystackDeposit(db: Database, reference: Id) returns (reply: Reply)
    modifies db
    ensures reply.Returned? <==>
              || (reference in old(db.responses) && old(db.responses)[reference] == PAYSTACK)
              || (reference in old(db.transactions)
                  && (old(db.transactions)[reference].status != PENDING || db.View() != old(db.View())))
    ensures db.View() == ChargeSucceeded(old(db.View()), reference)
  {
    if reference in db.responses && db.responses[reference] == PAYSTACK {
      return Returned;
    }
    if reference !in db.transactions {
      return Thrown("Transaction not found");
    }
    var row := db.transactions[reference];
    if row.status != PENDING {
      return Returned;
    }
    var before := db.View();
    if row.recipient.None? {
      return Thrown("Record to update not found");
    }
    reply := Wallet.Credit(db, row.recipient.value, row.amount);
    if reply.Returned? {
      reply := Wallet.UpdateStatus(db, reference, SUCCESS);
    }
    if reply.Thrown? {
      db.Rollback(before);
    } else {
      assert db.transactions[reference].status == SUCCESS;
    }
  }

  function ChargeFailed(l: Ledger, reference: Id): Ledger
  {
    if Pending(l, reference) then Marked(l, reference, FAILED) else l
  }

  /** A failed charge turns a pending row FAILED, whatever is on record, and changes nothing else. */
  lemma {:induction false} FailedChargeMarks(l: Ledger, reference: Id)
    ensures var after := ChargeFailed(l, reference);
      var marks := reference in l.transactions && l.transactions[reference].status == PENDING;
      && (after != l <==> marks)
      && (marks ==>
           after == l.(transactions := l.transactions[reference := l.transactions[reference].(status := FAILED)]))
  {
    if Pending(l, reference) {
      assert ChargeFailed(l, reference).transactions[reference].status == FAILED;
    }
  }

  method HandleFailedPaystackDeposit(db: Database, reference: Id) returns (reply: Reply)
    modifies db
    ensures reply.Returned? <==> reference in old(db.transactions)
    ensures db.View() == ChargeFailed(old(db.View()), reference)
  {
    if reference !in db.transactions {
      return Thrown("Transaction not found");
    }
    if db.transactions[reference].status != PENDING {
      return Returned;
    }
    reply := Wallet.UpdateStatus(db, reference, FAILED);
  }
}
