/** Wallet balances and transaction rows, one statement at a time. */
module Wallet {
  import opened Common
  import opened Database

  method Credit(db: Database, wallet: Id, amount: real) returns (reply: Reply)
    modifies db
    ensures reply.Returned? <==> CanCredit(old(db.View()), wallet, amount)
    ensures db.View() == if reply.Returned? then Credited(old(db.View()), wallet, amount) else old(db.View())
  {
    if amount <= 0.0 {
      return Thrown("Amount must be greater than zero");
    }
    if wallet !in db.balances {
      return Thrown("Record to update not found");
    }
    db.balances := db.balances[wallet := db.balances[wallet] + amount];
    return Returned;
  }

  /** The guard is the ledger's. */
  method Debit(db: Database, wallet: Id, amount: real) returns (reply: Reply)
    modifies db
    ensures reply.Returned? <==> CanDebit(old(db.View()), wallet, amount)
    ensures db.View() == if reply.Returned? then Debited(old(db.View()), wallet, amount) else old(db.View())
  {
    if amount <= 0.0 {
      return Thrown("Amount must be greater than zero");
    }
    if wallet !in db.balances {
      return Thrown("Wallet not found");
    }
    if db.below(db.balances[wallet], amount) {
      return Thrown("Insufficient balance");
    }
    db.balances := db.balances[wallet := db.balances[wallet] - amount];
    return Returned;
  }

  method RecordTransaction(db: Database, reference: Id, row: Transaction) returns (reply: Reply)
    modifies db
    ensures reply.Returned? <==> Recordable(old(db.View()), reference, row)
    ensures db.View() == if reply.Returned? then Recorded(old(db.View()), reference, row) else old(db.View())
  {
    if reference in db.transactions || (row.hash.Some? && row.hash.value in db.byHash) {
      return Thrown("Unique constraint failed");
    }
    db.transactions := db.transactions[reference := row];
    if row.hash.Some? {
      db.byHash := db.byHash[row.hash.value := reference];
    }
    return Returned;
  }

  method UpdateStatus(db: Database, reference: Id, status: TransactionStatus) returns (reply: Reply)
    modifies db
    ensures reply.Returned? <==> reference in old(db.transactions)
    ensures db.View() == if reply.Returned? then Marked(old(db.View()), reference, status) else old(db.View())
  {
    if reference !in db.transactions {
      return Thrown("Record to update not found");
    }
    db.transactions := db.transactions[reference := db.transactions[reference].(status := status)];
    return Returned;
  }

  method UpdateStatusAndHash(db: Database, reference: Id, status: TransactionStatus, hash: string)
    returns (reply: Reply)
    modifies db
    ensures reply.Returned? <==>
              && reference in old(db.transactions)
              && (hash in old(db.byHash) ==> old(db.transactions[reference].hash) == Some(hash))
    ensures db.View() == if reply.Returned? then MarkedWithHash(old(db.View()), reference, status, hash)
                         else old(db.View())
  {
    if reference !in db.transactions {
      return Thrown("Record to update not found");
    }
    var row := db.transactions[reference];
    if hash in db.byHash && row.hash != Some(hash) {
      return Thrown("Unique constraint failed");
    }
    if row.hash.Some? {
      db.byHash := db.byHash - {row.hash.value};
    }
    db.transactions := db.transactions[reference := row.(status := status, hash := Some(hash))];
    db.byHash := db.byHash[hash := reference];
    return Returned;
  }
}
