/**
 * The rows the money path reads and writes. A row is keyed by its unique reference, which stands for
 * the generated id as well; `byHash` is the unique index over the transaction hashes.
 */
module Database {
  import opened Common

  datatype PaymentMethod = PAYSTACK | CRYPTO | WALLET

  datatype TransactionType = DEPOSIT | WITHDRAWAL | ORDER

  datatype TransactionStatus = PENDING | SUCCESS | FAILED

  datatype Transaction = Transaction(
    kind: TransactionType,
    via: PaymentMethod,
    status: TransactionStatus,
    amount: real,
    sender: Option<Id>,
    recipient: Option<Id>,
    hash: Option<string>,
    orderId: Option<Id>)

  datatype OrderStatus = OrderPending | OrderPaid | OrderFailed | OrderCancelled | OrderCompleted

  datatype Book = Book(price: int, author: Id)

  /** One bought book: its price and author at the time of the order. */
  datatype Line = Line(price: int, author: Id)

  datatype Order = Order(user: Id, status: OrderStatus, total: int, lines: map<Id, Line>)

  datatype Ledger = Ledger(
    balances: map<Id, real>,
    walletOf: map<Id, Id>,
    transactions: map<Id, Transaction>,
    byHash: map<string, Id>,
    responses: map<string, PaymentMethod>,
    books: map<Id, Book>,
    orders: map<Id, Order>,
    below: (real, real) -> bool)   // how the debit guard decides that a balance is below an amount

  // ---- Transaction rows ----

  /** A row can be inserted when neither its reference nor its hash is taken. */
  predicate Recordable(l: Ledger, reference: Id, row: Transaction)
  {
    reference !in l.transactions && (row.hash.Some? ==> row.hash.value !in l.byHash)
  }

  function Recorded(l: Ledger, reference: Id, row: Transaction): Ledger
  {
    l.(transactions := l.transactions[reference := row],
       byHash := if row.hash.Some? then l.byHash[row.hash.value := reference] else l.byHash)
  }

  function Marked(l: Ledger, reference: Id, status: TransactionStatus): Ledger
    requires reference in l.transactions
  {
    l.(transactions := l.transactions[reference := l.transactions[reference].(status := status)])
  }

  /** The index of hashes without the entry of one row. */
  function Unindexed(l: Ledger, reference: Id): map<string, Id>
    requires reference in l.transactions
  {
    var row := l.transactions[reference];
    if row.hash.Some? then l.byHash - {row.hash.value} else l.byHash
  }

  /** A status update that also sets the hash; the hash it replaces, if any, is free again. */
  function MarkedWithHash(l: Ledger, reference: Id, status: TransactionStatus, hash: string): Ledger
    requires reference in l.transactions
  {
    l.(transactions := l.transactions[reference := l.transactions[reference].(status := status, hash := Some(hash))],
       byHash := Unindexed(l, reference)[hash := reference])
  }

  predicate Pending(l: Ledger, reference: Id)
  {
    reference in l.transactions && l.transactions[reference].status == PENDING
  }

  // ---- Wallets ----

  predicate CanCredit(l: Ledger, wallet: Id, amount: real)
  {
    amount > 0.0 && wallet in l.balances
  }

  function Credited(l: Ledger, wallet: Id, amount: real): Ledger
    requires wallet in l.balances
  {
    l.(balances := l.balances[wallet := l.balances[wallet] + amount])
  }

  /** The ledger's laws hold for any guard; only that balances stay non-negative needs the numeric answer. */
  predicate CanDebit(l: Ledger, wallet: Id, amount: real)
  {
    amount > 0.0 && wallet in l.balances && !l.below(l.balances[wallet], amount)
  }

  function Debited(l: Ledger, wallet: Id, amount: real): Ledger
    requires wallet in l.balances
  {
    l.(balances := l.balances[wallet := l.balances[wallet] - amount])
  }

  /** Whether a provider has already delivered this reference. */
  predicate HasResponse(l: Ledger, provider: PaymentMethod, reference: string)
  {
    reference in l.responses && l.responses[reference] == provider
  }

  class Database {
    var balances: map<Id, real>
    var walletOf: map<Id, Id>
    var transactions: map<Id, Transaction>
    var byHash: map<string, Id>
    var responses: map<string, PaymentMethod>
    var books: map<Id, Book>
    var orders: map<Id, Order>
    const below: (real, real) -> bool

    function View(): Ledger
      reads this
    {
      Ledger(balances, walletOf, transactions, byHash, responses, books, orders, below)
    }

    constructor (l: Ledger)
      ensures View() == l
    {
      balances, walletOf, transactions, byHash := l.balances, l.walletOf, l.transactions, l.byHash;
      responses, books, orders, below := l.responses, l.books, l.orders, l.below;
    }

    /** What an aborted database transaction does: every row is as it was when it began. */
    method Rollback(before: Ledger)
      requires before.below == below
      modifies this
      ensures View() == before
    {
      balances, walletOf, transactions, byHash := before.balances, before.walletOf, before.transactions, before.byHash;
      responses, books, orders := before.responses, before.books, before.orders;
    }
  }
}
