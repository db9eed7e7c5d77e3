/**
 * Whole runs of the money path, each handler taken as one step: what every wallet's
 * balance is made of, and what a settled row can still do.
 */
module LedgerRuns {
  import opened Common
  import opened Database
  import opened Deposits
  import opened Withdrawals
  import opened Orders

  datatype Event =
    | OpenWallet(user: Id, wallet: Id)
    | PutBook(bookId: Id, book: Book)
    | RecordResponse(provider: PaymentMethod, response: string)
    | InitiateDeposit(user: Id, via: PaymentMethod, amount: real, reference: Id, hash: Option<string>)
    | VerifyCrypto(verifiedHash: string, books: Option<real>)
    | ChargeSuccess(reference: Id)
    | ChargeFailure(reference: Id)
    | InitiateWithdrawal(user: Id, via: PaymentMethod, amount: real, reference: Id, payout: Option<string>)
    | TransferSuccess(reference: Id)
    | TransferFailure(reference: Id)
    | CreateOrder(user: Id, bookIds: seq<Id>, orderId: Id)
    | Checkout(user: Id, source: Source, via: PaymentMethod, reference: Id, providerOk: bool)

  function OpenedWallet(l: Ledger, user: Id, wallet: Id): Ledger
  {
    if user !in l.walletOf && wallet !in l.balances
    then l.(walletOf := l.walletOf[user := wallet], balances := l.balances[wallet := 0.0])
    else l
  }

  /** The webhook endpoint keeps the first delivery of a reference and ignores the rest. */
  function ResponseRecorded(l: Ledger, provider: PaymentMethod, response: string): Ledger
  {
    if response in l.responses then l else l.(responses := l.responses[response := provider])
  }

  ghost function Step(l: Ledger, e: Event): Ledger
  {
    match e
    case OpenWallet(user, wallet) => OpenedWallet(l, user, wallet)
    case PutBook(bookId, book) => l.(books := l.books[bookId := book])
    case RecordResponse(provider, response) => ResponseRecorded(l, provider, response)
    case InitiateDeposit(user, via, amount, reference, hash) => InitiatedDeposit(l, user, via, amount, reference, hash)
    case VerifyCrypto(hash, books) => VerifiedDeposit(l, hash, books)
    case ChargeSuccess(reference) => ChargeSucceeded(l, reference)
    case ChargeFailure(reference) => ChargeFailed(l, reference)
    case InitiateWithdrawal(user, via, amount, reference, payout) =>
      InitiatedWithdrawal(l, user, via, amount, reference, payout)
    case TransferSuccess(reference) => TransferSucceeded(l, reference)
    case TransferFailure(reference) => TransferFailed(l, reference)
    case CreateOrder(user, bookIds, orderId) => CreatedOrder(l, user, bookIds, orderId)
    case Checkout(user, source, via, reference, providerOk) => CheckedOut(l, user, source, via, reference, providerOk)
  }

  ghost function After(l: Ledger, run: seq<Event>): Ledger
  {
    if run == [] then l else Step(After(l, run[..|run| - 1]), run[|run| - 1])
  }

  // ---- The journal ----

  /** Why a row left PENDING. */
  datatype Cause =
    | ChargePaid
    | ChargeDeclined
    | ChainVerified(books: real)
    | PaidOut
    | PayoutClashed        // debited, then the row's update was refused
    | PayoutRefused
    | TransferDone
    | TransferReturned
    | WalletPaid(buyer: Id, order: Order)
    | CheckoutRefused

  /** One transition out of PENDING: the row as it was recorded, and the cause. */
  datatype Entry = Entry(reference: Id, row: Transaction, cause: Cause)

  function Outcome(cause: Cause): TransactionStatus
  {
    match cause
    case ChargePaid | ChainVerified(_) | PaidOut | TransferDone | WalletPaid(_, _) => SUCCESS
    case ChargeDeclined | PayoutClashed | PayoutRefused | TransferReturned | CheckoutRefused => FAILED
  }

  /** The signed effect of a transition on a wallet: the only way money moves. */
  ghost function Posted(entry: Entry, wallet: Id): real
  {
    var row := entry.row;
    match entry.cause
    case ChargePaid => if row.recipient == Some(wallet) then row.amount else 0.0
    case ChainVerified(books) => if row.recipient == Some(wallet) then books else 0.0
    case PaidOut | PayoutClashed | TransferDone => if row.sender == Some(wallet) then -row.amount else 0.0
    case TransferReturned => if row.sender == Some(wallet) then row.amount else 0.0
    case WalletPaid(buyer, order) => Share(order, buyer, wallet)
    case ChargeDeclined | PayoutRefused | CheckoutRefused => 0.0
  }

  function PayoutCause(l: Ledger, wallet: Id, via: PaymentMethod, amount: real, payout: Option<string>): Option<Cause>
  {
    if payout.None? then Some(PayoutRefused)
    else if via != CRYPTO then None
    else if !CanDebit(l, wallet, amount) then Some(PayoutRefused)
    else if payout.value in l.byHash then Some(PayoutClashed)
    else Some(PaidOut)
  }

  /** The transition a step makes, if it makes one. */
  ghost function JournalEntry(l: Ledger, e: Event): Option<Entry>
  {
    match e
    case VerifyCrypto(hash, books) =>
      if VerifiedCredits(l, hash, books)
      then Some(Entry(l.byHash[hash], l.transactions[l.byHash[hash]], ChainVerified(books.value))) else None
    case ChargeSuccess(reference) =>
      if ChargeCredits(l, reference) then Some(Entry(reference, l.transactions[reference], ChargePaid)) else None
    case ChargeFailure(reference) =>
      if Pending(l, reference) then Some(Entry(reference, l.transactions[reference], ChargeDeclined)) else None
    case InitiateWithdrawal(user, via, amount, reference, payout) =>
      if WithdrawalAccepted(l, user, via, amount, reference) then
        var cause := PayoutCause(l, l.walletOf[user], via, amount, payout);
        if cause.Some? then Some(Entry(reference, WithdrawalRow(via, amount, l.walletOf[user]), cause.value)) else None
      else None
    case TransferSuccess(reference) =>
      if TransferDebits(l, reference) then Some(Entry(reference, l.transactions[reference], TransferDone)) else None
    case TransferFailure(reference) =>
      if TransferRefunds(l, reference)
      then Some(Entry(reference, l.transactions[reference], TransferReturned)) else None
    case Checkout(user, source, via, reference, providerOk) =>
      if via == WALLET && WalletPays(l, user, source, reference) then
        var order := Prepared(l, user, source).value.orders[source.orderId];
        Some(Entry(reference, OrderRow(via, order, source.orderId), WalletPaid(user, order)))
      else if ExternalOpens(l, user, source, via, reference) && via == PAYSTACK && !providerOk then
        var order := Prepared(l, user, source).value.orders[source.orderId];
        Some(Entry(reference, OrderRow(via, order, source.orderId), CheckoutRefused))
      else None
    case _ => None
  }

  ghost function Journal(l: Ledger, run: seq<Event>): seq<Entry>
  {
    if run == [] then [] else
      var before := run[..|run| - 1];
      var entry := JournalEntry(After(l, before), run[|run| - 1]);
      Journal(l, before) + if entry.Some? then [entry.value] else []
  }

  ghost function TotalPosted(entries: seq<Entry>, wallet: Id): real
  {
    if entries == [] then 0.0
    else TotalPosted(entries[..|entries| - 1], wallet) + Posted(entries[|entries| - 1], wallet)
  }

  function Balance(l: Ledger, wallet: Id): real
  {
    if wallet in l.balances then l.balances[wallet] else 0.0
  }

  predicate Settled(rows: map<Id, Transaction>, reference: Id)
  {
    reference in rows && rows[reference].status != PENDING
  }

  // ---- One step ----

  ghost function PostedBy(entry: Option<Entry>, wallet: Id): real
  {
    if entry.Some? then Posted(entry.value, wallet) else 0.0
  }

  /** A step changes each balance by exactly what its journal entry posts to it, and by nothing without one. */
  lemma {:induction false} StepPosts(l: Ledger, e: Event, wallet: Id)
    ensures Balance(Step(l, e), wallet) == Balance(l, wallet) + PostedBy(JournalEntry(l, e), wallet)
  {
    match e {
      case Checkout(user, source, via, reference, providerOk) =>
        CheckoutPosts(l, user, source, via, reference, providerOk, wallet);
      case CreateOrder(user, bookIds, orderId) =>
        CreatedOrderWrites(l, user, bookIds, orderId);
      case InitiateWithdrawal(user, via, amount, reference, payout) =>
        WithdrawalPosts(l, user, via, amount, reference, payout, wallet);
      case _ =>
        OtherPosts(l, e, wallet);
    }
  }

  lemma {:induction false} OtherPosts(l: Ledger, e: Event, wallet: Id)
    requires !e.Checkout? && !e.CreateOrder? && !e.InitiateWithdrawal?
    ensures Balance(Step(l, e), wallet) == Balance(l, wallet) + PostedBy(JournalEntry(l, e), wallet)
  {
  }

  /** An accepted withdrawal debits at once only when the provider has paid out from the chain and the guard allows. */
  predicate PaysOut(l: Ledger, user: Id, via: PaymentMethod, amount: real, reference: Id, payout: Option<string>)
  {
    && WithdrawalAccepted(l, user, via, amount, reference)
    && payout.Some? && via == CRYPTO && CanDebit(l, l.walletOf[user], amount)
  }

  lemma {:induction false} WithdrawalBalances(l: Ledger, user: Id, via: PaymentMethod, amount: real, reference: Id,
                                              payout: Option<string>)
    ensures InitiatedWithdrawal(l, user, via, amount, reference, payout).balances
            == if PaysOut(l, user, via, amount, reference, payout)
               then l.balances[l.walletOf[user] := l.balances[l.walletOf[user]] - amount] else l.balances
  {
  }

  lemma {:induction false} WithdrawalEntry(l: Ledger, user: Id, via: PaymentMethod, amount: real, reference: Id,
                                           payout: Option<string>, wallet: Id)
    ensures PostedBy(JournalEntry(l, Event.InitiateWithdrawal(user, via, amount, reference, payout)), wallet)
            == if PaysOut(l, user, via, amount, reference, payout) && l.walletOf[user] == wallet then -amount else 0.0
  {
  }

  lemma {:induction false} WithdrawalPosts(l: Ledger, user: Id, via: PaymentMethod, amount: real, reference: Id,
                                           payout: Option<string>, wallet: Id)
    ensures Balance(InitiatedWithdrawal(l, user, via, amount, reference, payout), wallet)
            == Balance(l, wallet)
               + PostedBy(JournalEntry(l, Event.InitiateWithdrawal(user, via, amount, reference, payout)), wallet)
  {
    WithdrawalBalances(l, user, via, amount, reference, payout);
    WithdrawalEntry(l, user, via, amount, reference, payout, wallet);
  }

  lemma {:induction false} CheckoutPosts(l: Ledger, user: Id, source: Source, via: PaymentMethod, reference: Id,
                                         providerOk: bool, wallet: Id)
    ensures Balance(CheckedOut(l, user, source, via, reference, providerOk), wallet)
            == Balance(l, wallet)
               + PostedBy(JournalEntry(l, Checkout(user, source, via, reference, providerOk)), wallet)
  {
    if via == WALLET && WalletPays(l, user, source, reference) {
      WalletCheckoutPosts(l, user, source, reference, providerOk, wallet);
    } else {
      UnpaidCheckoutPosts(l, user, source, via, reference, providerOk, wallet);
    }
  }

  lemma {:induction false} UnpaidCheckoutPosts(l: Ledger, user: Id, source: Source, via: PaymentMethod, reference: Id,
                                               providerOk: bool, wallet: Id)
    requires !(via == WALLET && WalletPays(l, user, source, reference))
    ensures CheckedOut(l, user, source, via, reference, providerOk).balances == l.balances
    ensures PostedBy(JournalEntry(l, Checkout(user, source, via, reference, providerOk)), wallet) == 0.0
  {
    if ExternalOpens(l, user, source, via, reference) {
      PreparedWrites(l, user, source);
    }
  }

  lemma {:induction false} WalletCheckoutPosts(l: Ledger, user: Id, source: Source, reference: Id, providerOk: bool,
                                               wallet: Id)
    requires WalletPays(l, user, source, reference)
    ensures Balance(CheckedOut(l, user, source, WALLET, reference, providerOk), wallet)
            == Balance(l, wallet)
               + Posted(JournalEntry(l, Checkout(user, source, WALLET, reference, providerOk)).value, wallet)
  {
    var p := Prepared(l, user, source).value;
    var entry := JournalEntry(l, Checkout(user, source, WALLET, reference, providerOk)).value;
    assert Posted(entry, wallet) == Share(p.orders[source.orderId], user, wallet);
    assert p.balances == l.balances by { PreparedWrites(l, user, source); }
    CheckedOutBalances(l, user, source, reference, providerOk);
    PaidPosts(p, user, source.orderId, wallet);
  }

  lemma {:induction false} PaidPosts(l: Ledger, user: Id, orderId: Id, wallet: Id)
    requires orderId in l.orders && CanPay(l, user, l.orders[orderId])
    ensures Balance(Paid(l, user, orderId), wallet) == Balance(l, wallet) + Share(l.orders[orderId], user, wallet)
  {
    if wallet !in l.balances {
      IncomeOfStranger(l.orders[orderId].lines, wallet);
    }
  }

  /** The row a step leaves behind its journal entry: out of PENDING, with the outcome of the cause. */
  ghost predicate Leaves(after: map<Id, Transaction>, entry: Entry)
  {
    && entry.reference in after
    && entry.row.status == PENDING
    && after[entry.reference] == entry.row.(status := Outcome(entry.cause), hash := after[entry.reference].hash)
  }

  /** Rows are only added or, while pending, given a status; exactly the journal entry's row is settled. */
  ghost predicate RowsStep(rows: map<Id, Transaction>, after: map<Id, Transaction>, entry: Option<Entry>)
  {
    && (forall r :: r in rows ==> r in after && after[r] == rows[r].(status := after[r].status))
    && (forall r :: Settled(rows, r) ==> after[r] == rows[r])
    && (forall r :: Settled(after, r) && !Settled(rows, r) ==> entry.Some? && entry.value.reference == r)
    && (entry.Some? ==> !Settled(rows, entry.value.reference) && Leaves(after, entry.value))
  }

  lemma {:induction false} NewRow(rows: map<Id, Transaction>, reference: Id, row: Transaction)
    requires reference !in rows && row.status == PENDING
    ensures RowsStep(rows, rows[reference := row], None)
  {
  }

  lemma {:induction false} NewSettledRow(rows: map<Id, Transaction>, entry: Entry, hash: Option<string>)
    requires entry.reference !in rows && entry.row.status == PENDING
    ensures RowsStep(rows, rows[entry.reference := entry.row.(status := Outcome(entry.cause), hash := hash)],
        Some(entry))
  {
  }

  lemma {:induction false} SettledRow(rows: map<Id, Transaction>, entry: Entry)
    requires entry.reference in rows && rows[entry.reference] == entry.row && entry.row.status == PENDING
    ensures RowsStep(rows, rows[entry.reference := entry.row.(status := Outcome(entry.cause))], Some(entry))
  {
  }

  lemma {:induction false} StepRows(l: Ledger, e: Event)
    ensures RowsStep(l.transactions, Step(l, e).transactions, JournalEntry(l, e))
  {
    match e {
      case Checkout(user, source, via, reference, providerOk) =>
        CheckoutRows(l, user, source, via, reference, providerOk);
      case CreateOrder(user, bookIds, orderId) =>
        CreatedOrderWrites(l, user, bookIds, orderId);
      case InitiateWithdrawal(user, via, amount, reference, payout) =>
        WithdrawalRows(l, user, via, amount, reference, payout);
      case _ =>
        OtherRows(l, e);
    }
  }

  lemma {:induction false} OtherRows(l: Ledger, e: Event)
    requires !e.Checkout? && !e.CreateOrder? && !e.InitiateWithdrawal?
    ensures RowsStep(l.transactions, Step(l, e).transactions, JournalEntry(l, e))
  {
    if e.VerifyCrypto? || e.ChargeSuccess? || e.ChargeFailure? || e.TransferSuccess? || e.TransferFailure? {
      SettlingRows(l, e);
    }
  }

  /** The steps that settle an existing row, or do nothing. */
  lemma {:induction false} SettlingRows(l: Ledger, e: Event)
    requires e.VerifyCrypto? || e.ChargeSuccess? || e.ChargeFailure? || e.TransferSuccess? || e.TransferFailure?
    ensures RowsStep(l.transactions, Step(l, e).transactions, JournalEntry(l, e))
  {
    var entry := JournalEntry(l, e);
    if entry.Some? {
      SettledRow(l.transactions, entry.value);
      assert Step(l, e).transactions
             == l.transactions[entry.value.reference := entry.value.row.(status := Outcome(entry.value.cause))];
    } else {
      assert Step(l, e).transactions == l.transactions;
    }
  }

  lemma {:induction false} WithdrawalRows(l: Ledger, user: Id, via: PaymentMethod, amount: real, reference: Id,
                                          payout: Option<string>)
    ensures RowsStep(l.transactions, InitiatedWithdrawal(l, user, via, amount, reference, payout).transactions,
                     JournalEntry(l, Event.InitiateWithdrawal(user, via, amount, reference, payout)))
  {
    if WithdrawalAccepted(l, user, via, amount, reference) {
      var row := WithdrawalRow(via, amount, l.walletOf[user]);
      var cause := PayoutCause(l, l.walletOf[user], via, amount, payout);
      if cause.None? {
        NewRow(l.transactions, reference, row);
      } else {
        var entry := Entry(reference, row, cause.value);
        NewSettledRow(l.transactions, entry, if cause.value == PaidOut then Some(payout.value) else None);
        WithdrawalFinalRow(l, user, via, amount, reference, payout, cause.value);
      }
    }
  }

  lemma {:induction false} WithdrawalFinalRow(l: Ledger, user: Id, via: PaymentMethod, amount: real, reference: Id,
                                              payout: Option<string>, cause: Cause)
    requires WithdrawalAccepted(l, user, via, amount, reference)
    requires PayoutCause(l, l.walletOf[user], via, amount, payout) == Some(cause)
    ensures InitiatedWithdrawal(l, user, via, amount, reference, payout).transactions
            == l.transactions[reference := WithdrawalRow(via, amount, l.walletOf[user]).(
                 status := Outcome(cause), hash := if cause == PaidOut then Some(payout.value) else None)]
  {
  }

  lemma {:induction false} CheckoutRows(l: Ledger, user: Id, source: Source, via: PaymentMethod, reference: Id,
                                        providerOk: bool)
    ensures RowsStep(l.transactions, CheckedOut(l, user, source, via, reference, providerOk).transactions,
                     JournalEntry(l, Checkout(user, source, via, reference, providerOk)))
  {
    if (via == WALLET && WalletPays(l, user, source, reference)) || ExternalOpens(l, user, source, via, reference) {
      PreparedWrites(l, user, source);
      var row := OrderRow(via, Prepared(l, user, source).value.orders[source.orderId], source.orderId);
      var entry := JournalEntry(l, Checkout(user, source, via, reference, providerOk));
      if entry.Some? {
        NewSettledRow(l.transactions, entry.value, None);
        CheckoutFinalRow(l, user, source, via, reference, providerOk, row, entry.value.cause);
      } else {
        NewRow(l.transactions, reference, row);
      }
    }
  }

  lemma {:induction false} CheckoutFinalRow(l: Ledger, user: Id, source: Source, via: PaymentMethod, reference: Id,
                                            providerOk: bool, row: Transaction, cause: Cause)
    requires JournalEntry(l, Checkout(user, source, via, reference, providerOk)) == Some(Entry(reference, row, cause))
    ensures CheckedOut(l, user, source, via, reference, providerOk).transactions
            == l.transactions[reference := row.(status := Outcome(cause))]
  {
    PreparedWrites(l, user, source);
  }

  // ---- Whole runs ----

  lemma {:induction false} TotalPostedAppend(entries: seq<Entry>, entry: Entry, wallet: Id)
    ensures TotalPosted(entries + [entry], wallet) == TotalPosted(entries, wallet) + Posted(entry, wallet)
  {
    assert (entries + [entry])[..|entries|] == entries;
  }

  /** The ledger equation: after any run a balance is its opening balance and the journal's effects on it. */
  lemma {:induction false} LedgerEquation(l: Ledger, run: seq<Event>, wallet: Id)
    ensures Balance(After(l, run), wallet) == Balance(l, wallet) + TotalPosted(Journal(l, run), wallet)
  {
    if run != [] {
      var before := run[..|run| - 1];
      LedgerEquation(l, before, wallet);
      StepPosts(After(l, before), run[|run| - 1], wallet);
      var entry := JournalEntry(After(l, before), run[|run| - 1]);
      if entry.Some? {
        TotalPostedAppend(Journal(l, before), entry.value, wallet);
      } else {
        assert Journal(l, run) == Journal(l, before);
      }
    }
  }

  /** The journal lists the rows settled meanwhile, each once, and each row ends with the outcome of its cause. */
  ghost predicate JournalFits(rows: map<Id, Transaction>, after: map<Id, Transaction>, entries: seq<Entry>)
  {
    && (forall entry :: entry in entries ==> !Settled(rows, entry.reference) && Leaves(after, entry))
    && (forall i, j :: 0 <= i < j < |entries| ==> entries[i].reference != entries[j].reference)
    && (forall r :: Settled(after, r) && !Settled(rows, r) ==> exists entry :: entry in entries && entry.reference == r)
  }

  lemma {:induction false} JournalFitsMore(rows: map<Id, Transaction>, mid: map<Id, Transaction>,
                                           after: map<Id, Transaction>, entries: seq<Entry>, entry: Entry)
    requires JournalFits(rows, mid, entries) && RowsStep(mid, after, Some(entry))
    requires forall r :: Settled(rows, r) ==> Settled(mid, r)
    ensures JournalFits(rows, after, entries + [entry])
  {
    var more := entries + [entry];
    forall e | e in more ensures !Settled(rows, e.reference) && Leaves(after, e) {
      if e in entries {
        assert Leaves(mid, e) && Settled(mid, e.reference);
      }
    }
    forall i | 0 <= i < |entries| ensures entries[i].reference != entry.reference {
      assert entries[i] in entries && Leaves(mid, entries[i]);
    }
    forall r | Settled(after, r) && !Settled(rows, r) ensures exists e :: e in more && e.reference == r {
      if Settled(mid, r) {
        var e :| e in entries && e.reference == r;
        assert e in more;
      } else {
        assert entry in more;
      }
    }
  }

  lemma {:induction false} JournalFitsSame(rows: map<Id, Transaction>, mid: map<Id, Transaction>,
                                           after: map<Id, Transaction>, entries: seq<Entry>)
    requires JournalFits(rows, mid, entries) && RowsStep(mid, after, None)
    ensures JournalFits(rows, after, entries)
  {
    forall e | e in entries ensures Leaves(after, e) {
      assert Leaves(mid, e) && Settled(mid, e.reference);
    }
  }

  /** Each balance change of a run belongs to exactly one transition of one row out of PENDING. */
  lemma {:induction false} JournalOfRun(l: Ledger, run: seq<Event>)
    ensures JournalFits(l.transactions, After(l, run).transactions, Journal(l, run))
    ensures forall r :: Settled(l.transactions, r) ==>
              Settled(After(l, run).transactions, r) && After(l, run).transactions[r] == l.transactions[r]
  {
    if run != [] {
      var before, e := run[..|run| - 1], run[|run| - 1];
      var mid := After(l, before);
      JournalOfRun(l, before);
      StepRows(mid, e);
      var rows, after := mid.transactions, Step(mid, e).transactions;
      match JournalEntry(mid, e)
      case Some(entry) => JournalFitsMore(l.transactions, rows, after, Journal(l, before), entry);
      case None =>
        JournalFitsSame(l.transactions, rows, after, Journal(l, before));
        assert Journal(l, run) == Journal(l, before);
    }
  }

  /** SUCCESS and FAILED are final, and what a row records besides its status never changes at all. */
  lemma {:induction false} StatusAbsorption(l: Ledger, run: seq<Event>, reference: Id)
    requires reference in l.transactions
    ensures reference in After(l, run).transactions
    ensures After(l, run).transactions[reference]
            == l.transactions[reference].(status := After(l, run).transactions[reference].status)
    ensures l.transactions[reference].status != PENDING ==>
              After(l, run).transactions[reference] == l.transactions[reference]
  {
    if run != [] {
      StatusAbsorption(l, run[..|run| - 1], reference);
      StepRows(After(l, run[..|run| - 1]), run[|run| - 1]);
    }
  }

  // ---- What holds in every reachable state ----

  predicate NonNegative(l: Ledger) { forall w :: w in l.balances ==> l.balances[w] >= 0.0 }

  /** The debit a step makes: the wallet, what leaves it, and what the same step brings back to it. */
  datatype Debit = Debit(wallet: Id, amount: real, income: real)

  ghost function DebitMade(l: Ledger, e: Event): Option<Debit>
  {
    match e
    case TransferSuccess(reference) =>
      if TransferDebits(l, reference)
      then Some(Debit(l.transactions[reference].sender.value, l.transactions[reference].amount, 0.0)) else None
    case Checkout(user, source, via, reference, providerOk) =>
      if via == WALLET && WalletPays(l, user, source, reference) then
        var order := Prepared(l, user, source).value.orders[source.orderId];
        Some(Debit(user, order.total as real, Income(order.lines, user)))
      else None
    case _ => None       // a withdrawal has compared numbers before it debits, and nothing else debits
  }

  /** The debit of the step is covered; when an author buys, the income counts. */
  ghost predicate Covered(l: Ledger, e: Event)
  {
    var d := DebitMade(l, e);
    d.Some? ==> d.value.wallet in l.balances && l.balances[d.value.wallet] + d.value.income >= d.value.amount
  }

  /** A step keeps balances non-negative exactly when the debit it makes is covered. */
  lemma {:induction false} StepNonNegative(l: Ledger, e: Event)
    requires NonNegative(l)
    ensures NonNegative(Step(l, e)) <==> Covered(l, e)
  {
    match e {
      case Checkout(user, source, via, reference, providerOk) =>
        CheckoutNonNegative(l, user, source, via, reference, providerOk);
      case CreateOrder(user, bookIds, orderId) =>
        CreatedOrderWrites(l, user, bookIds, orderId);
      case InitiateWithdrawal(user, via, amount, reference, payout) =>
        WithdrawalNonNegative(l, user, via, amount, reference, payout);
      case TransferSuccess(reference) =>
        TransferNonNegative(l, reference);
      case _ =>
        OtherNonNegative(l, e);
    }
  }

  lemma {:induction false} OtherNonNegative(l: Ledger, e: Event)
    requires NonNegative(l) && !e.Checkout? && !e.CreateOrder? && !e.InitiateWithdrawal? && !e.TransferSuccess?
    ensures NonNegative(Step(l, e)) && DebitMade(l, e).None?
  {
  }

  lemma {:induction false} TransferNonNegative(l: Ledger, reference: Id)
    requires NonNegative(l)
    ensures NonNegative(TransferSucceeded(l, reference)) <==> Covered(l, Event.TransferSuccess(reference))
  {
    if TransferDebits(l, reference) {
      var row := l.transactions[reference];
      assert TransferSucceeded(l, reference).balances[row.sender.value] == l.balances[row.sender.value] - row.amount;
    }
  }

  lemma {:induction false} WithdrawalNonNegative(l: Ledger, user: Id, via: PaymentMethod, amount: real, reference: Id,
                                                 payout: Option<string>)
    requires NonNegative(l)
    ensures NonNegative(InitiatedWithdrawal(l, user, via, amount, reference, payout))
  {
    WithdrawalBalances(l, user, via, amount, reference, payout);
  }

  lemma {:induction false} CheckoutNonNegative(l: Ledger, user: Id, source: Source, via: PaymentMethod, reference: Id,
                                               providerOk: bool)
    requires NonNegative(l)
    ensures NonNegative(CheckedOut(l, user, source, via, reference, providerOk))
            <==> Covered(l, Checkout(user, source, via, reference, providerOk))
  {
    if via == WALLET && WalletPays(l, user, source, reference) {
      PaidCheckoutNonNegative(l, user, source, reference, providerOk);
    } else {
      UnpaidCheckoutPosts(l, user, source, via, reference, providerOk, user);
    }
  }

  lemma {:induction false} PaidCheckoutNonNegative(l: Ledger, user: Id, source: Source, reference: Id, providerOk: bool)
    requires NonNegative(l) && WalletPays(l, user, source, reference)
    ensures NonNegative(CheckedOut(l, user, source, WALLET, reference, providerOk))
            <==> Covered(l, Checkout(user, source, WALLET, reference, providerOk))
  {
    var p := Prepared(l, user, source).value;
    assert p.balances == l.balances by { PreparedWrites(l, user, source); }
    SameBalances(CheckedOut(l, user, source, WALLET, reference, providerOk), Paid(p, user, source.orderId)) by {
      CheckedOutBalances(l, user, source, reference, providerOk);
    }
    PaidNonNegative(p, user, source.orderId);
    PaidIsCovered(l, user, source, reference, providerOk);
  }

  lemma {:induction false} SameBalances(a: Ledger, b: Ledger)
    requires a.balances == b.balances
    ensures NonNegative(a) <==> NonNegative(b)
  {
  }

  lemma {:induction false} PaidIsCovered(l: Ledger, user: Id, source: Source, reference: Id, providerOk: bool)
    requires WalletPays(l, user, source, reference) && user in l.balances
    ensures var order := Prepared(l, user, source).value.orders[source.orderId];
      Covered(l, Checkout(user, source, WALLET, reference, providerOk))
      <==> l.balances[user] + Income(order.lines, user) >= order.total as real
  {
  }

  lemma {:induction false} PaidNonNegative(l: Ledger, user: Id, orderId: Id)
    requires NonNegative(l) && orderId in l.orders && CanPay(l, user, l.orders[orderId])
    ensures var order := l.orders[orderId];
      NonNegative(Paid(l, user, orderId)) <==> l.balances[user] + Income(order.lines, user) >= order.total as real
  {
    var order, after := l.orders[orderId], Paid(l, user, orderId);
    forall w | w in l.balances && w != user ensures after.balances[w] >= 0.0 {
      IncomeNonNegative(l, user, order, w);
      assert after.balances[w] == l.balances[w] + Share(order, user, w);
    }
    assert after.balances[user] == l.balances[user] + Share(order, user, user);
  }

  lemma {:induction false} IncomeNonNegative(l: Ledger, user: Id, order: Order, wallet: Id)
    requires CanPay(l, user, order)
    ensures Income(order.lines, wallet) >= 0.0
  {
    if wallet !in AuthorsOf(order.lines) {
      IncomeOfStranger(order.lines, wallet);
    }
  }

  ghost predicate AllCovered(l: Ledger, run: seq<Event>)
  {
    forall i {:trigger run[i]} :: 0 <= i < |run| ==> Covered(After(l, run[..i]), run[i])
  }

  /**
   * With any guard: from non-negative opening balances every state of a run is non-negative if and only if every
   * debit the run makes is covered.
   */
  lemma {:induction false} NonNegativeIffCovered(l: Ledger, run: seq<Event>)
    requires NonNegative(l)
    ensures (forall n :: 0 <= n <= |run| ==> NonNegative(After(l, run[..n]))) <==> AllCovered(l, run)
  {
    if forall n :: 0 <= n <= |run| ==> NonNegative(After(l, run[..n])) {
      forall i | 0 <= i < |run| ensures Covered(After(l, run[..i]), run[i]) {
        NextState(l, run, i);
        StepNonNegative(After(l, run[..i]), run[i]);
        assert NonNegative(After(l, run[..i + 1]));
      }
    }
    if AllCovered(l, run) {
      forall n | 0 <= n <= |run| ensures NonNegative(After(l, run[..n])) {
        CoveredPrefix(l, run, n);
      }
    }
  }

  lemma {:induction false} NextState(l: Ledger, run: seq<Event>, i: nat)
    requires i < |run|
    ensures After(l, run[..i + 1]) == Step(After(l, run[..i]), run[i])
  {
    assert run[..i + 1][..i] == run[..i];
  }

  lemma {:induction false} CoveredPrefix(l: Ledger, run: seq<Event>, n: nat)
    requires NonNegative(l) && AllCovered(l, run) && n <= |run|
    ensures NonNegative(After(l, run[..n]))
  {
    if n > 0 {
      CoveredPrefix(l, run, n - 1);
      NextState(l, run, n - 1);
      StepNonNegative(After(l, run[..n - 1]), run[n - 1]);
    }
  }

  /** The guard gives the numeric answer for the debit the step asks for. */
  ghost predicate Guarded(l: Ledger, e: Event)
  {
    var d := DebitMade(l, e);
    d.Some? && d.value.wallet in l.balances && l.balances[d.value.wallet] < d.value.amount ==>
      l.below(l.balances[d.value.wallet], d.value.amount)
  }

  /** A debit that the guard lets through for the right reason is covered. */
  lemma {:induction false} GuardedIsCovered(l: Ledger, e: Event)
    requires Guarded(l, e)
    ensures Covered(l, e)
  {
    if e.Checkout? && DebitMade(l, e).Some? {
      var p := Prepared(l, e.user, e.source).value;
      var order := p.orders[e.source.orderId];
      assert p.balances == l.balances && p.below == l.below by { PreparedWrites(l, e.user, e.source); }
      IncomeNonNegative(p, e.user, order, e.user);
    }
  }

  /**
   * From non-negative opening balances no balance is ever negative in a run in which the guard answers each debit
   * as the numbers do.
   */
  lemma {:induction false} NeverNegative(l: Ledger, run: seq<Event>)
    requires NonNegative(l)
    requires forall i {:trigger run[i]} :: 0 <= i < |run| ==> Guarded(After(l, run[..i]), run[i])
    ensures NonNegative(After(l, run))
  {
    forall i | 0 <= i < |run| ensures Covered(After(l, run[..i]), run[i]) {
      GuardedIsCovered(After(l, run[..i]), run[i]);
    }
    CoveredPrefix(l, run, |run|);
    assert run[..|run|] == run;
  }

  /** No step changes the guard. */
  lemma {:induction false} StepKeepsGuard(l: Ledger, e: Event)
    ensures Step(l, e).below == l.below
  {
    match e {
      case Checkout(user, source, via, reference, providerOk) =>
        if Prepared(l, user, source).Some? {
          PreparedWrites(l, user, source);
        }
      case CreateOrder(user, bookIds, orderId) => CreatedOrderWrites(l, user, bookIds, orderId);
      case _ => OtherOrders(l, e);
    }
  }

  lemma {:induction false} RunKeepsGuard(l: Ledger, run: seq<Event>)
    ensures After(l, run).below == l.below
  {
    if run != [] {
      RunKeepsGuard(l, run[..|run| - 1]);
      StepKeepsGuard(After(l, run[..|run| - 1]), run[|run| - 1]);
    }
  }

  /** A guard that compares numbers keeps every run non-negative. */
  lemma {:induction false} NumericGuardNeverNegative(l: Ledger, run: seq<Event>)
    requires NonNegative(l) && forall b, a :: l.below(b, a) <==> b < a
    ensures NonNegative(After(l, run))
  {
    forall i | 0 <= i < |run| ensures Guarded(After(l, run[..i]), run[i]) {
      RunKeepsGuard(l, run[..i]);
    }
    NeverNegative(l, run);
  }

  ghost predicate OrdersExact(l: Ledger)
  {
    forall o :: o in l.orders ==> Exact(l.orders[o].lines, l.orders[o].total)
  }

  /** Orders are only added, exact ones, or given a status. */
  ghost predicate OrdersStep(orders: map<Id, Order>, after: map<Id, Order>)
  {
    && (forall o :: o in orders ==> o in after && after[o] == orders[o].(status := after[o].status))
    && (forall o :: o in after && o !in orders ==> Exact(after[o].lines, after[o].total))
  }

  lemma {:induction false} StepOrders(l: Ledger, e: Event)
    ensures OrdersStep(l.orders, Step(l, e).orders)
  {
    match e {
      case CreateOrder(user, bookIds, orderId) =>
        CreatedOrderWrites(l, user, bookIds, orderId);
      case Checkout(user, source, via, reference, providerOk) =>
        CheckoutOrders(l, user, source, via, reference, providerOk);
      case _ => OtherOrders(l, e);
    }
  }

  lemma {:induction false} OtherOrders(l: Ledger, e: Event)
    requires !e.CreateOrder? && !e.Checkout?
    ensures Step(l, e).orders == l.orders && Step(l, e).below == l.below
  {
    if e.InitiateWithdrawal? {
      WithdrawalKeepsOrders(l, e.user, e.via, e.amount, e.reference, e.payout);
    }
  }

  lemma {:induction false} WithdrawalKeepsOrders(l: Ledger, user: Id, via: PaymentMethod, amount: real, reference: Id,
                                                 payout: Option<string>)
    ensures InitiatedWithdrawal(l, user, via, amount, reference, payout).orders == l.orders
    ensures InitiatedWithdrawal(l, user, via, amount, reference, payout).below == l.below
  {
  }

  lemma {:induction false} CheckoutOrders(l: Ledger, user: Id, source: Source, via: PaymentMethod, reference: Id,
                                          providerOk: bool)
    ensures OrdersStep(l.orders, CheckedOut(l, user, source, via, reference, providerOk).orders)
  {
    var p := Prepared(l, user, source);
    if p.Some? {
      if source.NewOrder? {
        CreatedOrderWrites(l, user, source.bookIds, source.orderId);
      }
      assert OrdersStep(l.orders, p.value.orders);
      assert OrdersStep(l.orders, Paid(p.value, user, source.orderId).orders);
    }
  }

  lemma {:induction false} OrdersStepExact(l: Ledger, after: Ledger)
    requires OrdersExact(l) && OrdersStep(l.orders, after.orders)
    ensures OrdersExact(after)
  {
    forall o | o in after.orders ensures Exact(after.orders[o].lines, after.orders[o].total) {
      if o in l.orders {
        assert Exact(l.orders[o].lines, l.orders[o].total);
      }
    }
  }

  /**
   * In every state between calls, also after a creation that threw, each order's total is the sum of its line
   * prices; and an order once made keeps its lines and total whatever happens to the prices of its books.
   */
  lemma {:induction false} OrdersOfRun(l: Ledger, run: seq<Event>)
    requires OrdersExact(l)
    ensures OrdersExact(After(l, run))
    ensures forall o :: o in l.orders ==>
              && o in After(l, run).orders
              && After(l, run).orders[o] == l.orders[o].(status := After(l, run).orders[o].status)
  {
    if run != [] {
      var before := After(l, run[..|run| - 1]);
      OrdersOfRun(l, run[..|run| - 1]);
      StepOrders(before, run[|run| - 1]);
      OrdersStepExact(before, Step(before, run[|run| - 1]));
    }
  }

  /** How each kind of row looks, and that the index over hashes agrees with the rows. */
  ghost predicate WellFormed(l: Ledger)
  {
    && (forall h :: h in l.byHash ==> l.byHash[h] in l.transactions && l.transactions[l.byHash[h]].hash == Some(h))
    && (forall r :: r in l.transactions && l.transactions[r].hash.Some? ==>
          l.transactions[r].hash.value in l.byHash && l.byHash[l.transactions[r].hash.value] == r)
    && (forall r :: r in l.transactions ==> RowShape(l.transactions[r]))
  }

  predicate RowShape(row: Transaction)
  {
    match row.kind
    case DEPOSIT => row.sender.None? && row.recipient.Some? && row.via != WALLET
    case WITHDRAWAL =>
      && row.sender.Some? && row.recipient == row.sender && row.via != WALLET
      && (row.hash.Some? ==> row.status == SUCCESS) && (row.via == CRYPTO ==> row.status != PENDING)
    case ORDER =>
      row.sender.None? && row.recipient.None? && row.hash.None? && (row.via == WALLET ==> row.status == SUCCESS)
  }

  lemma {:induction false} StepWellFormed(l: Ledger, e: Event)
    requires WellFormed(l)
    ensures WellFormed(Step(l, e))
  {
    match e {
      case Checkout(user, source, via, reference, providerOk) =>
        CheckoutWellFormed(l, user, source, via, reference, providerOk);
      case CreateOrder(user, bookIds, orderId) =>
        CreatedOrderWrites(l, user, bookIds, orderId);
      case InitiateWithdrawal(user, via, amount, reference, payout) =>
        WithdrawalWellFormed(l, user, via, amount, reference, payout);
      case InitiateDeposit(user, via, amount, reference, hash) =>
        DepositWellFormed(l, user, via, amount, reference, hash);
      case OpenWallet(_, _) =>
      case PutBook(_, _) =>
      case RecordResponse(_, _) =>
      case VerifyCrypto(hash, books) =>
        if VerifiedCredits(l, hash, books) {
          MarkedWellFormed(l, l.byHash[hash], SUCCESS);
        }
      case ChargeSuccess(reference) =>
        if ChargeCredits(l, reference) {
          MarkedWellFormed(l, reference, SUCCESS);
        }
      case ChargeFailure(reference) =>
        if Pending(l, reference) {
          MarkedWellFormed(l, reference, FAILED);
        }
      case TransferSuccess(reference) =>
        if TransferDebits(l, reference) {
          MarkedWellFormed(l, reference, SUCCESS);
        }
      case TransferFailure(reference) =>
        if TransferRefunds(l, reference) {
          MarkedWellFormed(l, reference, FAILED);
        }
    }
  }

  lemma {:induction false} MarkedWellFormed(l: Ledger, reference: Id, status: TransactionStatus)
    requires WellFormed(l) && Pending(l, reference) && status != PENDING
    ensures WellFormed(Marked(l, reference, status))
  {
  }

  lemma {:induction false} DepositWellFormed(l: Ledger, user: Id, via: PaymentMethod, amount: real, reference: Id,
                                             hash: Option<string>)
    requires WellFormed(l)
    ensures WellFormed(InitiatedDeposit(l, user, via, amount, reference, hash))
  {
  }

  lemma {:induction false} AddedWellFormed(l: Ledger, reference: Id, row: Transaction)
    requires WellFormed(l) && Recordable(l, reference, row) && RowShape(row)
    ensures WellFormed(Recorded(l, reference, row))
  {
  }

  lemma {:induction false} WithdrawalWellFormed(l: Ledger, user: Id, via: PaymentMethod, amount: real, reference: Id,
                                                payout: Option<string>)
    requires WellFormed(l)
    ensures WellFormed(InitiatedWithdrawal(l, user, via, amount, reference, payout))
  {
    if WithdrawalAccepted(l, user, via, amount, reference) {
      var cause := PayoutCause(l, l.walletOf[user], via, amount, payout);
      if cause.Some? {
        var hash := if cause.value == PaidOut then Some(payout.value) else None;
        var row := WithdrawalRow(via, amount, l.walletOf[user]).(status := Outcome(cause.value), hash := hash);
        WithdrawalFinalRow(l, user, via, amount, reference, payout, cause.value);
        AddedWellFormed(l, reference, row);
        assert InitiatedWithdrawal(l, user, via, amount, reference, payout).byHash
               == Recorded(l, reference, row).byHash;
      } else {
        AddedWellFormed(l, reference, WithdrawalRow(via, amount, l.walletOf[user]));
      }
    }
  }

  lemma {:induction false} CheckoutWellFormed(l: Ledger, user: Id, source: Source, via: PaymentMethod, reference: Id,
                                              providerOk: bool)
    requires WellFormed(l)
    ensures WellFormed(CheckedOut(l, user, source, via, reference, providerOk))
  {
    if (via == WALLET && WalletPays(l, user, source, reference)) || ExternalOpens(l, user, source, via, reference) {
      var row := CheckoutAddsRow(l, user, source, via, reference, providerOk);
      AddedRowWellFormed(l, CheckedOut(l, user, source, via, reference, providerOk), reference, row);
    }
  }

  lemma {:induction false} AddedRowWellFormed(l: Ledger, after: Ledger, reference: Id, row: Transaction)
    requires WellFormed(l) && reference !in l.transactions && RowShape(row) && row.hash.None?
    requires after.transactions == l.transactions[reference := row] && after.byHash == l.byHash
    ensures WellFormed(after)
  {
  }

  /** A checkout that goes through adds its row and leaves the index of hashes alone. */
  lemma {:induction false} CheckoutAddsRow(l: Ledger, user: Id, source: Source, via: PaymentMethod, reference: Id,
                                           providerOk: bool) returns (row: Transaction)
    requires (via == WALLET && WalletPays(l, user, source, reference)) || ExternalOpens(l, user, source, via, reference)
    ensures reference !in l.transactions && RowShape(row) && row.hash.None?
    ensures CheckedOut(l, user, source, via, reference, providerOk).transactions == l.transactions[reference := row]
    ensures CheckedOut(l, user, source, via, reference, providerOk).byHash == l.byHash
  {
    PreparedWrites(l, user, source);
    row := CheckedOut(l, user, source, via, reference, providerOk).transactions[reference];
  }

  lemma {:induction false} RunWellFormed(l: Ledger, run: seq<Event>)
    requires WellFormed(l)
    ensures WellFormed(After(l, run))
  {
    if run != [] {
      RunWellFormed(l, run[..|run| - 1]);
      StepWellFormed(After(l, run[..|run| - 1]), run[|run| - 1]);
    }
  }

  /**
   * Which causes a row can have, by its type and method. A successful charge is not checked against the type,
   * so it can also credit a pending Paystack withdrawal; an order row has no wallet and cannot be charged.
   */
  predicate CauseFits(row: Transaction, cause: Cause)
  {
    match cause
    case ChainVerified(_) => row.kind == DEPOSIT
    case ChargePaid => row.kind == DEPOSIT || (row.kind == WITHDRAWAL && row.via == PAYSTACK)
    case PaidOut | PayoutClashed => row.kind == WITHDRAWAL && row.via == CRYPTO
    case TransferDone | TransferReturned => row.kind == WITHDRAWAL && row.via == PAYSTACK
    case PayoutRefused => row.kind == WITHDRAWAL
    case WalletPaid(_, order) => row.kind == ORDER && row.via == WALLET && row.amount == order.total as real
    case CheckoutRefused => row.kind == ORDER && row.via == PAYSTACK
    case ChargeDeclined => row.via != WALLET
  }

  lemma {:induction false} EntryFitsRow(l: Ledger, e: Event)
    requires WellFormed(l) && JournalEntry(l, e).Some?
    ensures CauseFits(JournalEntry(l, e).value.row, JournalEntry(l, e).value.cause)
  {
    var entry := JournalEntry(l, e).value;
    if entry.reference in l.transactions {
      assert RowShape(l.transactions[entry.reference]);
    }
  }

  lemma {:induction false} CausesFitRows(l: Ledger, run: seq<Event>)
    requires WellFormed(l)
    ensures forall entry :: entry in Journal(l, run) ==> CauseFits(entry.row, entry.cause)
  {
    if run != [] {
      var before := run[..|run| - 1];
      CausesFitRows(l, before);
      RunWellFormed(l, before);
      if JournalEntry(After(l, before), run[|run| - 1]).Some? {
        EntryFitsRow(After(l, before), run[|run| - 1]);
      }
    }
  }
}
