/**
 * The queue at work on Paystack charges. Every database command of a charge handler is its own step, other
 * requests write to the ledger in between, and a crash loses the handler but keeps the job, which is then
 * delivered again.
 */
module Delivery {
  import opened Common
  import opened Database
  import Deposits
  import Orders
  import Withdrawals
  import L = LedgerRuns
  import Q = WebhookQueue

  /** What a queued job asks for; transfers, crypto payloads and unknown events are `Elsewhere`. */
  datatype Webhook = ChargeOk(reference: Id) | ChargeBad(reference: Id) | Elsewhere

  type Parse = Q.Job -> Webhook

  /** How far the handler of the running job has come. */
  datatype Progress =
    | Begun
    | Unrecorded                    // no earlier response was found
    | Captured(row: Transaction)    // the row was read, and was pending

  datatype System = System(
    queue: Q.Queue,
    ledger: Ledger,
    progress: map<nat, Progress>,   // by pass
    journal: seq<L.Entry>)          // history: every transition out of PENDING, and the row it was made from

  datatype Event =
    | Queue(step: Q.Event)
    | Request(request: L.Event)     // another request, or another job's handler
    | ReadResponse(pass: nat)
    | ReadRow(pass: nat)
    | Commit(pass: nat, accepted: bool)
    | Break(pass: nat)              // a command of the handler throws
    | Finish(pass: nat, ok: bool)   // a job that is not a charge ends

  predicate Working(s: System, pass: nat)
  {
    pass in s.queue.passes && s.queue.passes[pass].stage.Running?
    && s.queue.passes[pass].stage.next < |s.queue.passes[pass].stage.jobs|
  }

  function Asked(s: System, parse: Parse, pass: nat): Webhook
    requires Working(s, pass)
  {
    parse(s.queue.passes[pass].stage.jobs[s.queue.passes[pass].stage.next])
  }

  ghost predicate Enabled(s: System, parse: Parse, e: Event)
  {
    match e
    case Queue(step) => !step.JobEnd? && Q.Enabled(s.queue, step)
    case Request(request) => !request.ChargeSuccess? && !request.ChargeFailure?
    case ReadResponse(pass) => Handling(s, pass, Begun) && Asked(s, parse, pass).ChargeOk?
    case ReadRow(pass) =>
      || (Handling(s, pass, Unrecorded) && Asked(s, parse, pass).ChargeOk?)
      || (Handling(s, pass, Begun) && Asked(s, parse, pass).ChargeBad?)
    case Commit(pass, accepted) =>
      && Working(s, pass) && Q.Enabled(s.queue, Q.JobEnd(pass, accepted))
      && pass in s.progress && s.progress[pass].Captured?
      && !Asked(s, parse, pass).Elsewhere?
      && Asked(s, parse, pass).reference in s.ledger.transactions
    case Break(pass) => Working(s, pass) && Q.Enabled(s.queue, Q.JobEnd(pass, false))
    case Finish(pass, ok) =>
      Working(s, pass) && Q.Enabled(s.queue, Q.JobEnd(pass, ok)) && Asked(s, parse, pass).Elsewhere?
  }

  ghost predicate Handling(s: System, pass: nat, at: Progress)
  {
    Working(s, pass) && pass in s.progress && s.progress[pass] == at && Q.Enabled(s.queue, Q.JobEnd(pass, true))
  }

  /** The handler is over and the queue goes on to remove the job. */
  ghost function Over(s: System, pass: nat, ok: bool): System
    requires Q.Enabled(s.queue, Q.JobEnd(pass, ok))
  {
    s.(queue := Q.Next(s.queue, Q.JobEnd(pass, ok)), progress := s.progress - {pass})
  }

  function Wrote(s: System, ledger: Ledger, entry: L.Entry): System
  {
    s.(ledger := ledger, journal := s.journal + [entry])
  }

  /** The database transaction of charge.success, on the row as it was read. */
  ghost function Charged(s: System, reference: Id, row: Transaction): Option<System>
    requires reference in s.ledger.transactions
  {
    if row.recipient.Some? && CanCredit(s.ledger, row.recipient.value, row.amount)
    then Some(Wrote(s, Marked(Credited(s.ledger, row.recipient.value, row.amount), reference, SUCCESS),
                    L.Entry(reference, row, L.ChargePaid)))
    else None
  }

  ghost function Next(s: System, parse: Parse, e: Event): System
    requires Enabled(s, parse, e)
  {
    match e
    case Queue(step) =>
      s.(queue := Q.Next(s.queue, step),
         progress := if step.Crash? then map[]
                     else if step.Fetched? then s.progress[step.pass := Begun]
                     else if step.Removed? then s.progress[step.pass := Begun]
                     else s.progress)
    case Request(request) =>
      var entry := L.JournalEntry(s.ledger, request);
      s.(ledger := L.Step(s.ledger, request), journal := s.journal + if entry.Some? then [entry.value] else [])
    case ReadResponse(pass) =>
      if HasResponse(s.ledger, PAYSTACK, Asked(s, parse, pass).reference) then Over(s, pass, true)
      else s.(progress := s.progress[pass := Unrecorded])
    case ReadRow(pass) =>
      var reference := Asked(s, parse, pass).reference;
      if reference !in s.ledger.transactions then Over(s, pass, false)
      else if s.ledger.transactions[reference].status != PENDING then Over(s, pass, true)
      else s.(progress := s.progress[pass := Captured(s.ledger.transactions[reference])])
    case Commit(pass, accepted) =>
      var reference, row := Asked(s, parse, pass).reference, s.progress[pass].row;
      if !accepted then Over(s, pass, false)
      else if Asked(s, parse, pass).ChargeOk? then
        var charged := Charged(s, reference, row);
        if charged.Some? then Over(charged.value, pass, true) else Over(s, pass, false)
      else Over(Wrote(s, Marked(s.ledger, reference, FAILED), L.Entry(reference, row, L.ChargeDeclined)), pass, true)
    case Break(pass) => Over(s, pass, false)
    case Finish(pass, ok) => Over(s, pass, ok)
  }

  function Opening(clock: nat, ledger: Ledger): System
  {
    System(Q.Fresh(clock), ledger, map[], [])
  }

  ghost function After(s: System, parse: Parse, run: seq<Event>): System
  {
    if run == [] then s else
      var before := After(s, parse, run[..|run| - 1]);
      if Enabled(before, parse, run[|run| - 1]) then Next(before, parse, run[|run| - 1]) else before
  }

  // ---- Invariants ----

  /** A row only the charge handlers settle: without a hash, no verification of a crypto payment finds it. */
  predicate PlainDeposit(row: Transaction)
  {
    row.kind == DEPOSIT && row.via == PAYSTACK && row.hash.None?
  }

  predicate HashesNamed(l: Ledger)
  {
    forall h :: h in l.byHash ==> l.byHash[h] in l.transactions && l.transactions[l.byHash[h]].hash == Some(h)
  }

  /** The row a handler holds is the row in the database, unless it is one that others write. */
  ghost predicate HoldsCurrent(s: System, parse: Parse, pass: nat)
  {
    Working(s, pass) && pass in s.progress && s.progress[pass].Captured? && !Asked(s, parse, pass).Elsewhere? ==>
      var reference := Asked(s, parse, pass).reference;
      && reference in s.ledger.transactions
      && (PlainDeposit(s.ledger.transactions[reference]) ==>
            s.ledger.transactions[reference] == s.progress[pass].row && s.progress[pass].row.status == PENDING)
  }

  /** Each plain deposit left PENDING at most once, and ended as that transition says. */
  ghost predicate SettledOnce(rows: map<Id, Transaction>, journal: seq<L.Entry>)
  {
    && (forall i :: 0 <= i < |journal| ==> journal[i].reference in rows)
    && (forall i :: 0 <= i < |journal| && PlainDeposit(rows[journal[i].reference]) ==>
          L.Leaves(rows, journal[i]))
    && (forall i, j :: 0 <= i < j < |journal| && PlainDeposit(rows[journal[i].reference]) ==>
          journal[i].reference != journal[j].reference)
  }

  ghost predicate Sound(s: System, parse: Parse)
  {
    && Q.Safe(s.queue)
    && HashesNamed(s.ledger)
    && (forall pass :: pass in s.queue.passes ==> HoldsCurrent(s, parse, pass))
    && SettledOnce(s.ledger.transactions, s.journal)
  }

  // ---- What a step writes ----

  /** Steps that are neither a request nor the write of a handler leave the ledger alone. */
  lemma {:induction false} OnlyCommitsWrite(s: System, parse: Parse, e: Event)
    requires Enabled(s, parse, e) && !e.Request? && !e.Commit?
    ensures Next(s, parse, e).ledger == s.ledger && Next(s, parse, e).journal == s.journal
  {
  }

  /** One entry about the row, and the status of that entry. */
  ghost predicate Writes(s: System, next: System, entry: L.Entry)
  {
    && next.journal == s.journal + [entry]
    && entry.reference in s.ledger.transactions
    && next.ledger.transactions
       == s.ledger.transactions[entry.reference :=
            s.ledger.transactions[entry.reference].(status := L.Outcome(entry.cause))]
  }

  lemma {:induction false} ChargedWrites(s: System, reference: Id, row: Transaction)
    requires reference in s.ledger.transactions && Charged(s, reference, row).Some?
    ensures Writes(s, Charged(s, reference, row).value, L.Entry(reference, row, L.ChargePaid))
  {
  }

  lemma {:induction false} DeclinedWrites(s: System, reference: Id, row: Transaction)
    requires reference in s.ledger.transactions
    ensures var entry := L.Entry(reference, row, L.ChargeDeclined);
      Writes(s, Wrote(s, Marked(s.ledger, reference, FAILED), entry), entry)
  {
  }

  lemma {:induction false} OverWritesNothing(s: System, pass: nat, ok: bool)
    requires Q.Enabled(s.queue, Q.JobEnd(pass, ok))
    ensures Over(s, pass, ok).ledger == s.ledger && Over(s, pass, ok).journal == s.journal
  {
  }

  /** The write of a handler: nothing, or one entry about the row it has read. */
  lemma {:induction false} CommitWrites(s: System, parse: Parse, pass: nat, accepted: bool)
    requires Enabled(s, parse, Commit(pass, accepted))
    ensures var next, asked := Next(s, parse, Commit(pass, accepted)), Asked(s, parse, pass);
      var cause := if asked.ChargeOk? then L.ChargePaid else L.ChargeDeclined;
      || (next.ledger == s.ledger && next.journal == s.journal)
      || Writes(s, next, L.Entry(asked.reference, s.progress[pass].row, cause))
  {
    var reference, row := Asked(s, parse, pass).reference, s.progress[pass].row;
    OverWritesNothing(s, pass, false);
    if accepted {
      var declined := Wrote(s, Marked(s.ledger, reference, FAILED), L.Entry(reference, row, L.ChargeDeclined));
      DeclinedWrites(s, reference, row);
      OverWritesNothing(declined, pass, true);
      var charged := Charged(s, reference, row);
      if charged.Some? {
        ChargedWrites(s, reference, row);
        OverWritesNothing(charged.value, pass, true);
      }
    }
  }

  // ---- A handler without interruption ----

  /** The commands of a charge.success handler; those a shorter run does not get to are not possible and do nothing. */
  function ChargeCommands(pass: nat): seq<Event>
  {
    [ReadResponse(pass), ReadRow(pass), Commit(pass, true)]
  }

  function DeclineCommands(pass: nat): seq<Event>
  {
    [ReadRow(pass), Commit(pass, true)]
  }

  ghost function Then(s: System, parse: Parse, e: Event): System
  {
    if Enabled(s, parse, e) then Next(s, parse, e) else s
  }

  lemma {:induction false} AfterTwo(s: System, parse: Parse, a: Event, b: Event)
    ensures After(s, parse, [a, b]) == Then(Then(s, parse, a), parse, b)
  {
    assert [a, b][..1] == [a] && [a][..0] == [];
    assert After(s, parse, [a]) == Then(s, parse, a);
  }

  lemma {:induction false} AfterThree(s: System, parse: Parse, a: Event, b: Event, c: Event)
    ensures After(s, parse, [a, b, c]) == Then(Then(Then(s, parse, a), parse, b), parse, c)
  {
    assert [a, b, c][..2] == [a, b];
    AfterTwo(s, parse, a, b);
  }

  lemma {:induction false} OverIsOver(s: System, parse: Parse, pass: nat, ok: bool, e: Event)
    requires Working(s, pass) && Q.Enabled(s.queue, Q.JobEnd(pass, ok))
    requires e in {ReadRow(pass), Commit(pass, true)}
    ensures Then(Over(s, pass, ok), parse, e) == Over(s, pass, ok)
  {
  }

  /** Read and not interrupted, a pending row is charged as the service method charges it. */
  lemma {:induction false} RowIsCharged(s: System, parse: Parse, pass: nat, reference: Id)
    requires Handling(s, pass, Unrecorded) && Asked(s, parse, pass) == ChargeOk(reference)
    requires !HasResponse(s.ledger, PAYSTACK, reference)
    ensures Then(Then(s, parse, ReadRow(pass)), parse, Commit(pass, true)).ledger
            == Deposits.ChargeSucceeded(s.ledger, reference)
  {
    if Pending(s.ledger, reference) {
      var row := s.ledger.transactions[reference];
      var read := Next(s, parse, ReadRow(pass));
      assert read == s.(progress := s.progress[pass := Captured(row)]);
      assert Charged(read, reference, row).Some? <==> Deposits.ChargeCredits(s.ledger, reference);
    } else {
      OverIsOver(s, parse, pass, reference in s.ledger.transactions, Commit(pass, true));
    }
  }

  /** So the commands of a charge.success handler, run without interruption, are the service method. */
  lemma {:induction false} ChargeWithoutInterruption(s: System, parse: Parse, pass: nat, reference: Id)
    requires Handling(s, pass, Begun) && Asked(s, parse, pass) == ChargeOk(reference)
    ensures After(s, parse, ChargeCommands(pass)).ledger == Deposits.ChargeSucceeded(s.ledger, reference)
  {
    AfterThree(s, parse, ReadResponse(pass), ReadRow(pass), Commit(pass, true));
    if HasResponse(s.ledger, PAYSTACK, reference) {
      OverIsOver(s, parse, pass, true, ReadRow(pass));
      OverIsOver(s, parse, pass, true, Commit(pass, true));
    } else {
      RowIsCharged(s.(progress := s.progress[pass := Unrecorded]), parse, pass, reference);
    }
  }

  /** And those of a charge.failed handler. */
  lemma {:induction false} DeclineWithoutInterruption(s: System, parse: Parse, pass: nat, reference: Id)
    requires Handling(s, pass, Begun) && Asked(s, parse, pass) == ChargeBad(reference)
    ensures After(s, parse, DeclineCommands(pass)).ledger == Deposits.ChargeFailed(s.ledger, reference)
  {
    AfterTwo(s, parse, ReadRow(pass), Commit(pass, true));
    if !Pending(s.ledger, reference) {
      OverIsOver(s, parse, pass, reference in s.ledger.transactions, Commit(pass, true));
    }
  }

  // ---- Requests leave plain deposits alone ----

  lemma {:induction false} RequestLeavesPlainDeposits(l: Ledger, e: L.Event, reference: Id)
    requires HashesNamed(l) && !e.ChargeSuccess? && !e.ChargeFailure?
    requires reference in l.transactions && PlainDeposit(l.transactions[reference])
    ensures reference in L.Step(l, e).transactions && L.Step(l, e).transactions[reference] == l.transactions[reference]
    ensures L.JournalEntry(l, e).Some? ==> L.JournalEntry(l, e).value.reference != reference
  {
    if e.Checkout? && L.JournalEntry(l, e).Some? {
      CheckoutEntryIsNew(l, e);
    }
    L.StepRows(l, e);
  }

  lemma {:induction false} CheckoutEntryIsNew(l: Ledger, e: L.Event)
    requires e.Checkout? && L.JournalEntry(l, e).Some?
    ensures L.JournalEntry(l, e).value.reference !in l.transactions
  {
    Orders.PreparedWrites(l, e.user, e.source);
  }

  /** The index of hashes a request leaves names the rows it leaves. */
  lemma {:induction false} RequestHashesNamed(l: Ledger, e: L.Event)
    requires HashesNamed(l)
    ensures HashesNamed(L.Step(l, e))
  {
    L.StepRows(l, e);
    match e {
      case InitiateDeposit(user, via, amount, reference, hash) =>
      case InitiateWithdrawal(user, via, amount, reference, payout) =>
        WithdrawalHashesNamed(l, user, via, amount, reference, payout);
      case Checkout(user, source, via, reference, providerOk) =>
        CheckoutKeepsTheRest(l, user, source, via, reference, providerOk);
      case CreateOrder(user, bookIds, orderId) =>
        Orders.CreatedOrderWrites(l, user, bookIds, orderId);
      case OpenWallet(_, _) =>
      case PutBook(_, _) =>
      case RecordResponse(_, _) =>
      case VerifyCrypto(_, _) =>
      case ChargeSuccess(_) =>
      case ChargeFailure(_) =>
      case TransferSuccess(_) =>
      case TransferFailure(_) =>
    }
  }

  lemma {:induction false} WithdrawalHashesNamed(l: Ledger, user: Id, via: PaymentMethod, amount: real, reference: Id,
                                                 payout: Option<string>)
    requires HashesNamed(l)
    ensures HashesNamed(Withdrawals.InitiatedWithdrawal(l, user, via, amount, reference, payout))
  {
    if Withdrawals.WithdrawalAccepted(l, user, via, amount, reference) {
      var cause := L.PayoutCause(l, l.walletOf[user], via, amount, payout);
      if cause.Some? {
        L.WithdrawalFinalRow(l, user, via, amount, reference, payout, cause.value);
      }
    }
  }

  lemma {:induction false} CheckoutKeepsTheRest(l: Ledger, user: Id, source: Orders.Source, via: PaymentMethod,
                                                reference: Id,
                                               providerOk: bool)
    ensures Orders.CheckedOut(l, user, source, via, reference, providerOk).byHash == l.byHash
    ensures Orders.CheckedOut(l, user, source, via, reference, providerOk).responses == l.responses
  {
    if Orders.Prepared(l, user, source).Some? {
      Orders.PreparedWrites(l, user, source);
    }
  }

  // ---- Steps of the composed system ----

  lemma {:induction false} QueueSound(s: System, parse: Parse, step: Q.Event)
    requires Sound(s, parse) && Enabled(s, parse, Queue(step))
    ensures Sound(Next(s, parse, Queue(step)), parse)
  {
    Q.StepSafe(s.queue, step);
    var next := Next(s, parse, Queue(step));
    forall pass | pass in next.queue.passes ensures HoldsCurrent(next, parse, pass) {
      if pass in s.queue.passes {
        assert HoldsCurrent(s, parse, pass);
      }
    }
  }

  lemma {:induction false} OverSound(s: System, parse: Parse, pass: nat, ok: bool)
    requires Q.Safe(s.queue) && HashesNamed(s.ledger) && SettledOnce(s.ledger.transactions, s.journal)
    requires Q.Enabled(s.queue, Q.JobEnd(pass, ok))
    ensures Sound(Over(s, pass, ok), parse)
  {
    Q.StepSafe(s.queue, Q.JobEnd(pass, ok));
  }

  /** A transition made elsewhere is never one of a plain deposit. */
  lemma {:induction false} RequestEntryIsNotPlain(l: Ledger, e: L.Event)
    requires HashesNamed(l) && !e.ChargeSuccess? && !e.ChargeFailure?
    requires L.JournalEntry(l, e).Some?
    ensures var reference := L.JournalEntry(l, e).value.reference;
      reference in L.Step(l, e).transactions && !PlainDeposit(L.Step(l, e).transactions[reference])
  {
    L.StepRows(l, e);
    var entry := L.JournalEntry(l, e).value;
    assert L.Leaves(L.Step(l, e).transactions, entry);
    if e.VerifyCrypto? {
      assert entry.row.hash.Some?;
    } else if e.Checkout? {
      assert entry.row.kind == ORDER;
    } else {
      assert entry.row.kind == WITHDRAWAL;
    }
  }

  lemma {:induction false} RequestSettledOnce(l: Ledger, e: L.Event, journal: seq<L.Entry>)
    requires HashesNamed(l) && !e.ChargeSuccess? && !e.ChargeFailure? && SettledOnce(l.transactions, journal)
    ensures var entry := L.JournalEntry(l, e);
      SettledOnce(L.Step(l, e).transactions, journal + if entry.Some? then [entry.value] else [])
  {
    RequestKeepsSettledOnce(l, e, journal);
    if L.JournalEntry(l, e).Some? {
      RequestEntryIsNotPlain(l, e);
    } else {
      assert journal + [] == journal;
    }
  }

  lemma {:induction false} RequestKeepsSettledOnce(l: Ledger, e: L.Event, journal: seq<L.Entry>)
    requires HashesNamed(l) && !e.ChargeSuccess? && !e.ChargeFailure? && SettledOnce(l.transactions, journal)
    ensures SettledOnce(L.Step(l, e).transactions, journal)
  {
    var rows, after := l.transactions, L.Step(l, e).transactions;
    L.StepRows(l, e);
    forall i | 0 <= i < |journal| && PlainDeposit(after[journal[i].reference])
      ensures PlainDeposit(rows[journal[i].reference]) && after[journal[i].reference] == rows[journal[i].reference]
    {
      RequestLeavesPlainDeposits(l, e, journal[i].reference);
    }
  }

  lemma {:induction false} RequestSound(s: System, parse: Parse, request: L.Event)
    requires Sound(s, parse) && Enabled(s, parse, Request(request))
    ensures Sound(Next(s, parse, Request(request)), parse)
  {
    RequestHashesNamed(s.ledger, request);
    RequestSettledOnce(s.ledger, request, s.journal);
    var next := Next(s, parse, Request(request));
    L.StepRows(s.ledger, request);
    forall pass | pass in next.queue.passes ensures HoldsCurrent(next, parse, pass) {
      assert HoldsCurrent(s, parse, pass);
      if Working(s, pass) && pass in s.progress && s.progress[pass].Captured? && !Asked(s, parse, pass).Elsewhere? {
        var reference := Asked(s, parse, pass).reference;
        if PlainDeposit(next.ledger.transactions[reference]) {
          RequestLeavesPlainDeposits(s.ledger, request, reference);
        }
      }
    }
  }

  /** Writing the outcome of a charge to the row it was read from. */
  lemma {:induction false} WroteSettledOnce(rows: map<Id, Transaction>, journal: seq<L.Entry>, entry: L.Entry)
    requires SettledOnce(rows, journal) && entry.reference in rows
    requires PlainDeposit(rows[entry.reference]) ==> rows[entry.reference] == entry.row && entry.row.status == PENDING
    ensures SettledOnce(rows[entry.reference := rows[entry.reference].(status := L.Outcome(entry.cause))],
        journal + [entry])
  {
    var after := rows[entry.reference := rows[entry.reference].(status := L.Outcome(entry.cause))];
    forall i | 0 <= i < |journal| && PlainDeposit(after[journal[i].reference])
      ensures L.Leaves(after, journal[i]) && journal[i].reference != entry.reference
    {
      assert L.Leaves(rows, journal[i]);
    }
  }

  lemma {:induction false} CommitSound(s: System, parse: Parse, pass: nat, accepted: bool)
    requires Sound(s, parse) && Enabled(s, parse, Commit(pass, accepted))
    ensures Sound(Next(s, parse, Commit(pass, accepted)), parse)
  {
    var webhook, row := Asked(s, parse, pass), s.progress[pass].row;
    assert HoldsCurrent(s, parse, pass);
    if !accepted || (webhook.ChargeOk? && Charged(s, webhook.reference, row).None?) {
      OverSound(s, parse, pass, false);
    } else if webhook.ChargeOk? {
      WroteSettledOnce(s.ledger.transactions, s.journal, L.Entry(webhook.reference, row, L.ChargePaid));
      OverSound(Charged(s, webhook.reference, row).value, parse, pass, true);
    } else {
      var entry := L.Entry(webhook.reference, row, L.ChargeDeclined);
      WroteSettledOnce(s.ledger.transactions, s.journal, entry);
      OverSound(Wrote(s, Marked(s.ledger, webhook.reference, FAILED), entry), parse, pass, true);
    }
  }

  lemma {:induction false} ReadSound(s: System, parse: Parse, e: Event)
    requires Sound(s, parse) && Enabled(s, parse, e) && (e.ReadResponse? || e.ReadRow?)
    ensures Sound(Next(s, parse, e), parse)
  {
    var next := Next(s, parse, e);
    if next.queue == s.queue {
      forall pass | pass in next.queue.passes ensures HoldsCurrent(next, parse, pass) {
        assert HoldsCurrent(s, parse, pass);
      }
    } else {
      OverSound(s, parse, e.pass, true);
      OverSound(s, parse, e.pass, false);
    }
  }

  lemma {:induction false} StepSound(s: System, parse: Parse, e: Event)
    requires Sound(s, parse) && Enabled(s, parse, e)
    ensures Sound(Next(s, parse, e), parse)
  {
    match e {
      case Queue(step) => QueueSound(s, parse, step);
      case Request(request) => RequestSound(s, parse, request);
      case ReadResponse(pass) => ReadSound(s, parse, e);
      case ReadRow(pass) => ReadSound(s, parse, e);
      case Commit(pass, accepted) => CommitSound(s, parse, pass, accepted);
      case Break(pass) => OverSound(s, parse, pass, false);
      case Finish(pass, ok) => OverSound(s, parse, pass, ok);
    }
  }

  lemma {:induction false} RunSound(s: System, parse: Parse, run: seq<Event>)
    requires Sound(s, parse)
    ensures Sound(After(s, parse, run), parse)
  {
    if run != [] {
      RunSound(s, parse, run[..|run| - 1]);
      var before := After(s, parse, run[..|run| - 1]);
      if Enabled(before, parse, run[|run| - 1]) {
        StepSound(before, parse, run[|run| - 1]);
      }
    }
  }

  // ---- At most one credit ----

  /**
   * Whatever jobs are queued, in every interleaving, with redelivery after crashes: a Paystack deposit recorded
   * without a hash leaves PENDING at most once, by being paid or by being declined and never both, and its row says
   * which.
   */
  lemma {:induction false} PlainDepositSettlesOnce(clock: nat, ledger: Ledger, parse: Parse, run: seq<Event>,
                                                   reference: Id, i: nat, j: nat)
    requires HashesNamed(ledger)
    requires var s := After(Opening(clock, ledger), parse, run);
      && reference in s.ledger.transactions && PlainDeposit(s.ledger.transactions[reference])
      && i < |s.journal| && j < |s.journal| && s.journal[i].reference == reference
      && s.journal[j].reference == reference
    ensures var s := After(Opening(clock, ledger), parse, run);
      i == j && s.ledger.transactions[reference].status == L.Outcome(s.journal[i].cause)
  {
    RunSound(Opening(clock, ledger), parse, run);
  }

  /** What every step does to the balances is what it adds to the journal. */
  lemma {:induction false} StepPosts(s: System, parse: Parse, e: Event, wallet: Id)
    requires Enabled(s, parse, e)
    ensures var next := Next(s, parse, e);
      L.Balance(next.ledger, wallet) - L.TotalPosted(next.journal, wallet)
        == L.Balance(s.ledger, wallet) - L.TotalPosted(s.journal, wallet)
  {
    var next := Next(s, parse, e);
    if e.Request? {
      RequestPosts(s, parse, e.request, wallet);
    } else if e.Commit? && next.journal != s.journal {
      CommitPosts(s, parse, e.pass, wallet);
      L.TotalPostedAppend(s.journal, next.journal[|s.journal|], wallet);
    }
  }

  lemma {:induction false} RequestPosts(s: System, parse: Parse, request: L.Event, wallet: Id)
    requires Enabled(s, parse, Request(request))
    ensures var next := Next(s, parse, Request(request));
      L.Balance(next.ledger, wallet) - L.TotalPosted(next.journal, wallet)
        == L.Balance(s.ledger, wallet) - L.TotalPosted(s.journal, wallet)
  {
    L.StepPosts(s.ledger, request, wallet);
    var entry := L.JournalEntry(s.ledger, request);
    if entry.Some? {
      L.TotalPostedAppend(s.journal, entry.value, wallet);
    } else {
      assert Next(s, parse, Request(request)).journal == s.journal;
    }
  }

  lemma {:induction false} CommitPosts(s: System, parse: Parse, pass: nat, wallet: Id)
    requires Enabled(s, parse, Commit(pass, true)) && Next(s, parse, Commit(pass, true)).journal != s.journal
    ensures var next := Next(s, parse, Commit(pass, true));
      && |next.journal| == |s.journal| + 1
      && next.journal == s.journal + [next.journal[|s.journal|]]
      && L.Balance(next.ledger, wallet) == L.Balance(s.ledger, wallet) + L.Posted(next.journal[|s.journal|], wallet)
  {
  }

  /** The ledger equation holds at the granularity of single commands too. */
  lemma {:induction false} InterleavedLedgerEquation(clock: nat, ledger: Ledger, parse: Parse, run: seq<Event>,
                                                     wallet: Id)
    ensures var s := After(Opening(clock, ledger), parse, run);
      L.Balance(s.ledger, wallet) == L.Balance(ledger, wallet) + L.TotalPosted(s.journal, wallet)
  {
    if run != [] {
      InterleavedLedgerEquation(clock, ledger, parse, run[..|run| - 1], wallet);
      var before := After(Opening(clock, ledger), parse, run[..|run| - 1]);
      if Enabled(before, parse, run[|run| - 1]) {
        StepPosts(before, parse, run[|run| - 1], wallet);
      }
    }
  }

  // ---- Absorption ----

  lemma {:induction false} StepAbsorbs(s: System, parse: Parse, e: Event, reference: Id)
    requires Sound(s, parse) && Enabled(s, parse, e)
    requires L.Settled(s.ledger.transactions, reference) && PlainDeposit(s.ledger.transactions[reference])
    ensures var next := Next(s, parse, e);
      && reference in next.ledger.transactions
      && next.ledger.transactions[reference] == s.ledger.transactions[reference]
      && s.journal <= next.journal
      && (forall i :: |s.journal| <= i < |next.journal| ==> next.journal[i].reference != reference)
  {
    if e.Request? {
      RequestLeavesPlainDeposits(s.ledger, e.request, reference);
    } else if e.Commit? {
      assert HoldsCurrent(s, parse, e.pass);
      CommitWrites(s, parse, e.pass, e.accepted);
    } else {
      OnlyCommitsWrite(s, parse, e);
    }
  }

  /** From any reachable state on, such a deposit that is settled is final: its row makes no further transition. */
  lemma {:induction false} PlainDepositIsFinal(s: System, parse: Parse, run: seq<Event>, reference: Id)
    requires Sound(s, parse)
    requires L.Settled(s.ledger.transactions, reference) && PlainDeposit(s.ledger.transactions[reference])
    ensures var later := After(s, parse, run);
      && reference in later.ledger.transactions
      && later.ledger.transactions[reference] == s.ledger.transactions[reference]
      && s.journal <= later.journal
      && (forall i :: |s.journal| <= i < |later.journal| ==> later.journal[i].reference != reference)
  {
    if run != [] {
      PlainDepositIsFinal(s, parse, run[..|run| - 1], reference);
      RunSound(s, parse, run[..|run| - 1]);
      var before := After(s, parse, run[..|run| - 1]);
      if Enabled(before, parse, run[|run| - 1]) {
        StepAbsorbs(before, parse, run[|run| - 1], reference);
      }
    }
  }

  // ---- Behind the webhook endpoint ----

  /**
   * The endpoint keeps the response of a delivery before it queues the job; only an empty reference goes
   * unrecorded.
   */
  ghost predicate OnRecord(s: System, webhook: Webhook)
  {
    webhook.ChargeOk? && webhook.reference != "" ==> HasResponse(s.ledger, PAYSTACK, webhook.reference)
  }

  ghost predicate FromEndpoint(s: System, parse: Parse, run: seq<Event>)
  {
    run == [] ||
    var before, e := After(s, parse, run[..|run| - 1]), run[|run| - 1];
    && FromEndpoint(s, parse, run[..|run| - 1])
    && (e.Queue? && e.step.AddBegin? ==> OnRecord(before, parse(e.step.job)))
  }

  ghost predicate Announced(s: System, parse: Parse)
  {
    && (forall job :: job in s.queue.adding || job in s.queue.landed ==> OnRecord(s, parse(job)))
    && (forall pass :: (Working(s, pass) && pass in s.progress && Asked(s, parse, pass).ChargeOk?
                        && Asked(s, parse, pass).reference != "") ==> s.progress[pass] == Begun)
    && (forall i :: 0 <= i < |s.journal| ==> s.journal[i].cause == L.ChargePaid ==> s.journal[i].reference == "")
  }

  lemma {:induction false} RequestKeepsResponses(l: Ledger, e: L.Event, response: string)
    requires response in l.responses
    ensures response in L.Step(l, e).responses && L.Step(l, e).responses[response] == l.responses[response]
  {
    match e {
      case Checkout(user, source, via, reference, providerOk) =>
        CheckoutKeepsTheRest(l, user, source, via, reference, providerOk);
      case CreateOrder(user, bookIds, orderId) => Orders.CreatedOrderWrites(l, user, bookIds, orderId);
      case InitiateDeposit(_, _, _, _, _) =>
      case InitiateWithdrawal(_, _, _, _, _) =>
      case OpenWallet(_, _) =>
      case PutBook(_, _) =>
      case RecordResponse(_, _) =>
      case VerifyCrypto(_, _) =>
      case ChargeSuccess(_) =>
      case ChargeFailure(_) =>
      case TransferSuccess(_) =>
      case TransferFailure(_) =>
    }
  }

  lemma {:induction false} RequestAnnounced(s: System, parse: Parse, request: L.Event)
    requires Announced(s, parse) && Enabled(s, parse, Request(request))
    ensures Announced(Next(s, parse, Request(request)), parse)
  {
    var next := Next(s, parse, Request(request));
    forall job | (job in next.queue.adding || job in next.queue.landed)
      && parse(job).ChargeOk? && parse(job).reference != ""
      ensures HasResponse(next.ledger, PAYSTACK, parse(job).reference)
    {
      assert OnRecord(s, parse(job));
      RequestKeepsResponses(s.ledger, request, parse(job).reference);
    }
    forall pass | Working(next, pass) && pass in next.progress && Asked(next, parse, pass).ChargeOk?
      && Asked(next, parse, pass).reference != ""
      ensures next.progress[pass] == Begun
    {
      assert Working(s, pass) && Asked(s, parse, pass) == Asked(next, parse, pass);
    }
  }

  lemma {:induction false} StepAnnounced(s: System, parse: Parse, e: Event)
    requires Q.Safe(s.queue) && Announced(s, parse) && Enabled(s, parse, e)
    requires e.Queue? && e.step.AddBegin? ==> OnRecord(s, parse(e.step.job))
    ensures Announced(Next(s, parse, e), parse)
  {
    match e {
      case Queue(step) => QueueAnnounced(s, parse, step);
      case Request(request) => RequestAnnounced(s, parse, request);
      case ReadResponse(pass) => HandlerAnnounced(s, parse, e, pass);
      case ReadRow(pass) => HandlerAnnounced(s, parse, e, pass);
      case Commit(pass, accepted) => HandlerAnnounced(s, parse, e, pass);
      case Break(pass) => HandlerAnnounced(s, parse, e, pass);
      case Finish(pass, ok) => HandlerAnnounced(s, parse, e, pass);
    }
  }

  lemma {:induction false} QueueAnnounced(s: System, parse: Parse, step: Q.Event)
    requires Q.Safe(s.queue) && Announced(s, parse) && Enabled(s, parse, Queue(step))
    requires step.AddBegin? ==> OnRecord(s, parse(step.job))
    ensures Announced(Next(s, parse, Queue(step)), parse)
  {
    var next := Next(s, parse, Queue(step));
    forall pass | Working(next, pass) && pass in next.progress && Asked(next, parse, pass).ChargeOk?
      && Asked(next, parse, pass).reference != ""
      ensures next.progress[pass] == Begun
    {
      if !step.Fetched? && !step.Removed? {
        assert Working(s, pass) && Asked(s, parse, pass) == Asked(next, parse, pass);
      }
    }
    forall job | job in next.queue.adding || job in next.queue.landed ensures OnRecord(next, parse(job)) {
      if step.AddBegin? && job == step.job {
      } else {
        assert job in s.queue.adding || job in s.queue.landed;
      }
    }
  }

  lemma {:induction false} OverAnnounced(s: System, parse: Parse, pass: nat, ok: bool)
    requires Announced(s, parse) && Q.Enabled(s.queue, Q.JobEnd(pass, ok))
    ensures Announced(Over(s, pass, ok), parse)
  {
    var next := Over(s, pass, ok);
    forall other | Working(next, other)
      ensures Working(s, other) && Asked(next, parse, other) == Asked(s, parse, other)
    {
    }
    forall job | job in next.queue.adding || job in next.queue.landed ensures OnRecord(next, parse(job)) {
      assert OnRecord(s, parse(job));
    }
  }

  lemma {:induction false} WroteAnnounced(s: System, parse: Parse, ledger: Ledger, entry: L.Entry)
    requires Announced(s, parse) && ledger.responses == s.ledger.responses
    requires entry.cause == L.ChargePaid ==> entry.reference == ""
    ensures Announced(Wrote(s, ledger, entry), parse)
  {
    var next := Wrote(s, ledger, entry);
    forall pass | Working(next, pass) ensures Working(s, pass) && Asked(next, parse, pass) == Asked(s, parse, pass) {
    }
    forall job | job in next.queue.adding || job in next.queue.landed ensures OnRecord(next, parse(job)) {
      assert OnRecord(s, parse(job));
    }
  }

  lemma {:induction false} ProgressAnnounced(s: System, parse: Parse, pass: nat, progress: Progress)
    requires Announced(s, parse) && Working(s, pass)
    requires Asked(s, parse, pass).ChargeOk? ==> Asked(s, parse, pass).reference == ""
    ensures Announced(s.(progress := s.progress[pass := progress]), parse)
  {
    var next := s.(progress := s.progress[pass := progress]);
    forall other | Working(next, other)
      ensures Working(s, other) && Asked(next, parse, other) == Asked(s, parse, other)
    {
    }
    forall job | job in next.queue.adding || job in next.queue.landed ensures OnRecord(next, parse(job)) {
      assert OnRecord(s, parse(job));
    }
  }

  /** The handler of a recorded charge.success ends at its first read. */
  lemma {:induction false} HandlerAnnounced(s: System, parse: Parse, e: Event, pass: nat)
    requires Q.Safe(s.queue) && Announced(s, parse) && Enabled(s, parse, e) && !e.Queue? && !e.Request?
        && pass == e.pass
    ensures Announced(Next(s, parse, e), parse)
  {
    var asked, next := Asked(s, parse, pass), Next(s, parse, e);
    assert OnRecord(s, asked) by {
      assert Q.PassSafe(s.queue, s.queue.passes[pass]);
      var stage := s.queue.passes[pass].stage;
      assert stage.jobs[stage.next] in stage.jobs;
    }
    if e.Commit? && next.journal != s.journal {
      var entry := next.journal[|s.journal|];
      WroteAnnounced(s, parse, next.ledger, entry);
      OverAnnounced(Wrote(s, next.ledger, entry), parse, pass, true);
    } else if next.queue == s.queue {
      ProgressAnnounced(s, parse, pass, next.progress[pass]);
    } else {
      OverAnnounced(s, parse, pass, true);
      OverAnnounced(s, parse, pass, false);
    }
  }

  /**
   * Behind the endpoint a successful charge never reaches the wallet: the response is recorded before the job is
   * queued, and the handler takes a recorded response for one it has already processed.
   */
  lemma {:induction false} RecordedChargesAreNeverPaid(clock: nat, ledger: Ledger, parse: Parse, run: seq<Event>,
                                                       i: nat)
    requires HashesNamed(ledger) && FromEndpoint(Opening(clock, ledger), parse, run)
    requires i < |After(Opening(clock, ledger), parse, run).journal|
    ensures var entry := After(Opening(clock, ledger), parse, run).journal[i];
      entry.cause == L.ChargePaid ==> entry.reference == ""
  {
    RunAnnounced(Opening(clock, ledger), parse, run);
  }

  lemma {:induction false} RunAnnounced(s: System, parse: Parse, run: seq<Event>)
    requires Sound(s, parse) && Announced(s, parse) && FromEndpoint(s, parse, run)
    ensures Announced(After(s, parse, run), parse)
  {
    if run != [] {
      RunAnnounced(s, parse, run[..|run| - 1]);
      RunSound(s, parse, run[..|run| - 1]);
      var before := After(s, parse, run[..|run| - 1]);
      if Enabled(before, parse, run[|run| - 1]) {
        StepAnnounced(before, parse, run[|run| - 1]);
      }
    }
  }

  // ---- Every row, behind the endpoint ----

  /** Rows with an entry are settled, and of two entries of one reference the later only declines. */
  ghost predicate MovedOnce(rows: map<Id, Transaction>, journal: seq<L.Entry>)
  {
    && (forall i :: 0 <= i < |journal| ==> L.Settled(rows, journal[i].reference))
    && (forall i, j :: 0 <= i < j < |journal| && journal[i].reference == journal[j].reference ==>
          journal[j].reference == "" || journal[j].cause == L.ChargeDeclined)
  }

  lemma {:induction false} RowsMoveOnce(rows: map<Id, Transaction>, after: map<Id, Transaction>,
                                        entry: Option<L.Entry>, journal: seq<L.Entry>)
    requires MovedOnce(rows, journal) && L.RowsStep(rows, after, entry)
    ensures MovedOnce(after, journal + if entry.Some? then [entry.value] else [])
  {
    assert forall i :: 0 <= i < |journal| ==> L.Settled(after, journal[i].reference);
    if entry.Some? {
      assert L.Leaves(after, entry.value);
    } else {
      assert journal + [] == journal;
    }
  }

  lemma {:induction false} RequestMovesOnce(l: Ledger, e: L.Event, journal: seq<L.Entry>)
    requires MovedOnce(l.transactions, journal)
    ensures var entry := L.JournalEntry(l, e);
      MovedOnce(L.Step(l, e).transactions, journal + if entry.Some? then [entry.value] else [])
  {
    L.StepRows(l, e);
    RowsMoveOnce(l.transactions, L.Step(l, e).transactions, L.JournalEntry(l, e), journal);
  }

  lemma {:induction false} WroteMovesOnce(rows: map<Id, Transaction>, journal: seq<L.Entry>, entry: L.Entry)
    requires MovedOnce(rows, journal) && entry.reference in rows
    requires entry.cause == L.ChargeDeclined || (entry.cause == L.ChargePaid && entry.reference == "")
    ensures var row := rows[entry.reference].(status := L.Outcome(entry.cause));
      MovedOnce(rows[entry.reference := row], journal + [entry])
  {
  }

  lemma {:induction false} StepMovesOnce(s: System, parse: Parse, e: Event)
    requires Announced(s, parse) && MovedOnce(s.ledger.transactions, s.journal) && Enabled(s, parse, e)
    ensures var next := Next(s, parse, e); MovedOnce(next.ledger.transactions, next.journal)
  {
    var next := Next(s, parse, e);
    if e.Request? {
      RequestMovesOnce(s.ledger, e.request, s.journal);
    } else if e.Commit? {
      CommitWrites(s, parse, e.pass, e.accepted);
      if next.journal != s.journal {
        WroteMovesOnce(s.ledger.transactions, s.journal, next.journal[|s.journal|]);
      }
    } else {
      OnlyCommitsWrite(s, parse, e);
    }
  }

  lemma {:induction false} RunMovesOnce(s: System, parse: Parse, run: seq<Event>)
    requires Sound(s, parse) && Announced(s, parse) && FromEndpoint(s, parse, run)
    requires MovedOnce(s.ledger.transactions, s.journal)
    ensures var later := After(s, parse, run); MovedOnce(later.ledger.transactions, later.journal)
  {
    if run != [] {
      var head := run[..|run| - 1];
      RunMovesOnce(s, parse, head);
      RunAnnounced(s, parse, head);
      var before := After(s, parse, head);
      if Enabled(before, parse, run[|run| - 1]) {
        StepMovesOnce(before, parse, run[|run| - 1]);
      }
    }
  }

  /**
   * Behind the endpoint, for every deposit and every other row, in every interleaving, with redelivery after crashes:
   * once a row has left PENDING nothing moves money for it again. So a deposit is credited at most once, and never
   * after it was declined.
   */
  lemma {:induction false} CreditedAtMostOnce(clock: nat, ledger: Ledger, parse: Parse, run: seq<Event>,
                                              i: nat, j: nat, wallet: Id)
    requires HashesNamed(ledger) && FromEndpoint(Opening(clock, ledger), parse, run)
    requires i < j < |After(Opening(clock, ledger), parse, run).journal|
    requires var journal := After(Opening(clock, ledger), parse, run).journal;
      journal[i].reference == journal[j].reference && journal[j].reference != ""
    ensures var journal := After(Opening(clock, ledger), parse, run).journal;
      journal[j].cause == L.ChargeDeclined && L.Posted(journal[j], wallet) == 0.0
  {
    RunMovesOnce(Opening(clock, ledger), parse, run);
  }

  // ---- When a settled row is final ----

  /** A charge.failed handler has read the row as pending and will write FAILED. */
  ghost predicate Held(s: System, parse: Parse, reference: Id)
  {
    exists pass :: HeldBy(s, parse, reference, pass)
  }

  ghost predicate HeldBy(s: System, parse: Parse, reference: Id, pass: nat)
  {
    && Working(s, pass) && pass in s.progress && s.progress[pass].Captured?
    && Asked(s, parse, pass) == ChargeBad(reference)
  }

  /** Settled, and nobody is about to change it. */
  ghost predicate Final(s: System, parse: Parse, reference: Id)
  {
    && L.Settled(s.ledger.transactions, reference)
    && (Held(s, parse, reference) ==> s.ledger.transactions[reference].status == FAILED)
  }

  /** Once a row is settled no further handler comes to hold it. */
  lemma {:induction false} NewlyHeld(s: System, parse: Parse, e: Event, reference: Id, pass: nat)
    requires Q.Safe(s.queue) && Enabled(s, parse, e) && L.Settled(s.ledger.transactions, reference)
    requires HeldBy(Next(s, parse, e), parse, reference, pass)
    ensures HeldBy(s, parse, reference, pass)
  {
    match e {
      case Queue(step) => QueueHeld(s, parse, step, reference, pass);
      case Request(request) =>
        var next := Next(s, parse, e);
        assert next.queue == s.queue && next.progress == s.progress;
      case ReadResponse(_) => HandlerHeld(s, parse, e, reference, pass);
      case ReadRow(_) => HandlerHeld(s, parse, e, reference, pass);
      case Commit(_, _) => HandlerHeld(s, parse, e, reference, pass);
      case Break(_) => HandlerHeld(s, parse, e, reference, pass);
      case Finish(_, _) => HandlerHeld(s, parse, e, reference, pass);
    }
  }

  lemma {:induction false} QueueHeld(s: System, parse: Parse, step: Q.Event, reference: Id, pass: nat)
    requires Q.Safe(s.queue) && Enabled(s, parse, Queue(step))
    requires HeldBy(Next(s, parse, Queue(step)), parse, reference, pass)
    ensures HeldBy(s, parse, reference, pass)
  {
    var next := Next(s, parse, Queue(step));
    if !step.Fetched? && !step.Removed? {
      assert Working(s, pass) && Asked(s, parse, pass) == Asked(next, parse, pass);
    }
  }

  lemma {:induction false} HandlerHeld(s: System, parse: Parse, e: Event, reference: Id, pass: nat)
    requires Enabled(s, parse, e) && !e.Queue? && !e.Request? && L.Settled(s.ledger.transactions, reference)
    requires HeldBy(Next(s, parse, e), parse, reference, pass)
    ensures HeldBy(s, parse, reference, pass)
  {
    var next := Next(s, parse, e);
    if e.Commit? {
      OverHeld(s, next, parse, e.pass, reference, pass);
    } else if next.queue == s.queue {
      assert Asked(next, parse, pass) == Asked(s, parse, pass);
    } else {
      OverHeld(s, next, parse, e.pass, reference, pass);
    }
  }

  lemma {:induction false} OverHeld(s: System, next: System, parse: Parse, over: nat, reference: Id, pass: nat)
    requires Q.Enabled(s.queue, Q.JobEnd(over, true)) && next.progress == s.progress - {over}
    requires next.queue == Q.Next(s.queue, Q.JobEnd(over, true)) || next.queue == Q.Next(s.queue, Q.JobEnd(over, false))
    requires HeldBy(next, parse, reference, pass)
    ensures HeldBy(s, parse, reference, pass)
  {
    assert pass != over;
  }

  lemma {:induction false} StepFinal(s: System, parse: Parse, e: Event, reference: Id)
    requires Q.Safe(s.queue) && Announced(s, parse) && Enabled(s, parse, e)
    requires reference != "" && Final(s, parse, reference)
    ensures var next := Next(s, parse, e);
      && Final(next, parse, reference)
      && next.ledger.transactions[reference] == s.ledger.transactions[reference]
  {
    if Held(Next(s, parse, e), parse, reference) {
      var pass :| HeldBy(Next(s, parse, e), parse, reference, pass);
      NewlyHeld(s, parse, e, reference, pass);
    }
    if e.Request? {
      L.StepRows(s.ledger, e.request);
    } else if e.Commit? && Asked(s, parse, e.pass).reference == reference {
      assert Asked(s, parse, e.pass).ChargeBad? ==> HeldBy(s, parse, reference, e.pass);
    }
  }

  lemma {:induction false} RunFinal(s: System, parse: Parse, run: seq<Event>, reference: Id)
    requires Sound(s, parse) && Announced(s, parse) && FromEndpoint(s, parse, run)
    requires reference != "" && Final(s, parse, reference)
    ensures var later := After(s, parse, run);
      && Final(later, parse, reference)
      && later.ledger.transactions[reference] == s.ledger.transactions[reference]
  {
    if run != [] {
      var head := run[..|run| - 1];
      RunFinal(s, parse, head, reference);
      RunSound(s, parse, head);
      RunAnnounced(s, parse, head);
      var before := After(s, parse, head);
      if Enabled(before, parse, run[|run| - 1]) {
        StepFinal(before, parse, run[|run| - 1], reference);
      }
    }
  }

  /** Whatever happens next behind the endpoint, the row is still there as it is. */
  ghost predicate Stays(s: System, parse: Parse, reference: Id)
    requires reference in s.ledger.transactions
  {
    forall run :: FromEndpoint(s, parse, run) ==>
      && reference in After(s, parse, run).ledger.transactions
      && After(s, parse, run).ledger.transactions[reference] == s.ledger.transactions[reference]
  }

  /**
   * Exactly when a settled row is final, in every reachable state: unless it is paid and a charge.failed handler
   * that read it before still has to write.
   */
  lemma {:induction false} SettledRowIsFinalIff(s: System, parse: Parse, reference: Id)
    requires Sound(s, parse) && Announced(s, parse)
    requires reference != "" && L.Settled(s.ledger.transactions, reference)
    ensures Stays(s, parse, reference) <==>
              !(s.ledger.transactions[reference].status == SUCCESS && Held(s, parse, reference))
  {
    if s.ledger.transactions[reference].status == SUCCESS && Held(s, parse, reference) {
      var pass :| HeldBy(s, parse, reference, pass);
      var run := [Commit(pass, true)];
      CommitChanges(s, parse, pass);
      assert run[..0] == [];
      assert FromEndpoint(s, parse, run[..0]) && FromEndpoint(s, parse, run);
      assert After(s, parse, run[..0]) == s;
    } else {
      forall run | FromEndpoint(s, parse, run)
        ensures reference in After(s, parse, run).ledger.transactions
        ensures After(s, parse, run).ledger.transactions[reference] == s.ledger.transactions[reference]
      {
        RunFinal(s, parse, run, reference);
      }
    }
  }

  lemma {:induction false} CommitChanges(s: System, parse: Parse, pass: nat)
    requires Q.Safe(s.queue) && Working(s, pass) && pass in s.progress && s.progress[pass].Captured?
    requires Asked(s, parse, pass).ChargeBad? && Asked(s, parse, pass).reference in s.ledger.transactions
    ensures Enabled(s, parse, Commit(pass, true))
    ensures var reference, next := Asked(s, parse, pass).reference, Next(s, parse, Commit(pass, true));
      reference in next.ledger.transactions && next.ledger.transactions[reference].status == FAILED
  {
    assert Q.PassSafe(s.queue, s.queue.passes[pass]);
  }

  // ---- A paid deposit marked failed ----

  /** The run, at its last step, makes this of the state before it. */
  lemma {:induction false} OneMore(s: System, parse: Parse, run: seq<Event>, longer: seq<Event>, e: Event)
    requires longer == run + [e] && Enabled(After(s, parse, run), parse, e)
    ensures After(s, parse, longer) == Next(After(s, parse, run), parse, e)
  {
    assert longer[..|longer| - 1] == run && longer[|longer| - 1] == e;
  }

  /** A single job, added, due and started. */
  function UpToStart(job: Q.Job): seq<Event>
  {
    [Queue(Q.AddBegin(job)), Queue(Q.AddLand(job)), Queue(Q.Advance(Q.WEBHOOK_DELAY_MS)), Queue(Q.Tick(0)),
     Queue(Q.Fetched(0, [job]))]
  }

  /** The read of its charge.failed handler follows, a verification of the row's hash, and the handler's write. */
  function DeclinedWhilePaid(job: Q.Job, hash: string, books: real): seq<Event>
  {
    UpToStart(job) + [ReadRow(0)] + [Request(L.VerifyCrypto(hash, Some(books)))] + [Commit(0, true)]
  }

  lemma {:induction false} JobStarts(job: Q.Job)
    ensures var q := Q.Fresh(0);
      Q.Enabled(q, Q.AddBegin(job)) && var q1 := Q.Next(q, Q.AddBegin(job));
      Q.Enabled(q1, Q.AddLand(job)) && var q2 := Q.Next(q1, Q.AddLand(job));
      Q.Enabled(q2, Q.Advance(Q.WEBHOOK_DELAY_MS)) && var q3 := Q.Next(q2, Q.Advance(Q.WEBHOOK_DELAY_MS));
      Q.Enabled(q3, Q.Tick(0)) && var q4 := Q.Next(q3, Q.Tick(0));
      Q.Enabled(q4, Q.Fetched(0, [job])) && Q.Next(q4, Q.Fetched(0, [job])) == Started(job)
  {
    assert [job][0] == job;
  }

  function Started(job: Q.Job): Q.Queue
  {
    var due := Q.WEBHOOK_DELAY_MS;
    Q.Queue(due, map[job := due], map[], true, map[0 := Q.Pass(due, Q.Running([job], 0))], map[job := due],
            [Q.Dispatch(job, due, due)], due)
  }

  lemma {:induction false} OneMoreQueued(s: System, parse: Parse, run: seq<Event>, longer: seq<Event>, before: System,
                                         step: Q.Event)
    requires longer == run + [Queue(step)] && After(s, parse, run) == before
    requires Q.Enabled(before.queue, step) && !step.JobEnd? && !step.Fetched? && !step.Removed? && !step.Crash?
    ensures After(s, parse, longer) == before.(queue := Q.Next(before.queue, step))
  {
    OneMore(s, parse, run, longer, Queue(step));
  }

  lemma {:induction false} JobIsAdded(ledger: Ledger, parse: Parse, job: Q.Job)
    ensures After(Opening(0, ledger), parse, UpToStart(job)[..2])
            == Opening(0, ledger).(queue := Q.Next(Q.Next(Q.Fresh(0), Q.AddBegin(job)), Q.AddLand(job)))
  {
    var s, run := Opening(0, ledger), UpToStart(job);
    OneMoreQueued(s, parse, [], run[..1], s, Q.AddBegin(job));
    OneMoreQueued(s, parse, run[..1], run[..2], s.(queue := Q.Next(s.queue, Q.AddBegin(job))), Q.AddLand(job));
  }

  lemma {:induction false} JobIsStarted(ledger: Ledger, parse: Parse, job: Q.Job)
    ensures After(Opening(0, ledger), parse, UpToStart(job)) == System(Started(job), ledger, map[0 := Begun], [])
  {
    var s, run := Opening(0, ledger), UpToStart(job);
    JobStarts(job);
    JobIsAdded(ledger, parse, job);
    var q2 := Q.Next(Q.Next(s.queue, Q.AddBegin(job)), Q.AddLand(job));
    OneMoreQueued(s, parse, run[..2], run[..3], s.(queue := q2), Q.Advance(Q.WEBHOOK_DELAY_MS));
    var q3 := Q.Next(q2, Q.Advance(Q.WEBHOOK_DELAY_MS));
    OneMoreQueued(s, parse, run[..3], run[..4], s.(queue := q3), Q.Tick(0));
    OneMore(s, parse, run[..4], run, Queue(Q.Fetched(0, [job])));
  }

  lemma {:induction false} NoChargeIsFromEndpoint(s: System, parse: Parse, run: seq<Event>)
    requires forall e :: e in run && e.Queue? && e.step.AddBegin? ==> !parse(e.step.job).ChargeOk?
    ensures FromEndpoint(s, parse, run)
  {
    if run != [] {
      NoChargeIsFromEndpoint(s, parse, run[..|run| - 1]);
      assert run[|run| - 1] in run;
    }
  }

  /**
   * Such rows exist behind the endpoint: charge.failed reads a deposit as pending, a verification of its hash pays
   * it, and the handler's write then marks the paid deposit FAILED; the credit stays.
   */
  lemma {:induction false} PaidDepositIsMarkedFailed(ledger: Ledger, parse: Parse, job: Q.Job, hash: string,
                                                     books: real)
    requires parse(job).ChargeBad? && Deposits.VerifiedCredits(ledger, hash, Some(books))
    requires ledger.byHash[hash] == parse(job).reference
    ensures var run, s := DeclinedWhilePaid(job, hash, books), Opening(0, ledger);
      var reference, later := parse(job).reference, After(s, parse, run);
      var row := ledger.transactions[reference];
      && FromEndpoint(s, parse, run)
      && later.journal == [L.Entry(reference, row, L.ChainVerified(books)), L.Entry(reference, row, L.ChargeDeclined)]
      && reference in later.ledger.transactions && later.ledger.transactions[reference].status == FAILED
      && L.Balance(later.ledger, row.recipient.value) == L.Balance(ledger, row.recipient.value) + books
  {
    var s, run := Opening(0, ledger), UpToStart(job);
    var verify := Request(L.VerifyCrypto(hash, Some(books)));
    NoChargeIsFromEndpoint(s, parse, DeclinedWhilePaid(job, hash, books));
    JobIsStarted(ledger, parse, job);
    assert [job][0] == job;
    OneMore(s, parse, run, run + [ReadRow(0)], ReadRow(0));
    OneMore(s, parse, run + [ReadRow(0)], run + [ReadRow(0)] + [verify], verify);
    OneMore(s, parse, run + [ReadRow(0)] + [verify], DeclinedWhilePaid(job, hash, books), Commit(0, true));
  }
}
