/** Paystack's side of the webhook service: what is recorded before a job is queued, and what the job then runs. */
module PaystackWebhooks {
  import opened Common
  import opened Database
  import opened LedgerRuns

  /** What a webhook's event name stands for on the ledger. */
  function Handled(event: string, reference: Id): Option<Event>
  {
    if event == "charge.success" then Some(ChargeSuccess(reference))
    else if event == "charge.failed" then Some(ChargeFailure(reference))
    else if event == "transfer.success" then Some(TransferSuccess(reference))
    else if event == "transfer.failed" then Some(TransferFailure(reference))
    else None
  }

  /**
   * The endpoint: a signed delivery that names a reference is queued only when its response is on record, and the
   * record is the only thing it writes.
   */
  method HandlePaystackWebhook(db: Database, signed: bool, reference: Option<Id>) returns (reply: Reply, status: string)
    modifies db
    ensures !signed ==> reply.Thrown?
    ensures signed && reference.Some? && reference.value != "" ==>
      && db.View() == ResponseRecorded(old(db.View()), PAYSTACK, reference.value)
      && (reply.Returned? <==> HasResponse(db.View(), PAYSTACK, reference.value))
      && (reply.Returned? ==> (status == "duplicate" <==> HasResponse(old(db.View()), PAYSTACK, reference.value)))
    ensures !signed || reference.None? || reference.value == "" ==> db.View() == old(db.View())
    ensures signed && (reference.None? || reference.value == "") ==> reply.Returned?
  {
    status := "";
    if !signed {
      return Thrown("unauthorized"), status;
    }
    if reference.Some? && reference.value != "" {
      if reference.value in db.responses && db.responses[reference.value] == PAYSTACK {
        return Returned, "duplicate";
      }
      if reference.value in db.responses {
        return Thrown("Unique constraint failed"), status;   // the reference of another provider's response
      }
      db.responses := db.responses[reference.value := PAYSTACK];
    }
    return Returned, "queued";
  }

  /** What a job does to the ledger. */
  ghost function Processed(l: Ledger, event: string, reference: Id): Ledger
  {
    var handled := Handled(event, reference);
    if handled.Some? then Step(l, handled.value) else l
  }

  /** A delivery with nothing on record for it pays a pending row of a positive amount into its existing wallet. */
  lemma {:induction false} ChargeSuccessPays(l: Ledger, reference: Id)
    requires reference in l.transactions && l.transactions[reference].status == PENDING
    requires l.transactions[reference].recipient.Some? && l.transactions[reference].recipient.value in l.balances
    ensures var after, row := Processed(l, "charge.success", reference), l.transactions[reference];
      if (reference in l.responses && l.responses[reference] == PAYSTACK) || row.amount <= 0.0 then after == l else
        after == l.(transactions := l.transactions[reference := row.(status := SUCCESS)],
                    balances := l.balances[row.recipient.value := l.balances[row.recipient.value] + row.amount])
  {
    Deposits.ChargePays(l, reference);
  }

  /** A failed charge moves no balance, with or without a record, and turns a pending row FAILED. */
  lemma {:induction false} ChargeFailedMarks(l: Ledger, reference: Id)
    ensures var after := Processed(l, "charge.failed", reference);
      && after == l.(transactions := after.transactions)
      && after.transactions
         == if reference in l.transactions && l.transactions[reference].status == PENDING
            then l.transactions[reference := l.transactions[reference].(status := FAILED)]
            else l.transactions
  {
    Deposits.FailedChargeMarks(l, reference);
  }

  /** A transfer subtracts the positive amount of a pending withdrawal from its sender's wallet, if the guard allows. */
  lemma {:induction false} TransferSuccessDebits(l: Ledger, reference: Id)
    requires reference in l.transactions && l.transactions[reference].status == PENDING
    requires l.transactions[reference].kind == WITHDRAWAL
    requires l.transactions[reference].sender.Some? && l.transactions[reference].sender.value in l.balances
    ensures var after, row := Processed(l, "transfer.success", reference), l.transactions[reference];
      if row.amount <= 0.0 || l.below(l.balances[row.sender.value], row.amount) then after == l else
        after == l.(transactions := l.transactions[reference := row.(status := SUCCESS)],
                    balances := l.balances[row.sender.value := l.balances[row.sender.value] - row.amount])
  {
    Withdrawals.TransferPays(l, reference);
  }

  /** A failed transfer adds the positive amount of a pending withdrawal to its sender's wallet. */
  lemma {:induction false} TransferFailedCredits(l: Ledger, reference: Id)
    requires reference in l.transactions && l.transactions[reference].status == PENDING
    requires l.transactions[reference].kind == WITHDRAWAL
    requires l.transactions[reference].sender.Some? && l.transactions[reference].sender.value in l.balances
    ensures var after, row := Processed(l, "transfer.failed", reference), l.transactions[reference];
      if row.amount <= 0.0 then after == l else
        after == l.(transactions := l.transactions[reference := row.(status := FAILED)],
                    balances := l.balances[row.sender.value := l.balances[row.sender.value] + row.amount])
  {
    Withdrawals.FailedTransferPaysBack(l, reference);
  }

  /** The wallet a job would move: the recipient's for a charge, the sender's for a transfer. */
  function WalletOf(event: string, row: Transaction): Option<Id>
  {
    if event in {"charge.success", "charge.failed"} then row.recipient else row.sender
  }

  /**
   * Everything else is left alone: a job of any other name, and any job for a row that is missing or settled, or
   * that names no existing wallet, but for the mark of a failed charge; a transfer for a row that is no withdrawal.
   */
  lemma {:induction false} OtherJobsChangeNothing(l: Ledger, event: string, reference: Id)
    requires
      || event !in {"charge.success", "charge.failed", "transfer.success", "transfer.failed"}
      || reference !in l.transactions || l.transactions[reference].status != PENDING
      || (event in {"transfer.success", "transfer.failed"} && l.transactions[reference].kind != WITHDRAWAL)
      || (event != "charge.failed"
          && (var wallet := WalletOf(event, l.transactions[reference]);
              wallet.None? || wallet.value !in l.balances))
    ensures Processed(l, event, reference) == l
  {
  }

  /** The job: each known event runs its handler, and nothing else touches the ledger. */
  method ProcessQueuedPaystackWebhook(db: Database, event: string, reference: Id) returns (reply: Reply)
    modifies db
    ensures db.View() == Processed(old(db.View()), event, reference)
    ensures event == "charge.failed" ==> (reply.Returned? <==> reference in old(db.transactions))
    ensures event in {"transfer.success", "transfer.failed"} ==>
      (reply.Thrown? <==> Withdrawals.Stuck(old(db.View()), db.View(), reference))
    ensures event !in {"charge.success", "charge.failed", "transfer.success", "transfer.failed"} ==> reply.Returned?
  {
    if event == "charge.success" {
      reply := Deposits.HandleSuccessfulPaystackDeposit(db, reference);
    } else if event == "charge.failed" {
      reply := Deposits.HandleFailedPaystackDeposit(db, reference);
    } else if event == "transfer.success" {
      reply := Withdrawals.HandleSuccessfulPaystackWithdrawal(db, reference);
    } else if event == "transfer.failed" {
      reply := Withdrawals.HandleFailedPaystackWithdrawal(db, reference);
    } else {
      reply := Returned;
    }
  }
}
