/**
 * The last write of a Paystack withdrawal: after the provider has answered, the row is marked PENDING once more.
 * Webhooks and other requests can come before that write lands.
 */
module LateWrites {
  import opened Common
  import opened Database
  import opened Withdrawals
  import L = LedgerRuns

  /** The ledger, and the withdrawals whose last write is outstanding. */
  datatype Race = Race(ledger: Ledger, open: set<Id>)

  datatype Event =
    | Do(request: L.Event)    // a withdrawal gets as far as the provider's answer, and no further when it is Paystack's
    | Late(reference: Id)     // the last write of a withdrawal lands

  /** Paystack has answered a withdrawal. */
  predicate Opens(l: Ledger, e: L.Event)
  {
    && e.InitiateWithdrawal? && e.payout.Some? && e.via == PAYSTACK
    && WithdrawalAccepted(l, e.user, e.via, e.amount, e.reference)
  }

  predicate Lands(s: Race, e: Event)
  {
    e.Late? && e.reference in s.open && e.reference in s.ledger.transactions
  }

  ghost function Next(s: Race, e: Event): Race
  {
    match e
    case Do(request) =>
      Race(L.Step(s.ledger, request), s.open + if Opens(s.ledger, request) then {request.reference} else {})
    case Late(reference) =>
      if Lands(s, e) then Race(Marked(s.ledger, reference, PENDING), s.open - {reference}) else s
  }

  ghost function After(s: Race, run: seq<Event>): Race
  {
    if run == [] then s else Next(After(s, run[..|run| - 1]), run[|run| - 1])
  }

  // ---- Writes that come in time change nothing ----

  /** Every last write of the run finds its row still pending. */
  ghost predicate Prompt(s: Race, run: seq<Event>)
  {
    run == [] ||
    var before := After(s, run[..|run| - 1]);
    var e := run[|run| - 1];
    Prompt(s, run[..|run| - 1]) && (Lands(before, e) ==> Pending(before.ledger, e.reference))
  }

  function Requests(run: seq<Event>): seq<L.Event>
  {
    if run == [] then [] else
      Requests(run[..|run| - 1]) + if run[|run| - 1].Do? then [run[|run| - 1].request] else []
  }

  /** Such runs are the runs in which a withdrawal is a single step, so whatever holds for these holds for them. */
  lemma {:induction false} PromptRunsAreLedgerRuns(l: Ledger, run: seq<Event>)
    requires Prompt(Race(l, {}), run)
    ensures After(Race(l, {}), run).ledger == L.After(l, Requests(run))
  {
    if run != [] {
      var head, e := run[..|run| - 1], run[|run| - 1];
      PromptRunsAreLedgerRuns(l, head);
      var before := After(Race(l, {}), head);
      if e.Do? {
        assert Requests(run)[..|Requests(head)|] == Requests(head);
      } else {
        assert Requests(run) == Requests(head);
        if Lands(before, e) {
          PendingStays(before.ledger, e.reference);
        }
      }
    }
  }

  lemma {:induction false} PendingStays(l: Ledger, reference: Id)
    requires Pending(l, reference)
    ensures Marked(l, reference, PENDING) == l
  {
    var row := l.transactions[reference];
    assert row.(status := PENDING) == row;
    assert l.transactions[reference := row] == l.transactions;
  }

  // ---- When a settled row is reopened ----

  ghost predicate SettledAs(s: Race, reference: Id, row: Transaction)
  {
    reference in s.ledger.transactions && s.ledger.transactions[reference] == row && row.status != PENDING
  }

  lemma {:induction false} StepSettled(s: Race, e: Event, reference: Id, row: Transaction)
    requires SettledAs(s, reference, row)
    ensures SettledAs(Next(s, e), reference, row) <==> !(e == Late(reference) && Lands(s, e))
  {
    match e {
      case Do(request) =>
        L.StepRows(s.ledger, request);
        assert L.Settled(s.ledger.transactions, reference);
      case Late(_) =>
    }
  }

  ghost predicate Reopened(s: Race, run: seq<Event>, n: nat, reference: Id)
  {
    n < |run| && run[n] == Late(reference) && Lands(After(s, run[..n]), run[n])
  }

  lemma {:induction false} NextState(s: Race, run: seq<Event>, n: nat)
    requires n < |run|
    ensures After(s, run[..n + 1]) == Next(After(s, run[..n]), run[n])
  {
    assert run[..n + 1][..n] == run[..n];
  }

  lemma {:induction false} SettledUntil(s: Race, run: seq<Event>, n: nat, reference: Id, row: Transaction)
    requires SettledAs(s, reference, row) && n <= |run| && forall k :: 0 <= k < n ==> !Reopened(s, run, k, reference)
    ensures SettledAs(After(s, run[..n]), reference, row)
  {
    if n > 0 {
      SettledUntil(s, run, n - 1, reference, row);
      NextState(s, run, n - 1);
      assert !Reopened(s, run, n - 1, reference);
      StepSettled(After(s, run[..n - 1]), run[n - 1], reference, row);
    }
  }

  /** A settled row stays as it is through a run if and only if no last write of that row lands in it. */
  lemma {:induction false} SettledStaysIff(s: Race, run: seq<Event>, reference: Id, row: Transaction)
    requires SettledAs(s, reference, row)
    ensures (forall n :: 0 <= n <= |run| ==> SettledAs(After(s, run[..n]), reference, row)) <==>
              (forall n :: 0 <= n < |run| ==> !Reopened(s, run, n, reference))
  {
    if forall n :: 0 <= n < |run| ==> !Reopened(s, run, n, reference) {
      forall n | 0 <= n <= |run| ensures SettledAs(After(s, run[..n]), reference, row) {
        SettledUntil(s, run, n, reference, row);
      }
    }
    if forall n :: 0 <= n <= |run| ==> SettledAs(After(s, run[..n]), reference, row) {
      forall n | 0 <= n < |run| ensures !Reopened(s, run, n, reference) {
        NextState(s, run, n);
        assert SettledAs(After(s, run[..n + 1]), reference, row);
        StepSettled(After(s, run[..n]), run[n], reference, row);
      }
    }
  }

  // ---- A withdrawal debited twice ----

  /** The transfer is reported before the last write lands, and reported once more after it. */
  function Twice(user: Id, amount: real, reference: Id, code: string): seq<Event>
  {
    [Do(L.Event.InitiateWithdrawal(user, PAYSTACK, amount, reference, Some(code))),
     Do(L.TransferSuccess(reference)), Late(reference), Do(L.TransferSuccess(reference))]
  }

  lemma {:induction false} Four(s: Race, run: seq<Event>, s1: Race, s2: Race, s3: Race, s4: Race)
    requires |run| == 4 && Next(s, run[0]) == s1 && Next(s1, run[1]) == s2
    requires Next(s2, run[2]) == s3 && Next(s3, run[3]) == s4
    ensures After(s, run) == s4
  {
    assert run[..4] == run && After(s, run[..0]) == s;
    NextState(s, run, 0);
    NextState(s, run, 1);
    NextState(s, run, 2);
    NextState(s, run, 3);
  }

  /** Then both reports debit the wallet, whenever the guard lets both through. */
  lemma {:induction false} LateWriteDebitsTwice(l: Ledger, user: Id, amount: real, reference: Id, code: string)
    requires WithdrawalAccepted(l, user, PAYSTACK, amount, reference) && CanDebit(l, l.walletOf[user], amount)
    requires CanDebit(Debited(l, l.walletOf[user], amount), l.walletOf[user], amount)
    ensures var end := After(Race(l, {}), Twice(user, amount, reference, code)).ledger;
      && end.balances == l.balances[l.walletOf[user] := l.balances[l.walletOf[user]] - amount - amount]
      && reference in end.transactions && end.transactions[reference].status == SUCCESS
  {
    var run, wallet := Twice(user, amount, reference, code), l.walletOf[user];
    var row := WithdrawalRow(PAYSTACK, amount, wallet);
    var begun := Next(Race(l, {}), run[0]);
    assert begun == Race(Recorded(l, reference, row), {reference});
    Debits(begun, reference, row);
    var paid := Next(begun, run[1]);
    var reopened := Next(paid, run[2]);
    assert reopened.ledger.transactions[reference] == row;
    Debits(reopened, reference, row);
    Four(Race(l, {}), run, begun, paid, reopened, Next(reopened, run[3]));
  }

  lemma {:induction false} Debits(s: Race, reference: Id, row: Transaction)
    requires reference in s.ledger.transactions && s.ledger.transactions[reference] == row
    requires row.kind == WITHDRAWAL && row.status == PENDING && row.sender.Some?
    requires CanDebit(s.ledger, row.sender.value, row.amount)
    ensures Next(s, Do(L.TransferSuccess(reference)))
            == s.(ledger := Marked(Debited(s.ledger, row.sender.value, row.amount), reference, SUCCESS))
  {
  }
}
