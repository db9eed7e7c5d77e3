/** How often a run charges an order from a wallet, and exactly when that is at most once. */
module OrderCharges {
  import opened Common
  import opened Database
  import opened Orders
  import opened LedgerRuns

  /** The step pays this order from a wallet. */
  ghost predicate Charges(l: Ledger, e: Event, orderId: Id)
  {
    && e.Checkout? && e.via == WALLET && !e.source.Unspecified? && e.source.orderId == orderId
    && WalletPays(l, e.user, e.source, e.reference)
  }

  ghost predicate ChargesAt(l: Ledger, run: seq<Event>, i: nat, orderId: Id)
  {
    i < |run| && Charges(After(l, run[..i]), run[i], orderId)
  }

  predicate IsCharge(entry: Entry, orderId: Id)
  {
    entry.cause.WalletPaid? && entry.row.orderId == Some(orderId)
  }

  /** The number of journal entries that are wallet payments of the order. */
  ghost function ChargeCount(entries: seq<Entry>, orderId: Id): nat
  {
    if entries == [] then 0 else
      ChargeCount(entries[..|entries| - 1], orderId) + if IsCharge(entries[|entries| - 1], orderId) then 1 else 0
  }

  /** The positions of the run at which the order is charged. */
  ghost function Positions(l: Ledger, run: seq<Event>, orderId: Id): set<nat>
  {
    set i | 0 <= i < |run| && ChargesAt(l, run, i, orderId)
  }

  lemma {:induction false} ChargeIsJournaled(l: Ledger, e: Event, orderId: Id)
    ensures Charges(l, e, orderId) <==> JournalEntry(l, e).Some? && IsCharge(JournalEntry(l, e).value, orderId)
  {
  }

  lemma {:induction false} PositionsGrow(l: Ledger, run: seq<Event>, e: Event, orderId: Id)
    ensures Positions(l, run + [e], orderId)
            == Positions(l, run, orderId) + if Charges(After(l, run), e, orderId) then {|run|} else {}
  {
    var more := run + [e];
    assert more[..|run|] == run;
    forall i | 0 <= i < |run| ensures ChargesAt(l, more, i, orderId) <==> ChargesAt(l, run, i, orderId) {
      assert more[..i] == run[..i];
    }
  }

  /** The journal has one wallet payment of the order for each position that charges it. */
  lemma {:induction false} JournalCountsCharges(l: Ledger, run: seq<Event>, orderId: Id)
    ensures ChargeCount(Journal(l, run), orderId) == |Positions(l, run, orderId)|
  {
    if run == [] {
      assert Positions(l, run, orderId) == {};
    } else {
      var before, e := run[..|run| - 1], run[|run| - 1];
      JournalCountsCharges(l, before, orderId);
      assert run == before + [e];
      PositionsGrow(l, before, e, orderId);
      ChargeIsJournaled(After(l, before), e, orderId);
      var entry := JournalEntry(After(l, before), e);
      if entry.Some? {
        assert Journal(l, run)[..|Journal(l, before)|] == Journal(l, before);
      } else {
        assert Journal(l, run) == Journal(l, before);
      }
    }
  }

  // ---- A paid order stays paid ----

  predicate IsPaid(l: Ledger, orderId: Id, user: Id)
  {
    orderId in l.orders && l.orders[orderId].status == OrderPaid && l.orders[orderId].user == user
  }

  lemma {:induction false} StepKeepsPaid(l: Ledger, e: Event, orderId: Id, user: Id)
    requires IsPaid(l, orderId, user)
    ensures IsPaid(Step(l, e), orderId, user)
  {
    match e {
      case Checkout(buyer, source, via, reference, providerOk) =>
        CheckoutKeepsPaid(l, buyer, source, via, reference, providerOk, orderId, user);
      case CreateOrder(buyer, bookIds, id) => CreatedOrderWrites(l, buyer, bookIds, id);
      case _ => OtherOrders(l, e);
    }
  }

  lemma {:induction false} CheckoutKeepsPaid(l: Ledger, buyer: Id, source: Source, via: PaymentMethod, reference: Id,
                                             providerOk: bool, orderId: Id, user: Id)
    requires IsPaid(l, orderId, user)
    ensures IsPaid(CheckedOut(l, buyer, source, via, reference, providerOk), orderId, user)
  {
    var p := Prepared(l, buyer, source);
    if p.Some? {
      assert IsPaid(p.value, orderId, user) by {
        if source.NewOrder? {
          CreatedOrderWrites(l, buyer, source.bookIds, source.orderId);
        }
      }
      var orders := CheckedOut(l, buyer, source, via, reference, providerOk).orders;
      var paid := p.value.orders[source.orderId := p.value.orders[source.orderId].(status := OrderPaid)];
      assert orders == l.orders || orders == p.value.orders || orders == paid;
    }
  }

  lemma {:induction false} ChargePays(l: Ledger, e: Event, orderId: Id)
    requires Charges(l, e, orderId)
    ensures IsPaid(Step(l, e), orderId, e.user)
  {
    if e.source.NewOrder? {
      CreatedOrderWrites(l, e.user, e.source.bookIds, e.source.orderId);
    }
  }

  lemma {:induction false} NextStaysPaid(l: Ledger, run: seq<Event>, i: nat, orderId: Id, user: Id)
    requires i < |run| && IsPaid(After(l, run[..i]), orderId, user)
    ensures IsPaid(After(l, run[..i + 1]), orderId, user)
  {
    var next := After(l, run[..i + 1]);
    assert next == Step(After(l, run[..i]), run[i]) by { NextState(l, run, i); }
    StepKeepsPaid(After(l, run[..i]), run[i], orderId, user);
  }

  lemma {:induction false} PaidStaysPaid(l: Ledger, run: seq<Event>, m: nat, n: nat, orderId: Id, user: Id)
    requires m <= n <= |run| && IsPaid(After(l, run[..m]), orderId, user)
    ensures IsPaid(After(l, run[..n]), orderId, user)
    decreases n - m
  {
    if m < n {
      NextStaysPaid(l, run, m, orderId, user);
      PaidStaysPaid(l, run, m + 1, n, orderId, user);
    }
  }

  lemma {:induction false} ChargedStaysPaid(l: Ledger, run: seq<Event>, i: nat, n: nat, orderId: Id)
    requires ChargesAt(l, run, i, orderId) && i < n <= |run|
    ensures IsPaid(After(l, run[..n]), orderId, run[i].user)
  {
    ChargePays(After(l, run[..i]), run[i], orderId);
    NextState(l, run, i);
    PaidStaysPaid(l, run, i + 1, n, orderId, run[i].user);
  }

  // ---- Once, or again ----

  /** What a wallet checkout of the order has to pass: ownership, a free reference, the balance, authors' wallets. */
  ghost predicate Passes(l: Ledger, e: Event, orderId: Id)
  {
    && e.Checkout? && e.via == WALLET && e.source == Existing(orderId)
    && orderId in l.orders && l.orders[orderId].user == e.user
    && e.reference !in l.transactions
    && CanPay(l, e.user, l.orders[orderId])
  }

  /** Once charged, an order is charged by exactly the checkouts that pass, although it is paid. */
  lemma {:induction false} ChargedAgain(l: Ledger, run: seq<Event>, i: nat, j: nat, orderId: Id)
    requires ChargesAt(l, run, i, orderId) && i < j < |run|
    ensures IsPaid(After(l, run[..j]), orderId, run[i].user)
    ensures ChargesAt(l, run, j, orderId) <==> Passes(After(l, run[..j]), run[j], orderId)
  {
    ChargedStaysPaid(l, run, i, j, orderId);
    if run[j].Checkout? {
      WalletPaysExactly(After(l, run[..j]), run[j].user, orderId, run[j].reference);
    }
  }

  /** No two positions charge the order. */
  ghost predicate NeverAgain(l: Ledger, run: seq<Event>, orderId: Id)
  {
    forall i, j :: 0 <= i < j < |run| && ChargesAt(l, run, i, orderId) ==> !ChargesAt(l, run, j, orderId)
  }

  lemma {:induction false} AtMostOneCharge(l: Ledger, run: seq<Event>, orderId: Id)
    ensures ChargeCount(Journal(l, run), orderId) <= 1 <==> NeverAgain(l, run, orderId)
  {
    JournalCountsCharges(l, run, orderId);
    var s := Positions(l, run, orderId);
    assert forall i :: i in s <==> 0 <= i < |run| && ChargesAt(l, run, i, orderId);
    AtMostOne(s);
    if |s| > 1 {
      var i, j :| i in s && j in s && i < j;
      assert ChargesAt(l, run, i, orderId) && ChargesAt(l, run, j, orderId);
    }
  }

  /** A run charges an order at most once if and only if after each charge every checkout of it fails to pass. */
  lemma {:induction false} ChargedAtMostOnceIff(l: Ledger, run: seq<Event>, orderId: Id)
    ensures ChargeCount(Journal(l, run), orderId) <= 1 <==>
              forall i, j :: 0 <= i < j < |run| && ChargesAt(l, run, i, orderId) ==>
                !Passes(After(l, run[..j]), run[j], orderId)
  {
    AtMostOneCharge(l, run, orderId);
    forall i, j | 0 <= i < j < |run| && ChargesAt(l, run, i, orderId)
      ensures ChargesAt(l, run, j, orderId) <==> Passes(After(l, run[..j]), run[j], orderId)
    {
      ChargedAgain(l, run, i, j, orderId);
    }
  }

  lemma {:induction false} AtMostOne(s: set<nat>)
    ensures |s| <= 1 <==> forall i, j :: i in s && j in s ==> i == j
    ensures |s| > 1 ==> exists i, j :: i in s && j in s && i < j
  {
    if s != {} {
      var i :| i in s;
      if s - {i} != {} {
        var j :| j in s - {i};
        assert |s - {i} - {j}| == |s| - 2;
        if i < j {
        } else {
          assert j in s && i in s && j < i;
        }
      } else {
        assert s == {i};
      }
    }
  }

  /**
   * After a paid checkout the same order is paid again by any checkout that passes, and the buyer's balance falls
   * again whenever some line has another author: an order is not charged at most once.
   */
  lemma {:induction false} PaidOrderIsChargedAgain(l: Ledger, run: seq<Event>, i: nat, again: Event, orderId: Id, b: Id)
    requires OrdersExact(l) && ChargesAt(l, run, i, orderId) && Passes(After(l, run), again, orderId)
    requires b in After(l, run).orders[orderId].lines && After(l, run).orders[orderId].lines[b].author != again.user
    ensures IsPaid(After(l, run), orderId, again.user)
    ensures ChargesAt(l, run + [again], |run|, orderId)
    ensures ChargeCount(Journal(l, run + [again]), orderId) >= 2
    ensures Balance(After(l, run + [again]), again.user) < Balance(After(l, run), again.user)
  {
    SecondCharge(l, run, i, again, orderId);
    OrdersOfRun(l, run);
    PassingCheckoutCosts(After(l, run), again, orderId, b);
    var all := run + [again];
    assert all[..|run|] == run;
  }

  lemma {:induction false} SecondCharge(l: Ledger, run: seq<Event>, i: nat, again: Event, orderId: Id)
    requires ChargesAt(l, run, i, orderId) && Passes(After(l, run), again, orderId)
    ensures IsPaid(After(l, run), orderId, again.user)
    ensures ChargesAt(l, run + [again], |run|, orderId)
    ensures ChargeCount(Journal(l, run + [again]), orderId) >= 2
  {
    var all := run + [again];
    assert all[..|run|] == run && all[..i] == run[..i] && all[i] == run[i] && all[|run|] == again;
    assert ChargesAt(l, all, i, orderId);
    ChargedAgain(l, all, i, |run|, orderId);
    AtMostOneCharge(l, all, orderId);
  }

  /** A checkout that passes costs the buyer what the other authors get. */
  lemma {:induction false} PassingCheckoutCosts(l: Ledger, e: Event, orderId: Id, b: Id)
    requires OrdersExact(l) && Passes(l, e, orderId)
    requires b in l.orders[orderId].lines && l.orders[orderId].lines[b].author != e.user
    ensures Balance(Step(l, e), e.user) < Balance(l, e.user)
  {
    assert WalletPays(l, e.user, e.source, e.reference);
    BuyerLoses(l, e.user, l.orders[orderId], b);
    WalletCheckoutPosts(l, e.user, e.source, e.reference, e.providerOk, e.user);
  }

  // ---- Such a run ----

  const LINES: map<Id, Line> := map["book" := Line(10, "author")]

  /** A buyer with 30, and an order over 10 of another author's book. The guard compares numbers. */
  function ThirtyForTen(): Ledger
  {
    Ledger(map["buyer" := 30.0, "author" := 0.0], map[], map[], map[], map[], map[],
           map["order" := Order("buyer", OrderPending, 10, LINES)], (balance: real, amount: real) => balance < amount)
  }

  function Pay(reference: Id): Event
  {
    Checkout("buyer", Existing("order"), WALLET, reference, true)
  }

  lemma {:induction false} LinesPayTheAuthor()
    ensures Income(LINES, "author") == 10.0 && Income(LINES, "buyer") == 0.0 && AuthorsOf(LINES) == {"author"}
    ensures Exact(LINES, 10)
  {
    assert LINES == map[]["book" := Line(10, "author")];
    assert LINES["book"].author in AuthorsOf(LINES);
    IncomeOfStranger(map[], "author");
    IncomeOfStranger(LINES, "buyer");
    IncomeWithLine(map[], "book", Line(10, "author"), "author");
    assert Prices(LINES) == map["book" := 10.0];
    PricesPick(LINES, "book");
    assert Prices(LINES - {"book"}) == map[];
  }

  /** Each checkout that passes takes 10 from the buyer, whether the order is paid or not. */
  lemma {:induction false} PayTakesTen(l: Ledger, reference: Id)
    requires "order" in l.orders && l.orders["order"].user == "buyer"
    requires l.orders["order"].total == 10 && l.orders["order"].lines == LINES
    requires l.below == ThirtyForTen().below && reference !in l.transactions
    requires {"buyer", "author"} <= l.balances.Keys && l.balances["buyer"] >= 10.0
    ensures Passes(l, Pay(reference), "order") && Charges(l, Pay(reference), "order")
    ensures Balance(Step(l, Pay(reference)), "buyer") == l.balances["buyer"] - 10.0
  {
    LinesPayTheAuthor();
    WalletPaysExactly(l, "buyer", "order", reference);
    WalletCheckoutPosts(l, "buyer", Existing("order"), reference, true, "buyer");
  }

  lemma {:induction false} CheckedOutWrites(l: Ledger, reference: Id)
    requires Charges(l, Pay(reference), "order")
    ensures var after := Step(l, Pay(reference));
      && after.transactions.Keys == l.transactions.Keys + {reference}
      && after.balances.Keys == l.balances.Keys && after.below == l.below
  {
  }

  /** The order is paid, 20 are left, and any other reference is free. */
  lemma {:induction false} OncePaid(first: Id)
    ensures OrdersExact(ThirtyForTen()) && ChargesAt(ThirtyForTen(), [Pay(first)], 0, "order")
    ensures var paid := After(ThirtyForTen(), [Pay(first)]);
      && "order" in paid.orders && paid.orders["order"] == Order("buyer", OrderPaid, 10, LINES)
      && paid.below == ThirtyForTen().below && paid.transactions.Keys == {first}
      && paid.balances.Keys == {"buyer", "author"} && paid.balances["buyer"] == 20.0
  {
    var l, run := ThirtyForTen(), [Pay(first)];
    LinesPayTheAuthor();
    PayTakesTen(l, first);
    NextState(l, run, 0);
    assert run[..0] == [] && run[..1] == run && After(l, []) == l;
    ChargePays(l, Pay(first), "order");
    OrdersOfRun(l, run);
    CheckedOutWrites(l, first);
  }

  /** Two checkouts of one order, under different references: it is charged twice, and the 30 become 10. */
  lemma {:induction false} OneOrderChargedTwice(first: Id, second: Id)
    requires first != second
    ensures OrdersExact(ThirtyForTen()) && ChargesAt(ThirtyForTen(), [Pay(first)], 0, "order")
    ensures Passes(After(ThirtyForTen(), [Pay(first)]), Pay(second), "order")
    ensures ChargeCount(Journal(ThirtyForTen(), [Pay(first), Pay(second)]), "order") >= 2
    ensures Balance(After(ThirtyForTen(), [Pay(first), Pay(second)]), "buyer") == 10.0
  {
    var l, run, both := ThirtyForTen(), [Pay(first)], [Pay(first), Pay(second)];
    OncePaid(first);
    PayTakesTen(After(l, run), second);
    SecondCharge(l, run, 0, Pay(second), "order");
    assert run + [Pay(second)] == both && both[..1] == run && both[..2] == both;
    NextState(l, both, 1);
  }
}
