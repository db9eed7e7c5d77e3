/** The debit guard compares two decimals with `<`, which compares their texts; what a ledger with this guard keeps. */
module DebitGuard {
  import opened Common
  import opened Database
  import opened DecimalText
  import L = LedgerRuns
  import Orders
  import opened OrderCharges

  // ---- A ledger with this guard ----

  /** The guard on numbers: by their texts; the sign of a negative balance sorts below every digit. */
  ghost predicate TextBelow(balance: real, amount: real)
  {
    || balance < 0.0
    || exists b: Decimal, a: Decimal ::
         b.Printed() && a.Printed() && b.AsReal() == balance && a.AsReal() == amount && TextLess(b.AsText(), a.AsText())
  }

  lemma {:induction false} NotNegative(b: Decimal)
    requires b.Printed()
    ensures b.AsReal() >= 0.0
  {
    if b.Plain? {
      PlainRange(b);
    } else {
      ScientificRange(b);
    }
  }

  lemma {:induction false} TextBelowIsTextLess(b: Decimal, a: Decimal)
    requires b.Printed() && a.Printed()
    ensures TextBelow(b.AsReal(), a.AsReal()) <==> TextLess(b.AsText(), a.AsText())
  {
    NotNegative(b);
    if TextBelow(b.AsReal(), a.AsReal()) {
      var c: Decimal, d: Decimal :| c.Printed() && d.Printed() && c.AsReal() == b.AsReal() && d.AsReal() == a.AsReal()
        && TextLess(c.AsText(), d.AsText());
      ValuePrintsOnce(b, c);
      ValuePrintsOnce(a, d);
    }
  }

  /** The debit a step makes compares two numbers on which text and number agree. */
  ghost predicate Agreeing(l: Ledger, e: L.Event)
  {
    var d := L.DebitMade(l, e);
    d.Some? && d.value.wallet in l.balances ==>
      exists b: Decimal, a: Decimal :: b.Printed() && a.Printed()
        && b.AsReal() == l.balances[d.value.wallet] && a.AsReal() == d.value.amount && Agree(b, a)
  }

  /** With this guard balances stay non-negative in every run whose debits compare numbers it gets right. */
  lemma {:induction false} TextGuardNeverNegative(l: Ledger, run: seq<L.Event>)
    requires L.NonNegative(l) && l.below == TextBelow
    requires forall i {:trigger run[i]} :: 0 <= i < |run| ==> Agreeing(L.After(l, run[..i]), run[i])
    ensures L.NonNegative(L.After(l, run))
  {
    forall i | 0 <= i < |run| ensures L.Guarded(L.After(l, run[..i]), run[i]) {
      var now := L.After(l, run[..i]);
      L.RunKeepsGuard(l, run[..i]);
      var d := L.DebitMade(now, run[i]);
      if d.Some? && d.value.wallet in now.balances {
        var b: Decimal, a: Decimal :| b.Printed() && a.Printed()
          && b.AsReal() == now.balances[d.value.wallet] && a.AsReal() == d.value.amount && Agree(b, a);
        GuardIsNumeric(b, a);
        TextBelowIsTextLess(b, a);
      }
    }
    L.NeverNegative(l, run);
  }

  /** A buyer with a balance of 9, and an order over 10 of another author's book. */
  ghost function NineForTen(): Ledger
  {
    Ledger(map["buyer" := 9.0, "author" := 0.0], map[], map[], map[], map[], map[],
           map["order" := Order("buyer", OrderPending, 10, LINES)], TextBelow)
  }

  lemma {:induction false} NineForTenPays()
    ensures Orders.CanPay(NineForTen(), "buyer", Order("buyer", OrderPending, 10, LINES))
    ensures Orders.Income(LINES, "buyer") == 0.0
  {
    WrongAnswers();
    TextBelowIsTextLess(Plain([9], []), Plain([1, 0], []));
    LinesPayTheAuthor();
  }

  /** The condition is needed: from these balances one checkout takes the buyer to -1. */
  lemma {:induction false} TextGuardGoesNegative(reference: Id)
    ensures L.NonNegative(NineForTen())
    ensures var pay := L.Checkout("buyer", Orders.Existing("order"), WALLET, reference, true);
      L.Balance(L.After(NineForTen(), [pay]), "buyer") == -1.0
  {
    var l, pay := NineForTen(), L.Checkout("buyer", Orders.Existing("order"), WALLET, reference, true);
    NineForTenPays();
    assert Orders.WalletPays(l, "buyer", Orders.Existing("order"), reference);
    L.WalletCheckoutPosts(l, "buyer", Orders.Existing("order"), reference, true, "buyer");
    assert [pay][..0] == [];
    assert L.After(l, [pay]) == L.Step(l, pay);
  }
}
