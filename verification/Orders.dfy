/** Orders and their checkout: lines at the prices of the moment, and the charge split between the authors. */
module Orders {
  import opened Common
  import opened Database
  import opened Sums
  import Wallet

  // ---- Lines and totals ----

  ghost function Prices(lines: map<Id, Line>): map<Id, real>
  {
    map b | b in lines :: lines[b].price as real
  }

  ghost function Authors(lines: map<Id, Line>): map<Id, Id>
  {
    map b | b in lines :: lines[b].author
  }

  ghost function AuthorsOf(lines: map<Id, Line>): set<Id>
  {
    set b | b in lines :: lines[b].author
  }

  /** What an author earns from these lines. */
  ghost function Income(lines: map<Id, Line>, author: Id): real
  {
    Sum(GroupOf(Prices(lines), Authors(lines), author))
  }

  ghost function Total(lines: map<Id, Line>): int { Sum(Prices(lines)).Floor }

  ghost predicate Exact(lines: map<Id, Line>, total: int) { total as real == Sum(Prices(lines)) }

  lemma {:induction false} PricesPick(lines: map<Id, Line>, b: Id)
    requires b in lines
    ensures Sum(Prices(lines)) == lines[b].price as real + Sum(Prices(lines - {b}))
  {
    SumPick(Prices(lines), b);
    assert Prices(lines) - {b} == Prices(lines - {b});
  }

  /** Whole prices have a whole sum. */
  lemma {:induction false} TotalIsExact(lines: map<Id, Line>)
    ensures Exact(lines, Total(lines))
    decreases |lines|
  {
    if lines == map[] {
      assert Prices(lines) == map[];
    } else {
      var b :| b in lines;
      PricesPick(lines, b);
      TotalIsExact(lines - {b});
      assert (lines[b].price + Total(lines - {b})) as real == Sum(Prices(lines));
    }
  }

  // ---- Creating an order ----

  function Found(books: map<Id, Book>, bookIds: seq<Id>): map<Id, Line>
  {
    map b | b in books && b in bookIds :: Line(books[b].price, books[b].author)
  }

  /** Whether every requested book was found, as the code decides it: by comparing counts. */
  predicate CountsAgree(l: Ledger, bookIds: seq<Id>) { |Found(l.books, bookIds)| == |bookIds| }

  function WithOrder(l: Ledger, orderId: Id, order: Order): Ledger
  {
    l.(orders := l.orders[orderId := order])
  }

  predicate OrderAccepted(l: Ledger, bookIds: seq<Id>, orderId: Id)
  {
    orderId !in l.orders && CountsAgree(l, bookIds)
  }

  /** The rows left behind, also when the call throws: then the order stays, empty. */
  ghost function CreatedOrder(l: Ledger, user: Id, bookIds: seq<Id>, orderId: Id): Ledger
  {
    if orderId in l.orders then l
    else if !CountsAgree(l, bookIds) then WithOrder(l, orderId, Order(user, OrderPending, 0, map[]))
    else
      var lines := Found(l.books, bookIds);
      WithOrder(l, orderId, Order(user, OrderPending, Total(lines), lines))
  }

  /** Creating an order writes order rows only, and every total it writes is exact. */
  lemma {:induction false} CreatedOrderWrites(l: Ledger, user: Id, bookIds: seq<Id>, orderId: Id)
    ensures CreatedOrder(l, user, bookIds, orderId) == l.(orders := CreatedOrder(l, user, bookIds, orderId).orders)
    ensures forall o :: o in l.orders ==>
              o in CreatedOrder(l, user, bookIds, orderId).orders
              && CreatedOrder(l, user, bookIds, orderId).orders[o] == l.orders[o]
    ensures forall o :: o in CreatedOrder(l, user, bookIds, orderId).orders && o !in l.orders ==>
              o == orderId && Exact(CreatedOrder(l, user, bookIds, orderId).orders[o].lines,
                                    CreatedOrder(l, user, bookIds, orderId).orders[o].total)
  {
    if orderId in l.orders {
    } else if !CountsAgree(l, bookIds) {
      assert Prices(map[]) == map[];
      AddedOrder(l, orderId, Order(user, OrderPending, 0, map[]));
    } else {
      var lines := Found(l.books, bookIds);
      TotalIsExact(lines);
      AddedOrder(l, orderId, Order(user, OrderPending, Total(lines), lines));
    }
  }

  lemma {:induction false} AddedOrder(l: Ledger, orderId: Id, order: Order)
    requires orderId !in l.orders && Exact(order.lines, order.total)
    ensures var after := WithOrder(l, orderId, order);
      && after == l.(orders := after.orders)
      && (forall o :: o in l.orders ==> o in after.orders && after.orders[o] == l.orders[o])
      && (forall o :: o in after.orders && o !in l.orders ==>
          o == orderId && Exact(after.orders[o].lines, after.orders[o].total))
  {
  }

  method CreateOrder(db: Database, user: Id, bookIds: seq<Id>, orderId: Id) returns (reply: Reply)
    modifies db
    ensures reply.Returned? <==> OrderAccepted(old(db.View()), bookIds, orderId)
    ensures db.View() == CreatedOrder(old(db.View()), user, bookIds, orderId)
  {
    if orderId in db.orders {
      return Thrown("Unique constraint failed");
    }
    db.orders := db.orders[orderId := Order(user, OrderPending, 0, map[])];
    var books := Found(db.books, bookIds);
    if |books| != |bookIds| {
      return Thrown("Some books do not exist");
    }
    db.orders := db.orders[orderId := db.orders[orderId].(lines := books)];
    assert db.orders == old(db.orders)[orderId := Order(user, OrderPending, 0, books)];
    var total := SumPrices(books);
    db.orders := db.orders[orderId := db.orders[orderId].(total := total)];
    assert db.orders == old(db.orders)[orderId := Order(user, OrderPending, total, books)];
    return Returned;
  }

  method SumPrices(lines: map<Id, Line>) returns (total: int)
    ensures total == Total(lines)
  {
    total := 0;
    var rest := lines;
    while rest != map[]
      invariant total as real + Sum(Prices(rest)) == Sum(Prices(lines))
      decreases |rest|
    {
      var b :| b in rest;
      PricesPick(rest, b);
      total := total + rest[b].price;
      rest := rest - {b};
    }
    assert Prices(rest) == map[];
  }

  predicate NoDuplicates(ids: seq<Id>)
  {
    forall i, j :: 0 <= i < j < |ids| ==> ids[i] != ids[j]
  }

  lemma {:induction false} DistinctCount(ids: seq<Id>)
    ensures |set id | id in ids| <= |ids|
    ensures |set id | id in ids| == |ids| <==> NoDuplicates(ids)
  {
    if ids != [] {
      var front, last := ids[..|ids| - 1], ids[|ids| - 1];
      DistinctCount(front);
      var all, some := set id | id in ids, set id | id in front;
      assert all == some + {last};
      if last in some {
        assert all == some;
        var i :| 0 <= i < |front| && front[i] == last;
        assert ids[i] == ids[|ids| - 1];
      } else {
        assert NoDuplicates(ids) <==> NoDuplicates(front);
      }
    }
  }

  /** The count comparison accepts exactly the lists that name existing books, each once. */
  lemma {:induction false} CountsAgreeMeans(l: Ledger, bookIds: seq<Id>)
    ensures CountsAgree(l, bookIds) <==> NoDuplicates(bookIds) && forall id :: id in bookIds ==> id in l.books
  {
    var found, named := Found(l.books, bookIds).Keys, set id | id in bookIds;
    DistinctCount(bookIds);
    assert found <= named;
    SubsetCount(found, named);
    assert |Found(l.books, bookIds)| == |found|;
    if CountsAgree(l, bookIds) {
      assert found == named;
      forall id | id in bookIds ensures id in l.books {
        assert id in named;
      }
    }
    if forall id :: id in bookIds ==> id in l.books {
      assert found == named;
    }
  }

  lemma {:induction false} SubsetCount(a: set<Id>, b: set<Id>)
    requires a <= b
    ensures |a| <= |b|
    ensures |a| == |b| ==> a == b
  {
    assert b == a + (b - a);
    if |a| == |b| {
      assert |b - a| == 0;
    }
  }

  // ---- Checkout ----

  datatype Source = Existing(orderId: Id) | NewOrder(orderId: Id, bookIds: seq<Id>) | Unspecified

  function OrderRow(via: PaymentMethod, order: Order, orderId: Id): Transaction
  {
    Transaction(ORDER, via, PENDING, order.total as real, None, None, None, Some(orderId))
  }

  /** The state with the order to be paid in it, when the request names one the user may pay. */
  ghost function Prepared(l: Ledger, user: Id, source: Source): (p: Option<Ledger>)
    ensures p.Some? ==> !source.Unspecified? && source.orderId in p.value.orders
  {
    match source
    case Existing(orderId) =>
      if orderId in l.orders && l.orders[orderId].user == user then Some(l) else None
    case NewOrder(orderId, bookIds) =>
      if bookIds != [] && OrderAccepted(l, bookIds, orderId)
      then Some(CreatedOrder(l, user, bookIds, orderId)) else None
    case Unspecified => None
  }

  /** Preparing writes order rows only. */
  lemma {:induction false} PreparedWrites(l: Ledger, user: Id, source: Source)
    requires Prepared(l, user, source).Some?
    ensures var p := Prepared(l, user, source).value; p == l.(orders := p.orders)
  {
    if source.NewOrder? {
      CreatedOrderWrites(l, user, source.bookIds, source.orderId);
    }
  }

  ghost predicate CanPay(l: Ledger, user: Id, order: Order)
  {
    && CanDebit(l, user, order.total as real)
    && forall a :: a in AuthorsOf(order.lines) ==> CanCredit(l, a, Income(order.lines, a))
  }

  ghost function Share(order: Order, buyer: Id, wallet: Id): real
  {
    Income(order.lines, wallet) - if wallet == buyer then order.total as real else 0.0
  }

  ghost function Paid(l: Ledger, user: Id, orderId: Id): Ledger
    requires orderId in l.orders
  {
    var order := l.orders[orderId];
    l.(balances := map w | w in l.balances :: l.balances[w] + Share(order, user, w),
       orders := l.orders[orderId := order.(status := OrderPaid)])
  }

  ghost predicate WalletPays(l: Ledger, user: Id, source: Source, reference: Id)
  {
    var p := Prepared(l, user, source);
    && p.Some?
    && Recordable(p.value, reference, OrderRow(WALLET, p.value.orders[source.orderId], source.orderId))
    && CanPay(p.value, user, p.value.orders[source.orderId])
  }

  /** A checkout that is not paid from the wallet leaves a pending row, or a failed one when Paystack refuses. */
  ghost predicate ExternalOpens(l: Ledger, user: Id, source: Source, via: PaymentMethod, reference: Id)
  {
    var p := Prepared(l, user, source);
    && via != WALLET
    && p.Some?
    && Recordable(p.value, reference, OrderRow(via, p.value.orders[source.orderId], source.orderId))
  }

  ghost function CheckedOut(l: Ledger, user: Id, source: Source, via: PaymentMethod, reference: Id,
                            providerOk: bool): Ledger
  {
    var p := Prepared(l, user, source);
    if via == WALLET && WalletPays(l, user, source, reference) then
      var order := p.value.orders[source.orderId];
      Marked(Paid(Recorded(p.value, reference, OrderRow(via, order, source.orderId)), user, source.orderId),
             reference, SUCCESS)
    else if ExternalOpens(l, user, source, via, reference) then
      var started := Recorded(p.value, reference, OrderRow(via, p.value.orders[source.orderId], source.orderId));
      if via == PAYSTACK && !providerOk then Marked(started, reference, FAILED) else started
    else l
  }

  /** The balances a paid checkout leaves. */
  lemma {:induction false} CheckedOutBalances(l: Ledger, user: Id, source: Source, reference: Id, providerOk: bool)
    requires WalletPays(l, user, source, reference)
    ensures CheckedOut(l, user, source, WALLET, reference, providerOk).balances
            == Paid(Prepared(l, user, source).value, user, source.orderId).balances
  {
  }

  /** One entry per author, with that author's income. */
  ghost predicate Grouped(grouped: map<Id, real>, lines: map<Id, Line>)
  {
    && grouped.Keys == AuthorsOf(lines)
    && (forall a :: a in grouped ==> grouped[a] == Income(lines, a))
  }

  function AddLine(grouped: map<Id, real>, line: Line): map<Id, real>
  {
    grouped[line.author := line.price as real + if line.author in grouped then grouped[line.author] else 0.0]
  }

  /** The lines not in `rest`. */
  ghost function Without(lines: map<Id, Line>, rest: set<Id>): map<Id, Line> { lines - rest }

  /** Income per author, as the grouping query returns it. */
  method GroupByAuthor(lines: map<Id, Line>) returns (grouped: map<Id, real>)
    ensures Grouped(grouped, lines)
  {
    grouped := map[];
    var rest := lines.Keys;
    assert Without(lines, rest) == map[];
    while rest != {}
      invariant rest <= lines.Keys
      invariant Grouped(grouped, Without(lines, rest))
      decreases rest
    {
      var b :| b in rest;
      GroupedStep(grouped, Without(lines, rest), b, lines[b]);
      WithoutStep(lines, rest, b);
      grouped := AddLine(grouped, lines[b]);
      rest := rest - {b};
    }
    assert Without(lines, rest) == lines;
  }

  lemma {:induction false} WithoutStep(lines: map<Id, Line>, rest: set<Id>, b: Id)
    requires b in rest && rest <= lines.Keys
    ensures Without(lines, rest)[b := lines[b]] == Without(lines, rest - {b})
  {
  }

  lemma {:induction false} GroupedStep(grouped: map<Id, real>, seen: map<Id, Line>, b: Id, line: Line)
    requires Grouped(grouped, seen) && b !in seen
    ensures Grouped(AddLine(grouped, line), seen[b := line])
  {
    var more, after := seen[b := line], AddLine(grouped, line);
    AuthorsWithLine(seen, b, line);
    forall a | a in after ensures after[a] == Income(more, a) {
      IncomeWithLine(seen, b, line, a);
      if a !in grouped {
        IncomeOfStranger(seen, a);
      }
    }
  }

  lemma {:induction false} AuthorsWithLine(lines: map<Id, Line>, b: Id, line: Line)
    requires b !in lines
    ensures AuthorsOf(lines[b := line]) == AuthorsOf(lines) + {line.author}
  {
    var more := lines[b := line];
    forall a | a in AuthorsOf(lines) + {line.author} ensures a in AuthorsOf(more) {
      if a == line.author {
        assert more[b].author == a;
      } else {
        var c :| c in lines && lines[c].author == a;
        assert more[c].author == a;
      }
    }
  }

  lemma {:induction false} IncomeWithLine(lines: map<Id, Line>, b: Id, line: Line, author: Id)
    requires b !in lines
    ensures Income(lines[b := line], author)
            == Income(lines, author) + if author == line.author then line.price as real else 0.0
  {
    var more := lines[b := line];
    var before, after := GroupOf(Prices(lines), Authors(lines), author), GroupOf(Prices(more), Authors(more), author);
    if author == line.author {
      assert after == before[b := line.price as real];
      SumInsert(before, b, line.price as real);
    } else {
      assert after == before;
    }
  }

  lemma {:induction false} IncomeOfStranger(lines: map<Id, Line>, author: Id)
    requires author !in AuthorsOf(lines)
    ensures Income(lines, author) == 0.0
  {
    forall b | b in lines ensures lines[b].author != author {
      assert lines[b].author in AuthorsOf(lines);
    }
    assert GroupOf(Prices(lines), Authors(lines), author) == map[];
  }

  /** A balance while authors are being credited: the buyer is charged, and the authors in `done` have their income. */
  ghost function PartBalance(balances: map<Id, real>, user: Id, order: Order, done: set<Id>, w: Id): real
    requires w in balances
  {
    balances[w] - (if w == user then order.total as real else 0.0) + (if w in done then Income(order.lines, w) else 0.0)
  }

  ghost function PartlyPaid(l: Ledger, user: Id, order: Order, done: set<Id>): Ledger
  {
    l.(balances := map w | w in l.balances :: PartBalance(l.balances, user, order, done, w))
  }

  lemma {:induction false} PartlyPaidStep(l: Ledger, user: Id, order: Order, done: set<Id>, author: Id)
    requires author in l.balances && author !in done
    ensures Credited(PartlyPaid(l, user, order, done), author, Income(order.lines, author))
            == PartlyPaid(l, user, order, done + {author})
  {
    assert Credited(PartlyPaid(l, user, order, done), author, Income(order.lines, author)).balances
        == PartlyPaid(l, user, order, done + {author}).balances;
  }

  /** With every author credited, the order is paid but for its status. */
  lemma {:induction false} AllPaid(l: Ledger, user: Id, orderId: Id, done: set<Id>)
    requires orderId in l.orders
    requires AuthorsOf(l.orders[orderId].lines) <= done
    ensures PartlyPaid(l, user, l.orders[orderId], done).balances == Paid(l, user, orderId).balances
  {
    var order := l.orders[orderId];
    forall w | w in l.balances
      ensures PartBalance(l.balances, user, order, done, w) == l.balances[w] + Share(order, user, w)
    {
      if w !in done {
        IncomeOfStranger(order.lines, w);
      }
    }
  }

  method PayFromWallet(db: Database, user: Id, orderId: Id) returns (reply: Reply)
    requires orderId in db.orders
    modifies db
    ensures reply.Returned? <==> CanPay(old(db.View()), user, old(db.orders[orderId]))
    ensures reply.Returned? ==> db.View() == Paid(old(db.View()), user, orderId)
  {
    ghost var l := db.View();
    var order := db.orders[orderId];
    reply := Wallet.Debit(db, user, order.total as real);
    if reply.Thrown? {
      return;
    }
    var grouped := GroupByAuthor(order.lines);
    reply := CreditAuthors(db, user, order, grouped, l);
    if reply.Returned? {
      AllPaid(l, user, orderId, grouped.Keys);
      db.orders := db.orders[orderId := order.(status := OrderPaid)];
    }
  }

  method CreditAuthors(db: Database, user: Id, order: Order, grouped: map<Id, real>, ghost l: Ledger)
    returns (reply: Reply)
    requires CanDebit(l, user, order.total as real) && db.View() == Debited(l, user, order.total as real)
    requires Grouped(grouped, order.lines)
    modifies db
    ensures reply.Returned? <==> CanPay(l, user, order)
    ensures reply.Returned? ==> db.View() == PartlyPaid(l, user, order, grouped.Keys)
  {
    var rest := grouped.Keys;
    assert db.balances == PartlyPaid(l, user, order, grouped.Keys - rest).balances;
    while rest != {}
      invariant rest <= grouped.Keys
      invariant db.View() == PartlyPaid(l, user, order, grouped.Keys - rest)
      invariant forall a :: a in grouped.Keys - rest ==> CanCredit(l, a, grouped[a])
      decreases rest
    {
      var author :| author in rest;
      reply := Wallet.Credit(db, author, grouped[author]);
      if reply.Thrown? {
        assert !CanCredit(l, author, Income(order.lines, author));
        return;
      }
      PartlyPaidStep(l, user, order, grouped.Keys - rest, author);
      assert grouped.Keys - rest + {author} == grouped.Keys - (rest - {author});
      rest := rest - {author};
    }
    assert grouped.Keys - rest == grouped.Keys;
    return Returned;
  }

  /** Finding or creating the order; what it wrote is kept only if the whole transaction commits. */
  method PrepareOrder(db: Database, user: Id, source: Source) returns (reply: Reply)
    modifies db
    ensures reply.Returned? <==> Prepared(old(db.View()), user, source).Some?
    ensures reply.Returned? ==> Some(db.View()) == Prepared(old(db.View()), user, source)
  {
    match source {
      case Existing(orderId) =>
        if orderId !in db.orders || db.orders[orderId].user != user {
          return Thrown("Order not found");
        }
        return Returned;
      case NewOrder(orderId, bookIds) =>
        if bookIds == [] {
          return Thrown("Invalid request");
        }
        reply := CreateOrder(db, user, bookIds, orderId);
      case Unspecified =>
        return Thrown("Invalid request");
    }
  }

  method CreateOrderCheckout(db: Database, user: Id, source: Source, via: PaymentMethod, reference: Id,
                             providerOk: bool) returns (reply: Reply)
    modifies db
    ensures db.View() == CheckedOut(old(db.View()), user, source, via, reference, providerOk)
    ensures reply.Returned? <==>
              if via == WALLET then WalletPays(old(db.View()), user, source, reference)
              else ExternalOpens(old(db.View()), user, source, via, reference) && (via == PAYSTACK ==> providerOk)
  {
    var before := db.View();
    reply := PrepareOrder(db, user, source);
    if reply.Returned? {
      reply := ChargeOrder(db, user, source.orderId, via, reference);
    }
    if reply.Thrown? {
      db.Rollback(before);
    } else if via == PAYSTACK && !providerOk {
      var _ := Wallet.UpdateStatus(db, reference, FAILED);
      reply := Thrown("provider");
    }
  }

  /** Recording the payment and, from a wallet, making it. */
  method ChargeOrder(db: Database, user: Id, orderId: Id, via: PaymentMethod, reference: Id) returns (reply: Reply)
    requires orderId in db.orders
    modifies db
    ensures var p, row := old(db.View()), OrderRow(via, old(db.orders[orderId]), orderId);
            && (reply.Returned? <==>
                 Recordable(p, reference, row) && (via == WALLET ==> CanPay(p, user, p.orders[orderId])))
            && (reply.Returned? ==>
                 db.View() == if via == WALLET
                              then Marked(Paid(Recorded(p, reference, row), user, orderId), reference, SUCCESS)
                              else Recorded(p, reference, row))
  {
    var row := OrderRow(via, db.orders[orderId], orderId);
    reply := Wallet.RecordTransaction(db, reference, row);
    if reply.Returned? && via == WALLET {
      reply := PayFromWallet(db, user, orderId);
      if reply.Returned? {
        reply := Wallet.UpdateStatus(db, reference, SUCCESS);
      }
    }
  }

  // ---- What a paid checkout moves ----

  ghost function Charges(balances: map<Id, real>, buyer: Id, total: real): map<Id, real>
  {
    map w | w in balances :: if w == buyer then -total else 0.0
  }

  ghost function Shares(l: Ledger, user: Id, order: Order): map<Id, real>
  {
    map w | w in l.balances :: Share(order, user, w)
  }

  lemma {:induction false} ChargesSum(balances: map<Id, real>, buyer: Id, total: real)
    requires buyer in balances
    ensures Sum(Charges(balances, buyer, total)) == -total
  {
    SumSingle(Charges(balances, buyer, total), buyer);
  }

  lemma {:induction false} IncomesSum(lines: map<Id, Line>, wallets: set<Id>)
    requires AuthorsOf(lines) <= wallets
    ensures Sum(Subtotals(Prices(lines), Authors(lines), wallets)) == Sum(Prices(lines))
  {
    forall b {:trigger Authors(lines)[b]} | b in Prices(lines)
      ensures b in Authors(lines) && Authors(lines)[b] in wallets
    {
      assert lines[b].author in AuthorsOf(lines);
    }
    SumGrouped(Prices(lines), Authors(lines), wallets);
  }

  /** The shares of a payable order add up to nothing: what the buyer pays is what the authors get. */
  lemma {:induction false} SharesBalance(l: Ledger, user: Id, order: Order)
    requires user in l.balances && Exact(order.lines, order.total)
    requires AuthorsOf(order.lines) <= l.balances.Keys
    ensures Sum(Shares(l, user, order)) == 0.0
  {
    var incomes := Subtotals(Prices(order.lines), Authors(order.lines), l.balances.Keys);
    var charges := Charges(l.balances, user, order.total as real);
    assert Sum(incomes) == order.total as real by { IncomesSum(order.lines, l.balances.Keys); }
    assert Sum(charges) == -(order.total as real) by { ChargesSum(l.balances, user, order.total as real); }
    assert Sum(Shares(l, user, order)) == Sum(incomes) + Sum(charges) by {
      SharesAreParts(l, user, order);
      SumAdds(incomes, charges, Shares(l, user, order));
    }
  }

  lemma {:induction false} SharesAreParts(l: Ledger, user: Id, order: Order)
    ensures var incomes := Subtotals(Prices(order.lines), Authors(order.lines), l.balances.Keys);
            forall w :: w in l.balances ==>
              Shares(l, user, order)[w] == incomes[w] + Charges(l.balances, user, order.total as real)[w]
  {
  }

  /**
   * A checkout from the wallet either changes nothing at all or pays: the buyer's wallet loses the total,
   * each author's gains the sum of that author's lines, both when they are the same, and no money
   * appears or disappears; the order is paid and its row is settled.
   */
  lemma {:induction false} WalletCheckoutConserves(l: Ledger, user: Id, source: Source, reference: Id, providerOk: bool)
    requires forall o :: o in l.orders ==> Exact(l.orders[o].lines, l.orders[o].total)
    ensures var after := CheckedOut(l, user, source, WALLET, reference, providerOk);
            if WalletPays(l, user, source, reference) then
              && source.orderId in after.orders
              && after.orders[source.orderId].status == OrderPaid
              && after.orders[source.orderId].user == user
              && reference in after.transactions && after.transactions[reference].status == SUCCESS
              && after.balances.Keys == l.balances.Keys
              && (forall w :: w in l.balances ==>
                   after.balances[w] == l.balances[w] + Share(after.orders[source.orderId], user, w))
              && Sum(after.balances) == Sum(l.balances)
            else after == l
  {
    if WalletPays(l, user, source, reference) {
      var p := Prepared(l, user, source).value;
      var order := p.orders[source.orderId];
      PreparedExact(l, user, source);
      PaidConserves(p, user, source.orderId);
    }
  }

  lemma {:induction false} PreparedExact(l: Ledger, user: Id, source: Source)
    requires Prepared(l, user, source).Some?
    requires forall o :: o in l.orders ==> Exact(l.orders[o].lines, l.orders[o].total)
    ensures var p := Prepared(l, user, source).value;
            && p.balances == l.balances
            && p.orders[source.orderId].user == user
            && Exact(p.orders[source.orderId].lines, p.orders[source.orderId].total)
  {
    if source.NewOrder? {
      TotalIsExact(Found(l.books, source.bookIds));
    }
  }

  lemma {:induction false} PaidConserves(l: Ledger, user: Id, orderId: Id)
    requires orderId in l.orders && CanPay(l, user, l.orders[orderId])
    requires Exact(l.orders[orderId].lines, l.orders[orderId].total)
    ensures Sum(Paid(l, user, orderId).balances) == Sum(l.balances)
  {
    SharesBalance(l, user, l.orders[orderId]);
    SumAdds(l.balances, Shares(l, user, l.orders[orderId]), Paid(l, user, orderId).balances);
  }

  /**
   * A wallet checkout of an existing order pays exactly when the user owns the order, the reference is free, the
   * balance passes the guard and every author group can be credited. The status of the order plays no role.
   */
  lemma {:induction false} WalletPaysExactly(l: Ledger, user: Id, orderId: Id, reference: Id)
    ensures WalletPays(l, user, Existing(orderId), reference) <==>
              && orderId in l.orders && l.orders[orderId].user == user
              && reference !in l.transactions
              && CanPay(l, user, l.orders[orderId])
  {
  }

  /** Whoever buys from another author loses by a payment. */
  lemma {:induction false} BuyerLoses(l: Ledger, user: Id, order: Order, b: Id)
    requires CanPay(l, user, order) && Exact(order.lines, order.total)
    requires b in order.lines && order.lines[b].author != user
    ensures Share(order, user, user) < 0.0
  {
    var shares, author := Shares(l, user, order), order.lines[b].author;
    assert author in AuthorsOf(order.lines) && CanCredit(l, author, Income(order.lines, author));
    SharesBalance(l, user, order);
    SumPick(shares, user);
    forall w | w in shares - {user} ensures shares[w] >= 0.0 {
      if w !in AuthorsOf(order.lines) {
        IncomeOfStranger(order.lines, w);
      }
    }
    SumAtLeast(shares - {user}, author);
  }
}
