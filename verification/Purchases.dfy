/** What an order contains, and what buying costs whom, from the catalogue and the requested ids alone. */
module Purchases {
  import opened Common
  import opened Database
  import opened Sums
  import opened Orders

  /** The prices of the requested books, added up in the order of the request. */
  function PriceOf(books: map<Id, Book>, ids: seq<Id>): int
    requires forall id :: id in ids ==> id in books
  {
    if ids == [] then 0 else
      assert forall id :: id in ids[..|ids| - 1] ==> id in ids;
      PriceOf(books, ids[..|ids| - 1]) + books[ids[|ids| - 1]].price
  }

  /** The part of it that goes to one author. */
  function RoyaltyOf(books: map<Id, Book>, ids: seq<Id>, author: Id): int
    requires forall id :: id in ids ==> id in books
  {
    if ids == [] then 0 else
      assert forall id :: id in ids[..|ids| - 1] ==> id in ids;
      var last := books[ids[|ids| - 1]];
      RoyaltyOf(books, ids[..|ids| - 1], author) + if last.author == author then last.price else 0
  }

  /** The request names existing books, each once. */
  predicate Orderable(books: map<Id, Book>, ids: seq<Id>)
  {
    NoDuplicates(ids) && forall id :: id in ids ==> id in books
  }

  lemma {:induction false} FoundOneMore(books: map<Id, Book>, ids: seq<Id>)
    requires ids != [] && Orderable(books, ids)
    ensures var front, last := ids[..|ids| - 1], ids[|ids| - 1];
      && Orderable(books, front) && last !in Found(books, front)
      && Found(books, ids) == Found(books, front)[last := Line(books[last].price, books[last].author)]
  {
    var front, last := ids[..|ids| - 1], ids[|ids| - 1];
    assert ids == front + [last];
    forall id | id in front ensures id in books && id != last {
      assert id in ids;
    }
    assert forall id :: id in ids <==> id in front || id == last;
  }

  lemma {:induction false} FoundSums(books: map<Id, Book>, ids: seq<Id>, author: Id)
    requires Orderable(books, ids)
    ensures Sum(Prices(Found(books, ids))) == PriceOf(books, ids) as real
    ensures Income(Found(books, ids), author) == RoyaltyOf(books, ids, author) as real
  {
    if ids == [] {
      assert Found(books, ids) == map[] && Prices(Found(books, ids)) == map[];
      IncomeOfStranger(Found(books, ids), author);
    } else {
      var front, last := ids[..|ids| - 1], ids[|ids| - 1];
      FoundOneMore(books, ids);
      FoundSums(books, front, author);
      var before, line := Found(books, front), Line(books[last].price, books[last].author);
      IncomeWithLine(before, last, line, author);
      PricesPick(before[last := line], last);
      assert before[last := line] - {last} == before;
    }
  }

  lemma {:induction false} NewOrderIs(l: Ledger, user: Id, bookIds: seq<Id>, orderId: Id)
    requires orderId !in l.orders && Orderable(l.books, bookIds)
    ensures OrderAccepted(l, bookIds, orderId)
    ensures CreatedOrder(l, user, bookIds, orderId)
            == l.(orders := l.orders[orderId :=
                    Order(user, OrderPending, PriceOf(l.books, bookIds), Found(l.books, bookIds))])
  {
    CountsAgreeMeans(l, bookIds);
    FoundSums(l.books, bookIds, user);
    TotalIsExact(Found(l.books, bookIds));
  }

  /**
   * A list of existing books, each once, makes a pending order of the user that has exactly these books as lines, each
   * at its price and author of now; the total is the sum of these prices. Any other list leaves an empty order, and an
   * id that is taken nothing.
   */
  lemma {:induction false} OrderHolds(l: Ledger, user: Id, bookIds: seq<Id>, orderId: Id)
    requires orderId !in l.orders
    ensures var after := CreatedOrder(l, user, bookIds, orderId);
      && orderId in after.orders && after == l.(orders := l.orders[orderId := after.orders[orderId]])
      && var order := after.orders[orderId];
      && order.user == user && order.status == OrderPending
      && (OrderAccepted(l, bookIds, orderId) <==> Orderable(l.books, bookIds))
      && (if Orderable(l.books, bookIds) then
            && (forall b :: b in order.lines <==> b in bookIds)
            && (forall b :: b in order.lines ==>
                  order.lines[b].price == l.books[b].price && order.lines[b].author == l.books[b].author)
            && order.total == PriceOf(l.books, bookIds)
          else order.total == 0 && order.lines == map[])
  {
    CountsAgreeMeans(l, bookIds);
    if Orderable(l.books, bookIds) {
      NewOrderIs(l, user, bookIds, orderId);
    }
  }

  // ---- Buying a new order from the wallet ----

  /** Everything a wallet checkout of a new order asks of the state. */
  predicate Buyable(l: Ledger, user: Id, orderId: Id, bookIds: seq<Id>, reference: Id)
  {
    && bookIds != [] && Orderable(l.books, bookIds)
    && orderId !in l.orders && reference !in l.transactions
    && PriceOf(l.books, bookIds) > 0
    && user in l.balances && !l.below(l.balances[user], PriceOf(l.books, bookIds) as real)
    && forall id :: id in bookIds ==>
         l.books[id].author in l.balances && RoyaltyOf(l.books, bookIds, l.books[id].author) > 0
  }

  lemma {:induction false} FoundAuthors(books: map<Id, Book>, ids: seq<Id>, author: Id)
    requires Orderable(books, ids)
    ensures author in AuthorsOf(Found(books, ids)) <==> exists id :: id in ids && books[id].author == author
  {
    var lines := Found(books, ids);
    if author in AuthorsOf(lines) {
      var b :| b in lines && lines[b].author == author;
      assert b in ids && books[b].author == author;
    }
    if id :| id in ids && books[id].author == author {
      assert id in lines && lines[id].author == author;
    }
  }

  lemma {:induction false} AuthorsPaidIff(l: Ledger, ids: seq<Id>)
    requires Orderable(l.books, ids)
    ensures var lines := Found(l.books, ids);
      (forall a :: a in AuthorsOf(lines) ==> CanCredit(l, a, Income(lines, a))) <==>
        forall id :: id in ids ==>
          l.books[id].author in l.balances && RoyaltyOf(l.books, ids, l.books[id].author) > 0
  {
    var lines := Found(l.books, ids);
    forall id | id in ids
      ensures l.books[id].author in AuthorsOf(lines)
      ensures Income(lines, l.books[id].author) == RoyaltyOf(l.books, ids, l.books[id].author) as real
    {
      FoundAuthors(l.books, ids, l.books[id].author);
      FoundSums(l.books, ids, l.books[id].author);
    }
    forall a | a in AuthorsOf(lines) ensures exists id :: id in ids && l.books[id].author == a {
      FoundAuthors(l.books, ids, a);
    }
  }

  lemma {:induction false} PayableIffBuyable(l: Ledger, user: Id, orderId: Id, bookIds: seq<Id>, reference: Id)
    ensures WalletPays(l, user, NewOrder(orderId, bookIds), reference) <==>
              Buyable(l, user, orderId, bookIds, reference)
  {
    CountsAgreeMeans(l, bookIds);
    if bookIds != [] && orderId !in l.orders && Orderable(l.books, bookIds) {
      NewOrderIs(l, user, bookIds, orderId);
      AuthorsPaidIff(l, bookIds);
    }
  }

  /** What a paid checkout writes besides the balances: the order is PAID and its row, over its total, is SUCCESS. */
  ghost predicate PaidFrom(p: Ledger, after: Ledger, orderId: Id, order: Order, reference: Id)
  {
    && after == p.(balances := after.balances, transactions := after.transactions, orders := after.orders)
    && after.orders == p.orders[orderId := order.(status := OrderPaid)]
    && after.transactions
       == p.transactions[reference := Transaction(ORDER, WALLET, SUCCESS, order.total as real,
                                                  None, None, None, Some(orderId))]
  }

  lemma {:induction false} PaidRows(l: Ledger, p: Ledger, user: Id, source: Source, reference: Id, providerOk: bool)
    requires WalletPays(l, user, source, reference) && Prepared(l, user, source) == Some(p)
    ensures PaidFrom(p, CheckedOut(l, user, source, WALLET, reference, providerOk), source.orderId,
                     p.orders[source.orderId], reference)
  {
    PreparedWrites(l, user, source);
  }

  /** The ledger with the new order in it. */
  function Ordered(l: Ledger, user: Id, orderId: Id, bookIds: seq<Id>): Ledger
    requires Orderable(l.books, bookIds)
  {
    l.(orders := l.orders[orderId := Order(user, OrderPending, PriceOf(l.books, bookIds), Found(l.books, bookIds))])
  }

  lemma {:induction false} PayablePrepares(l: Ledger, user: Id, orderId: Id, bookIds: seq<Id>, reference: Id)
    requires Buyable(l, user, orderId, bookIds, reference)
    ensures WalletPays(l, user, NewOrder(orderId, bookIds), reference)
    ensures Prepared(l, user, NewOrder(orderId, bookIds)) == Some(Ordered(l, user, orderId, bookIds))
  {
    PayableIffBuyable(l, user, orderId, bookIds, reference);
    NewOrderIs(l, user, bookIds, orderId);
  }

  lemma {:induction false} PurchaseBalances(l: Ledger, user: Id, orderId: Id, bookIds: seq<Id>, reference: Id,
                                            providerOk: bool, w: Id)
    requires Orderable(l.books, bookIds) && w in l.balances
    requires WalletPays(l, user, NewOrder(orderId, bookIds), reference)
    requires Prepared(l, user, NewOrder(orderId, bookIds)) == Some(Ordered(l, user, orderId, bookIds))
    ensures var after := CheckedOut(l, user, NewOrder(orderId, bookIds), WALLET, reference, providerOk);
      && after.balances.Keys == l.balances.Keys
      && after.balances[w] == l.balances[w] + RoyaltyOf(l.books, bookIds, w) as real
                              - if w == user then PriceOf(l.books, bookIds) as real else 0.0
  {
    CheckedOutBalances(l, user, NewOrder(orderId, bookIds), reference, providerOk);
    FoundSums(l.books, bookIds, w);
  }

  lemma {:induction false} OrderedRows(l: Ledger, after: Ledger, user: Id, orderId: Id, bookIds: seq<Id>, reference: Id)
    requires Orderable(l.books, bookIds)
    requires var p := Ordered(l, user, orderId, bookIds); PaidFrom(p, after, orderId, p.orders[orderId], reference)
    ensures after == l.(balances := after.balances, transactions := after.transactions, orders := after.orders)
    ensures orderId in after.orders && after.orders == l.orders[orderId := after.orders[orderId]]
    ensures after.orders[orderId].status == OrderPaid && after.orders[orderId].user == user
    ensures after.transactions
            == l.transactions[reference := Transaction(ORDER, WALLET, SUCCESS, PriceOf(l.books, bookIds) as real,
                                                       None, None, None, Some(orderId))]
  {
  }

  /**
   * A wallet checkout of a new order charges the buyer exactly the current prices of the requested books, pays each
   * author the prices of that author's books among them, and leaves the order PAID and a SUCCESS row over its total;
   * unless the state allows all of it, nothing changes.
   */
  lemma {:induction false} PurchaseCharges(l: Ledger, user: Id, orderId: Id, bookIds: seq<Id>, reference: Id,
                                           providerOk: bool)
    ensures var after := CheckedOut(l, user, NewOrder(orderId, bookIds), WALLET, reference, providerOk);
      if !Buyable(l, user, orderId, bookIds, reference) then after == l else
        && after == l.(balances := after.balances, transactions := after.transactions, orders := after.orders)
        && after.balances.Keys == l.balances.Keys
        && (forall w :: w in l.balances ==>
             after.balances[w] == l.balances[w] + RoyaltyOf(l.books, bookIds, w) as real
                                  - if w == user then PriceOf(l.books, bookIds) as real else 0.0)
        && orderId in after.orders && after.orders == l.orders[orderId := after.orders[orderId]]
        && after.orders[orderId].status == OrderPaid && after.orders[orderId].user == user
        && after.transactions
           == l.transactions[reference := Transaction(ORDER, WALLET, SUCCESS, PriceOf(l.books, bookIds) as real,
                                                      None, None, None, Some(orderId))]
  {
    PayableIffBuyable(l, user, orderId, bookIds, reference);
    if Buyable(l, user, orderId, bookIds, reference) {
      PayablePrepares(l, user, orderId, bookIds, reference);
      PaidRows(l, Ordered(l, user, orderId, bookIds), user, NewOrder(orderId, bookIds), reference, providerOk);
      OrderedRows(l, CheckedOut(l, user, NewOrder(orderId, bookIds), WALLET, reference, providerOk), user, orderId,
                  bookIds, reference);
      forall w | w in l.balances
        ensures var after := CheckedOut(l, user, NewOrder(orderId, bookIds), WALLET, reference, providerOk);
          && after.balances.Keys == l.balances.Keys
          && after.balances[w] == l.balances[w] + RoyaltyOf(l.books, bookIds, w) as real
                                  - if w == user then PriceOf(l.books, bookIds) as real else 0.0
      {
        PurchaseBalances(l, user, orderId, bookIds, reference, providerOk, w);
      }
    }
  }

  // ---- Other payment methods ----

  /** The row a checkout by another method leaves: pending over the order's total, or failed when Paystack refuses. */
  function ExternalRow(via: PaymentMethod, total: int, orderId: Id, providerOk: bool): Transaction
  {
    Transaction(ORDER, via, if via == PAYSTACK && !providerOk then FAILED else PENDING, total as real,
                None, None, None, Some(orderId))
  }

  /**
   * A checkout of an existing order by another method records a row over the total exactly when the user owns the order
   * and the reference is free; nothing else changes, whatever the provider answers.
   */
  lemma {:induction false} ExternalCheckoutRecords(l: Ledger, user: Id, orderId: Id, via: PaymentMethod, reference: Id,
                                                   providerOk: bool)
    requires via != WALLET
    ensures CheckedOut(l, user, Existing(orderId), via, reference, providerOk)
            == if orderId in l.orders && l.orders[orderId].user == user && reference !in l.transactions
               then l.(transactions :=
                         l.transactions[reference := ExternalRow(via, l.orders[orderId].total, orderId, providerOk)])
               else l
  {
  }

  lemma {:induction false} ExternalRows(l: Ledger, user: Id, source: Source, via: PaymentMethod, reference: Id,
                                        providerOk: bool)
    requires via != WALLET && Prepared(l, user, source).Some?
    ensures var p := Prepared(l, user, source).value;
      var row := ExternalRow(via, p.orders[source.orderId].total, source.orderId, providerOk);
      CheckedOut(l, user, source, via, reference, providerOk)
      == if reference !in l.transactions then p.(transactions := p.transactions[reference := row]) else l
  {
    PreparedWrites(l, user, source);
  }

  /** For a new order the same, together with the order at its price of now. */
  lemma {:induction false} ExternalPurchaseRecords(l: Ledger, user: Id, orderId: Id, bookIds: seq<Id>,
                                                   via: PaymentMethod, reference: Id, providerOk: bool)
    requires via != WALLET
    ensures CheckedOut(l, user, NewOrder(orderId, bookIds), via, reference, providerOk)
            == if bookIds != [] && Orderable(l.books, bookIds) && orderId !in l.orders && reference !in l.transactions
               then CreatedOrder(l, user, bookIds, orderId).(transactions :=
                      l.transactions[reference := ExternalRow(via, PriceOf(l.books, bookIds), orderId, providerOk)])
               else l
  {
    CountsAgreeMeans(l, bookIds);
    if bookIds != [] && Orderable(l.books, bookIds) && orderId !in l.orders {
      NewOrderIs(l, user, bookIds, orderId);
      ExternalRows(l, user, NewOrder(orderId, bookIds), via, reference, providerOk);
    }
  }
}
