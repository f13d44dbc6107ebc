/** ServerMain as an object. Each method is one critical section of a client handler, of the
    dispatcher or of a match pass, and takes the step of the same name of the transition system. */
module Servers {
  import opened Orders
  import opened Sequences
  import opened Trades
  import opened Matching
  import opened Entries
  import opened Purses
  import opened Settlement
  import opened UserStores
  import opened Handlers
  import opened Books
  import opened OrderBooks
  import opened Exchanges
  import opened Reachable
  import opened Cancels
  import opened Csv
  import opened Restarts

  class Server {
    const orderBook: OrderBook
    const userStore: UserStore
    const ids: IdSource
    var pendingProducts: seq<string>

    constructor (orderBook: OrderBook, userStore: UserStore, ids: IdSource)
      ensures this.orderBook == orderBook && this.userStore == userStore && this.ids == ids
      ensures pendingProducts == []
    {
      this.orderBook, this.userStore, this.ids, pendingProducts := orderBook, userStore, ids, [];
    }

    /** The objects hold what the state s says. */
    ghost predicate Shows(s: Exchange)
      reads this, orderBook, orderBook.Entries(), userStore, userStore.WalletSet(), ids
    {
      && orderBook.Valid() && userStore.Valid()
      && orderBook.Abstract() == s.book && userStore.Accounts() == s.ledger
      && ids.nextId == s.nextId && pendingProducts == s.pending
    }

    /** REGISTER, once userExists has said no. */
    method Register(user: string, ghost s: Exchange)
      requires Shows(s) && Enabled(s, Step.Register(user))
      modifies userStore
      ensures Shows(Next(s, Step.Register(user)))
    {
      userStore.AddUser(user);
    }

    method Deposit(user: string, currency: string, amount: real, ghost s: Exchange) returns (r: Outcome)
      requires Shows(s) && Enabled(s, Step.Deposit(user, currency, amount))
      modifies userStore, userStore.WalletSet()
      ensures Shows(Next(s, Step.Deposit(user, currency, amount)))
      ensures r == Purses.Insert(s.ledger[user], currency, amount).outcome
    {
      r := DepositTo(userStore, user, currency, amount);
    }

    method Withdraw(user: string, currency: string, amount: real, ghost s: Exchange) returns (r: Outcome)
      requires Shows(s) && Enabled(s, Step.Withdraw(user, currency, amount))
      modifies userStore, userStore.WalletSet()
      ensures Shows(Next(s, Step.Withdraw(user, currency, amount)))
      ensures r == Remove(s.ledger[user], currency, amount).outcome
    {
      r := WithdrawFrom(userStore, user, currency, amount);
    }

    /** ASK and BID, first part: a new order with a new id, whose funds are locked. */
    method Place(user: string, orderType: OrderType, product: string, amount: real, price: real, now: string, ghost s: Exchange)
      returns (order: Order, r: Outcome)
      requires Shows(s) && Client(s, user) && orderType != Sale
      modifies userStore, userStore.WalletSet(), ids
      ensures Enabled(s, Step.Place(order)) && Shows(Next(s, Step.Place(order)))
      ensures order == Order(Terms(price, now, product, orderType, user, s.nextId), amount)
      ensures r == Fulfill(s.ledger[user], order).outcome
    {
      var id := ids.Take();
      order := Order(Terms(price, now, product, orderType, user, id), amount);
      PlaceParts(s, order);
      assert userStore.Accounts() == s.ledger && orderBook.Abstract() == s.book;
      r := LockFor(userStore, user, order);
      assert orderBook.Valid() && orderBook.Abstract() == s.book;
    }

    /** ASK and BID, second part: into the book. */
    method Insert(order: Order, ghost s: Exchange, ghost k: nat)
      requires Shows(s) && Sound(s) && k < |s.accepted| && s.accepted[k] == order
      modifies orderBook
      ensures Shows(Next(s, Step.Insert(k)))
    {
      assert AcceptedOk(s, order);
      forall e | e in orderBook.Entries() ensures e.terms.id != order.terms.id {
        EntryIsLive(orderBook.orderMap, e);
      }
      orderBook.InsertNewOrder(order);
    }

    /** startMatchingProduct. */
    method Trigger(product: string, ghost s: Exchange)
      requires Shows(s) && Enabled(s, Step.Trigger(product))
      modifies this
      ensures Shows(Next(s, Step.Trigger(product)))
      ensures pendingProducts == old(pendingProducts) + if product in old(pendingProducts) then [] else [product]
    {
      var k := 0;
      while k < |pendingProducts| && pendingProducts[k] != product
        invariant k <= |pendingProducts| && product !in pendingProducts[..k]
      {
        k := k + 1;
      }
      if k == |pendingProducts| {
        pendingProducts := pendingProducts + [product];
      }
    }

    /** startMatching, before its loop: read the products ... */
    method ReadProducts(ghost s: Exchange) returns (products: seq<string>)
      requires Shows(s) && s.startUp.Fresh?
      ensures Enabled(s, Step.ReadProducts(products)) && Shows(Next(s, Step.ReadProducts(products)))
    {
      products := orderBook.GetKnownProducts();
      assert orderBook.Abstract() == s.book;
    }

    /** ... and queue them all. */
    method FillQueue(products: seq<string>, ghost s: Exchange)
      requires Shows(s) && s.startUp == ProductsRead(products)
      modifies this
      ensures Shows(Next(s, Step.FillQueue)) && pendingProducts == old(pendingProducts) + products
    {
      ghost var before := pendingProducts;
      for k := 0 to |products|
        invariant pendingProducts == before + products[..k]
      {
        TakeOneMore(products, k);
        pendingProducts := pendingProducts + [products[k]];
      }
      assert products[..|products|] == products;
    }

    /** The dispatcher's loop takes the product in front. */
    method Dequeue(ghost s: Exchange) returns (product: string)
      requires Shows(s) && Enabled(s, Step.Dequeue)
      modifies this
      ensures Shows(Next(s, Step.Dequeue)) && product == s.pending[0]
      ensures old(pendingProducts) == [product] + pendingProducts
    {
      product := pendingProducts[0];
      pendingProducts := pendingProducts[1..];
    }

    /** The asynchronous task: one match pass. Its exception, if there is one, is dropped. */
    method Match(product: string, now: string, ghost s: Exchange)
      returns (sales: seq<Order>, error: Option<Error>, ghost step: Step)
      requires Shows(s) && product in s.passes
      modifies orderBook, orderBook.Entries(), userStore, userStore.WalletSet(), ids
      ensures step.Match? && step.product == product && Enabled(s, step) && Shows(Next(s, step))
      ensures error == SettleAll(s.ledger, Merge(step.asks, step.bids)).error
      ensures error.None? ==> Next(s, step).book.sales == s.book.sales + sales
    {
      ghost var trades, booked;
      sales, error, trades, booked := orderBook.MatchAsksToBids(product, now, userStore, ids);
      step := MatchStep(s, product, now, trades);
    }

    /** CANCEL, first part: a copy of the order, if the client has it. */
    method CopyOwn(user: string, id: nat, ghost s: Exchange) returns (order: Option<Order>)
      requires Shows(s)
      ensures Shows(s) && (order.Some? <==> Copying(s, user, id))
      ensures order.Some? ==> order.value == OwnCopy(s, user, id)
    {
      var orders := orderBook.GetOrdersForUser(user);
      var k := FirstWithId(orders, id);
      assert orderBook.Abstract() == s.book;
      order := if k == |orders| then None else Some(orders[k]);
    }

    /** Second part: unlock what the copy holds locked, and do not look at the result. */
    method ReleaseCopy(user: string, order: Order, ghost s: Exchange, ghost s': Exchange)
      requires Shows(s) && Client(s, user) && order.terms.username == user && s' == Unlocked(s, order)
      modifies userStore, userStore.WalletSet()
      ensures Shows(s')
    {
      assert userStore.Accounts() == s.ledger && orderBook.Abstract() == s.book;
      var _ := UnlockFor(userStore, user, order);
      assert orderBook.Abstract() == s.book;
    }

    /** Third part: remove the order, as it is by now. */
    method EraseOrder(user: string, id: nat, ghost s: Exchange, ghost x: Terms, ghost s': Exchange) returns (found: bool)
      requires Shows(s) && x.username == user && x.id == id && s' == Erased(s, x)
      modifies orderBook
      ensures Shows(s') && (found <==> RemoveById(s.book, user, id).Some?)
    {
      ghost var l := userStore.Accounts();
      found := orderBook.RemoveOrderById(user, id);
      assert userStore.Accounts() == l;
    }

    /** The three parts, one after the other. */
    method CancelOnto(user: string, id: nat, ghost s: Exchange, ghost s': Exchange) returns (found: bool)
      requires Shows(s) && Client(s, user) && CancelsTo(s, user, id, s')
      modifies orderBook, userStore, userStore.WalletSet()
      ensures Shows(s') && (found <==> Copying(s, user, id))
    {
      var order := CopyOwn(user, id, s);
      if order.None? {
        return false;
      }
      ghost var s1 := Unlocked(s, order.value);
      ReleaseCopy(user, order.value, s, s1);
      found := EraseOrder(user, id, s1, order.value.terms, s');
    }

    /** CANCEL, with nothing in between: the step CancelById. */
    method CancelById(user: string, id: nat, ghost s: Exchange) returns (found: bool)
      requires Shows(s) && Sound(s) && Client(s, user)
      modifies orderBook, userStore, userStore.WalletSet()
      ensures Shows(AfterCancel(s, user, id))
      ensures found <==> exists p, k :: OwnedAt(s.book, p, k, user, id)
    {
      CancelInParts(s, user, id);
      found := CancelOnto(user, id, s, AfterCancel(s, user, id));
    }
  }

  /** The server as it comes up on a CSV file and the users' saved wallets. */
  method Boot(file: Option<string>, read: Reader, store: UserStore, ids: IdSource)
    returns (server: Server, ghost s: Exchange)
    requires store.Valid() && forall u, c | u != DEFAULT_USER :: LockedOf(store.Accounts(), u, c) >= 0.0
    modifies ids
    ensures Initial(s) && server.Shows(s) && s.ledger == old(store.Accounts())
    ensures Loaded(s.book.orders, Parsed(Lines(file.GetOr("")), read, old(ids.nextId)))
  {
    ghost var lines, first, l := Lines(file.GetOr("")), ids.nextId, store.Accounts();
    var lists := ReadCsv(file, read, ids);
    LoadedIsInitial(lists, lines, read, first, l);
    var orderBook := new OrderBook(lists);
    server := new Server(orderBook, store, ids);
    assert store.Accounts() == l;
    s := ComeUp(lists, l, first + |Parsed(lines, read, first)|);
  }

  /** A pass that is due is a step, whichever way it breaks ties and whether it throws or not. */
  lemma {:induction false} MatchStep(s: Exchange, product: string, now: string, trades: seq<Trade>) returns (step: Step)
    requires product in s.passes && IsPass(ListOf(s.book, product), trades)
    ensures step.Match? && step.product == product && Enabled(s, step) && Merge(step.asks, step.bids) == trades
    ensures var s', sales, p := Next(s, step), SalesOf(trades, product, now, s.nextId), SettleAll(s.ledger, trades);
      && s'.ledger == p.ledger && s'.nextId == s.nextId + |Reached(s.ledger, trades)| && s'.pending == s.pending
      && (p.error.None? ==>
            s'.book == AfterPass(s.book, product, trades, sales) && s'.book.sales == s.book.sales + sales)
      && (p.error.Some? ==> s'.book == Booked(s.book, product, Reached(s.ledger, trades), []))
  {
    var asks, bids :| Ranked(ListOf(s.book, product), asks, bids) && trades == Merge(asks, bids);
    step := Step.Match(product, now, asks, bids);
    MatchParts(s, product, now, trades);
  }

  lemma {:induction false} MatchParts(s: Exchange, product: string, now: string, trades: seq<Trade>)
    ensures var s', p := AfterMatch(s, product, now, trades), SettleAll(s.ledger, trades);
      var sales := SalesOf(trades, product, now, s.nextId);
      && s'.ledger == p.ledger && s'.nextId == s.nextId + |Reached(s.ledger, trades)| && s'.pending == s.pending
      && (p.error.None? ==>
            s'.book == AfterPass(s.book, product, trades, sales) && s'.book.sales == s.book.sales + sales)
      && (p.error.Some? ==> s'.book == Booked(s.book, product, Reached(s.ledger, trades), []))
  {
    ReachedIsPrefix(s.ledger, trades);
    RemoveMatchedPurges(Booked(s.book, product, trades, SalesOf(trades, product, now, s.nextId)), product, 0);
  }

  /** What the three parts of a CANCEL lead to: nothing, if there is nothing to copy. */
  ghost predicate CancelsTo(s: Exchange, user: string, id: nat, s': Exchange)
    requires Client(s, user)
  {
    if Copying(s, user, id) then
      var o := OwnCopy(s, user, id);
      && o.terms.username == user && o.terms.id == id && RemoveById(s.book, user, id).Some?
      && s' == Erased(Unlocked(s, o), o.terms)
    else s' == s
  }

  lemma {:induction false} CancelInParts(s: Exchange, user: string, id: nat)
    requires Sound(s) && Client(s, user)
    ensures CancelsTo(s, user, id, AfterCancel(s, user, id))
    ensures Copying(s, user, id) <==> exists p, k :: OwnedAt(s.book, p, k, user, id)
  {
    if Copying(s, user, id) {
      var product, k := CopyFinds(s, user, id);
      CancelsCopy(s, user, id, product, k);
      UnlockThenErase(s, user, product, k, id);
      RemoveByIdDrops(s.book, user, id, product, k);
    } else {
      NothingToCancel(s, user, id);
    }
  }

  lemma {:induction false} NothingToCancel(s: Exchange, user: string, id: nat)
    requires Sound(s) && Client(s, user) && !Copying(s, user, id)
    ensures AfterCancel(s, user, id) == s && !exists p, k :: OwnedAt(s.book, p, k, user, id)
  {
    forall p, k: nat ensures !OwnedAt(s.book, p, k, user, id) {
      if OwnedAt(s.book, p, k, user, id) {
        OwnedIsReported(s.book, p, k, user, id);
      }
    }
  }

  lemma {:induction false} PlaceParts(s: Exchange, o: Order)
    requires Enabled(s, Step.Place(o))
    ensures var s', effect := Next(s, Step.Place(o)), Fulfill(s.ledger[o.terms.username], o);
      && s'.book == s.book && s'.ledger == s.ledger[o.terms.username := effect.purse]
      && s'.nextId == s.nextId + 1 && s'.pending == s.pending
  {
  }

  method FirstWithId(orders: seq<Order>, id: nat) returns (k: nat)
    ensures k == FindOrder(orders, id)
  {
    k := 0;
    while k < |orders| && orders[k].terms.id != id
      invariant 0 <= k <= |orders|
      invariant forall i | 0 <= i < k :: orders[i].terms.id != id
    {
      k := k + 1;
    }
    var _ := FindOrder(orders, id);
  }

  lemma {:induction false} EntryIsLive(lists: map<string, seq<Entry>>, e: Entry)
    requires ListsOk(lists) && e in EntriesOf(lists)
    ensures Live(Book(ListValues(lists), map[], []), e.terms)
  {
    var p :| p in lists && e in lists[p];
    var k :| 0 <= k < |lists[p]| && lists[p][k] == e;
    assert Values(lists[p])[k].terms == e.terms;
  }
}
