/** Settling one fill between two entries of the book, in place. */
module Settling {
  import opened Orders
  import opened Tokenizer
  import opened Trades
  import opened Matching
  import opened Books
  import opened Entries
  import opened Purses
  import opened Settlement
  import opened UserStores

  /** The buyer's half of processSale. */
  method Charge(store: UserStore, buyer: string, base: string, quote: string, qty: real, cost: real, ghost t: Trade)
    returns (error: Option<Error>)
    requires store.Valid() && buyer in store.users
    requires buyer == t.bid.username && qty == t.qty && cost == Cost(t)
    modifies store.users[buyer]
    ensures Posting(store.Accounts(), error) == ChargeBuyer(old(store.Accounts()), t, base, quote)
  {
    var wallet := store.users[buyer];
    var spent := wallet.SpendLocked(quote, cost);
    if spent != Returned(true) && buyer != DEFAULT_USER {
      error := Some(BuyerFunds);
    } else {
      var received := wallet.InsertCurrency(base, qty);
      error := if received.Threw? then Some(received.error) else None;
    }
    assert store.Accounts() == old(store.Accounts())[buyer := wallet.Contents()];
  }

  /** The seller's half. */
  method Pay(store: UserStore, seller: string, base: string, quote: string, qty: real, cost: real, ghost t: Trade)
    returns (error: Option<Error>)
    requires store.Valid() && seller in store.users
    requires seller == t.ask.username && qty == t.qty && cost == Cost(t)
    modifies store.users[seller]
    ensures Posting(store.Accounts(), error) == PaySeller(old(store.Accounts()), t, base, quote)
  {
    var wallet := store.users[seller];
    var given := wallet.SpendLocked(base, qty);
    if given != Returned(true) && seller != DEFAULT_USER {
      error := Some(SellerFunds);
    } else {
      var paid := wallet.InsertCurrency(quote, cost);
      error := if paid.Threw? then Some(paid.error) else None;
    }
    assert store.Accounts() == old(store.Accounts())[seller := wallet.Contents()];
  }

  /** The refund to a buyer who bid above the ask. */
  method GiveBack(store: UserStore, buyer: string, quote: string, bidPrice: real, askPrice: real, qty: real, ghost t: Trade)
    requires store.Valid() && buyer in store.users
    requires buyer == t.bid.username && bidPrice == t.bid.price && askPrice == t.ask.price && qty == t.qty
    modifies store.users[buyer]
    ensures store.Accounts() == RefundBuyer(old(store.Accounts()), t, quote)
  {
    var wallet := store.users[buyer];
    if bidPrice > askPrice {
      var refund := (bidPrice - askPrice) * qty;
      assert refund == Refund(t);
      var _ := wallet.UnlockCurrency(quote, refund);
    }
    assert store.Accounts() == old(store.Accounts())[buyer := wallet.Contents()];
  }

  /** processSale from the point where the product is known to name two currencies. */
  method SettleBoth(store: UserStore, buyer: string, seller: string, sale: Order, base: string, quote: string,
                    bidPrice: real, askPrice: real, ghost t: Trade)
    returns (error: Option<Error>)
    requires store.Valid() && buyer in store.users && seller in store.users
    requires buyer == t.bid.username && seller == t.ask.username
    requires sale.terms.price == t.ask.price && sale.amount == t.qty
    requires ExtractTokens(t.ask.product, '/') == [base, quote]
    requires bidPrice == t.bid.price && askPrice == t.ask.price
    modifies store.users[buyer], store.users[seller]
    ensures Posting(store.Accounts(), error) == ProcessSale(old(store.Accounts()), t)
  {
    var totalCost := sale.terms.price * sale.amount;
    assert totalCost == Cost(t);
    error := Charge(store, buyer, base, quote, sale.amount, totalCost, t);
    if error.Some? {
      return;
    }
    error := Pay(store, seller, base, quote, sale.amount, totalCost, t);
    if error.Some? {
      return;
    }
    GiveBack(store, buyer, quote, bidPrice, askPrice, sale.amount, t);
  }

  /** processSale. An exception leaves the wallets as they are at the throw. */
  method SettleSale(store: UserStore, buyer: string, seller: string, sale: Order,
                    bidPrice: real, askPrice: real, ghost t: Trade)
    returns (error: Option<Error>)
    requires store.Valid() && buyer in store.users && seller in store.users
    requires buyer == t.bid.username && seller == t.ask.username
    requires sale.terms.product == t.ask.product && sale.terms.price == t.ask.price && sale.amount == t.qty
    requires bidPrice == t.bid.price && askPrice == t.ask.price
    modifies store.users[buyer], store.users[seller]
    ensures Posting(store.Accounts(), error) == ProcessSale(old(store.Accounts()), t)
  {
    ghost var l := store.Accounts();
    var tokens := Tokenize(sale.terms.product, '/');
    assert store.Accounts() == l;
    if |tokens| != 2 {
      return Some(InvalidProduct);
    }
    error := SettleBoth(store, buyer, seller, sale, tokens[0], tokens[1], bidPrice, askPrice, t);
  }

  /** The three branches of the inner loop: the smaller amount is exhausted, the larger sliced. */
  method Slice(ask: Entry, bid: Entry) returns (amount: real)
    requires ask != bid
    modifies ask, bid
    ensures amount == FillOf(old(ask.Value()), old(bid.Value())).qty
    ensures ask.amount == old(ask.amount) - amount && bid.amount == old(bid.amount) - amount
  {
    if bid.amount == ask.amount {
      amount := ask.amount;
      bid.amount := 0.0;
      ask.amount := 0.0;
    } else if bid.amount > ask.amount {
      amount := ask.amount;
      bid.amount := bid.amount - ask.amount;
      ask.amount := 0.0;
    } else {
      amount := bid.amount;
      ask.amount := ask.amount - bid.amount;
      bid.amount := 0.0;
    }
  }

  /** Buyer and seller of a fill, looked up in this order. */
  method LookupBoth(store: UserStore, buyer: string, seller: string) returns (known: bool, ghost l: Ledger)
    requires store.Valid()
    modifies store
    ensures store.Valid() && fresh(store.WalletSet() - old(store.WalletSet()))
    ensures l == store.Accounts()
    ensures known ==> buyer in store.users && seller in store.users
    ensures known ==> GetUser(old(store.Accounts()), buyer).Some?
    ensures known ==> GetUser(GetUser(old(store.Accounts()), buyer).value, seller) == Some(l)
    ensures !known ==> forall t: Trade | t.bid.username == buyer && t.ask.username == seller ::
      Settle(old(store.Accounts()), t) == Posting(l, Some(UnknownUser))
  {
    var b := store.Lookup(buyer);
    if b.None? {
      return false, store.Accounts();
    }
    var s := store.Lookup(seller);
    return s.Some?, store.Accounts();
  }

  /** A fill whose users are known: slice both orders, record the sale, settle it. */
  method Deal(ask: Entry, bid: Entry, product: string, now: string, store: UserStore, ids: IdSource, ghost t: Trade)
    returns (sale: Order, error: Option<Error>)
    requires ask != bid && ask.terms.product == product && store.Valid() && t == FillOf(ask.Value(), bid.Value())
    requires bid.terms.username in store.users && ask.terms.username in store.users
    modifies ask, bid, store.WalletSet(), ids
    ensures Posting(store.Accounts(), error) == ProcessSale(old(store.Accounts()), t)
    ensures ask.amount == old(ask.amount) - t.qty && bid.amount == old(bid.amount) - t.qty
    ensures sale == SaleOf(t, product, now, old(ids.nextId)) && ids.nextId == old(ids.nextId) + 1
  {
    var id := ids.Take();
    var amount := Slice(ask, bid);
    assert store.Accounts() == old(store.Accounts());
    sale := Order(Terms(ask.terms.price, now, product, Sale, DEFAULT_USER, id), amount);
    error := SettleSale(store, bid.terms.username, ask.terms.username, sale, bid.terms.price, ask.terms.price, t);
  }

  /** One fill between an open ask and an open bid: look both users up, slice both orders, record
      the sale, settle it. No sale means that a user was unknown and nothing was sliced. */
  method Fill(ask: Entry, bid: Entry, product: string, now: string, store: UserStore, ids: IdSource)
    returns (sale: Option<Order>, error: Option<Error>)
    requires ask != bid && ask.terms.product == product && store.Valid()
    modifies ask, bid, store, store.WalletSet(), ids
    ensures store.Valid() && fresh(store.WalletSet() - old(store.WalletSet()))
    ensures Posting(store.Accounts(), error) == Settle(old(store.Accounts()), FillOf(old(ask.Value()), old(bid.Value())))
    ensures var q := if sale.Some? then FillOf(old(ask.Value()), old(bid.Value())).qty else 0.0;
      ask.amount == old(ask.amount) - q && bid.amount == old(bid.amount) - q
    ensures sale.None? <==> error == Some(UnknownUser)
    ensures sale.None? ==> ids.nextId == old(ids.nextId)
    ensures sale.Some? ==> ids.nextId == old(ids.nextId) + 1
    ensures sale.Some? ==>
      sale.value == SaleOf(FillOf(old(ask.Value()), old(bid.Value())), product, now, old(ids.nextId))
    ensures sale.Some? ==> sale.value.amount == old(ask.amount) - ask.amount
    ensures sale.Some? ==> sale.value.terms == Terms(ask.terms.price, now, product, Sale, DEFAULT_USER, old(ids.nextId))
  {
    ghost var t := FillOf(ask.Value(), bid.Value());
    var known, l := LookupBoth(store, bid.terms.username, ask.terms.username);
    if !known {
      return None, Some(UnknownUser);
    }
    var taken;
    taken, error := Deal(ask, bid, product, now, store, ids, t);
    sale := Some(taken);
    ProcessSaleKnowsUsers(l, t);
  }

  // ---- the inner loop ----

  ghost predicate TermsDiffer(entries: set<Entry>) {
    forall e, f | e in entries && f in entries && e.terms == f.terms :: e == f
  }

  lemma {:induction false} FilledSnoc(trades: seq<Trade>, t: Trade, x: Terms)
    ensures Filled(trades + [t], x) == Filled(trades, x) + (if t.ask == x || t.bid == x then t.qty else 0.0)
  {
    FilledJoins(trades, [t], x);
    FilledByOne([t], x);
  }

  lemma {:induction false} SalesJoin(trades: seq<Trade>, more: seq<Trade>, product: string, now: string, id: nat)
    ensures SalesOf(trades + more, product, now, id)
         == SalesOf(trades, product, now, id) + SalesOf(more, product, now, id + |trades|)
    decreases |trades|
  {
    if trades == [] {
      assert [] + more == more;
    } else {
      assert (trades + more)[1..] == trades[1..] + more;
      SalesJoin(trades[1..], more, product, now, id + 1);
    }
  }

  lemma {:induction false} SalesSnoc(trades: seq<Trade>, t: Trade, product: string, now: string, id: nat)
    ensures SalesOf(trades + [t], product, now, id)
         == SalesOf(trades, product, now, id) + [SaleOf(t, product, now, id + |trades|)]
  {
    SalesJoin(trades, [t], product, now, id);
    assert [t][1..] == [];
  }

  lemma {:induction false} SaleRecorded(sales: seq<Order>, sale: Order, booked: seq<Trade>, t: Trade,
                                        product: string, now: string, first: nat, id: nat)
    requires sales == SalesOf(booked, product, now, first) && id == first + |booked|
    requires sale == SaleOf(t, product, now, id)
    ensures sales + [sale] == SalesOf(booked + [t], product, now, first)
  {
    SalesSnoc(booked, t, product, now, first);
  }
}
