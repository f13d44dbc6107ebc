/** Exactly when settling throws, where the funds are there. */
module Failures {
  import opened Orders
  import opened Tokenizer
  import opened Trades
  import opened Matching
  import opened Optimality
  import opened Purses
  import opened Settlement

  lemma {:induction false} TradesExactlyWhenCrossed(orders: seq<Order>, trades: seq<Trade>)
    requires Apart(orders) && IsPass(orders, trades)
    ensures trades != [] <==> Crossed(orders)
  {
    if trades != [] {
      TradingNeedsCrossing(orders, trades);
    } else {
      PassUncrosses(orders, trades);
      assert Apply(orders, []) == orders;
    }
  }

  ghost predicate OneMarket(orders: seq<Order>, product: string) {
    forall o | o in orders :: o.terms.product == product
  }

  // ---- what makes a fill throw ----

  lemma {:induction false} BadProductThrows(l: Ledger, t: Trade)
    requires |ExtractTokens(t.ask.product, '/')| != 2
    ensures Settle(l, t).error.Some?
  {
  }

  /** Paying a negative price throws, whatever the wallets hold. */
  lemma {:induction false} NegativeAskThrows(l: Ledger, t: Trade)
    requires t.qty > 0.0 && t.ask.price < 0.0
    ensures Settle(l, t).error.Some?
  {
    NegativeCost(t);
  }

  /** An open ask at a negative price. */
  ghost predicate NegativeAsk(o: Order) {
    o.terms.orderType == Ask && o.amount > 0.0 && o.terms.price < 0.0
  }

  lemma {:induction false} PassTradesIn(orders: seq<Order>, trades: seq<Trade>, product: string, t: Trade)
    requires Apart(orders) && OneMarket(orders, product) && IsPass(orders, trades) && t in trades
    ensures t.ask.product == product && t.bid.product == product
    ensures t.ask.orderType == Ask && t.bid.orderType == Bid && t.qty > 0.0 && t.ask.price <= t.bid.price
    ensures exists a :: a in orders && a.terms == t.ask && a.amount > 0.0
  {
    PassIsFeasible(orders, trades);
    assert Between(t, orders);
    var a :| 0 <= a < |orders| && orders[a].terms == t.ask;
    var b :| 0 <= b < |orders| && orders[b].terms == t.bid;
    assert orders[a] in orders && orders[b] in orders;
    FilledNonNegative(trades, t.ask);
  }

  /** A pass that does not throw made only fills at prices that are not negative, in a product of two
      currencies: the first fill is the cheapest. */
  lemma {:induction false} SettledTradesAreSane(l: Ledger, orders: seq<Order>, product: string, trades: seq<Trade>)
    requires Apart(orders) && OneMarket(orders, product) && IsPass(orders, trades)
    requires SettleAll(l, trades).error.None?
    ensures forall t | t in trades :: SaneTrade(t) && |ExtractTokens(t.ask.product, '/')| == 2
  {
    forall t | t in trades ensures SaneTrade(t) && |ExtractTokens(t.ask.product, '/')| == 2 {
      assert trades[0] in trades;
      PassTradesIn(orders, trades, product, trades[0]);
      PassTradesIn(orders, trades, product, t);
      FirstIsSane(l, trades);
      PassSales(orders, trades);
      var k :| 0 <= k < |trades| && trades[k] == t;
      assert k > 0 ==> trades[0].ask.price <= trades[k].ask.price;
    }
  }

  lemma {:induction false} FirstIsSane(l: Ledger, trades: seq<Trade>)
    requires trades != [] && trades[0].qty > 0.0 && SettleAll(l, trades).error.None?
    ensures trades[0].ask.price >= 0.0 && |ExtractTokens(trades[0].ask.product, '/')| == 2
  {
    if trades[0].ask.price < 0.0 {
      NegativeAskThrows(l, trades[0]);
    }
    if |ExtractTokens(trades[0].ask.product, '/')| != 2 {
      BadProductThrows(l, trades[0]);
    }
  }

  /** In a crossed book an open ask at a negative price is among the first to trade. */
  lemma {:induction false} NegativeAskTrades(orders: seq<Order>, trades: seq<Trade>, a: Order)
    requires Apart(orders) && IsPass(orders, trades) && trades != [] && a in orders && NegativeAsk(a)
    ensures exists t :: t in trades && t.ask.price < 0.0
  {
    PassIsFeasible(orders, trades);
    var first := trades[0];
    assert first in trades && Between(first, orders);
    if first.ask.price >= 0.0 {
      var k :| 0 <= k < |orders| && orders[k].terms == first.ask;
      FilledNonNegative(trades, first.ask);
      PassRespectsPrice(orders, trades, a, orders[k]);
      FilledByTrade(trades, a.terms);
      var t :| t in trades && (t.ask == a.terms || t.bid == a.terms);
      assert Between(t, orders);
    }
  }

  lemma {:induction false} FilledByTrade(trades: seq<Trade>, x: Terms)
    requires Filled(trades, x) != 0.0
    ensures exists t :: t in trades && (t.ask == x || t.bid == x)
  {
    if forall t | t in trades :: t.ask != x && t.bid != x {
      UntouchedNotFilled(trades, x);
    }
  }

  /** Where the locked funds cover the fills, a pass throws if and only if the book is crossed and
      either the product does not name two currencies or an open ask has a negative price. */
  lemma {:induction false} PassThrowsExactlyWhen(l: Ledger, orders: seq<Order>, product: string, trades: seq<Trade>)
    requires Apart(orders) && OneMarket(orders, product) && IsPass(orders, trades)
    requires CoversAll(l, trades) && KnownUsers(l, trades)
    ensures SettleAll(l, trades).error.Some?
       <==> Crossed(orders) && (|ExtractTokens(product, '/')| != 2 || exists a :: a in orders && NegativeAsk(a))
    ensures SettleAll(l, trades).error.None? ==> Settled(l, SettleAll(l, trades).ledger, trades)
  {
    TradesExactlyWhenCrossed(orders, trades);
    if SettleAll(l, trades).error.None? {
      SettledTradesAreSane(l, orders, product, trades);
      SettleAllEffect(l, trades);
      SettledIsTame(orders, product, trades);
    } else {
      ThrownIsWild(l, orders, product, trades);
    }
  }

  /** Over a crossed list with a bad product or an open ask at a negative price a pass throws at its first
      fill, whatever is in the wallets: it is the cheapest, or the product is bad for all of them. That fill
      is sliced, no other is looked at. */
  lemma {:induction false} FirstFillThrows(l: Ledger, orders: seq<Order>, product: string, trades: seq<Trade>)
    requires Apart(orders) && OneMarket(orders, product) && IsPass(orders, trades) && Crossed(orders)
    requires |ExtractTokens(product, '/')| != 2 || exists a :: a in orders && NegativeAsk(a)
    ensures trades != [] && Settle(l, trades[0]).error.Some? && SettleAll(l, trades) == Settle(l, trades[0])
    ensures KnownUsers(l, trades) ==> Reached(l, trades) == [trades[0]]
    ensures |ExtractTokens(product, '/')| == 2 ==> NegativeTrade(trades[0])
  {
    TradesExactlyWhenCrossed(orders, trades);
    assert trades[0] in trades;
    PassTradesIn(orders, trades, product, trades[0]);
    if |ExtractTokens(product, '/')| != 2 {
      BadProductThrows(l, trades[0]);
    } else {
      var a :| a in orders && NegativeAsk(a);
      NegativeAskTrades(orders, trades, a);
      FirstIsCheapest(orders, trades);
      NegativeAskThrows(l, trades[0]);
    }
    if KnownUsers(l, trades) {
      KnownNotUnknown(l, trades[0]);
    }
  }

  lemma {:induction false} FirstIsCheapest(orders: seq<Order>, trades: seq<Trade>)
    requires Apart(orders) && IsPass(orders, trades) && exists t :: t in trades && t.ask.price < 0.0
    ensures trades[0].ask.price < 0.0
  {
    var t :| t in trades && t.ask.price < 0.0;
    var k :| 0 <= k < |trades| && trades[k] == t;
    PassSales(orders, trades);
    assert k > 0 ==> trades[0].ask.price <= trades[k].ask.price;
  }

  lemma {:induction false} KnownNotUnknown(l: Ledger, t: Trade)
    requires GetUser(l, t.bid.username).Some? && GetUser(l, t.ask.username).Some?
    ensures Settle(l, t).error != Some(UnknownUser)
  {
    var l1 := GetUser(l, t.bid.username).value;
    var l2 := GetUser(l1, t.ask.username).value;
    ProcessSaleKnowsUsers(l2, t);
  }

  lemma {:induction false} SettledIsTame(orders: seq<Order>, product: string, trades: seq<Trade>)
    requires Apart(orders) && OneMarket(orders, product) && IsPass(orders, trades)
    requires forall t | t in trades :: SaneTrade(t) && |ExtractTokens(t.ask.product, '/')| == 2
    ensures trades != [] ==> |ExtractTokens(product, '/')| == 2 && !(exists a :: a in orders && NegativeAsk(a))
  {
    if trades != [] {
      assert trades[0] in trades;
      PassTradesIn(orders, trades, product, trades[0]);
      if a :| a in orders && NegativeAsk(a) {
        NegativeAskTrades(orders, trades, a);
      }
    }
  }

  lemma {:induction false} ThrownIsWild(l: Ledger, orders: seq<Order>, product: string, trades: seq<Trade>)
    requires Apart(orders) && OneMarket(orders, product) && IsPass(orders, trades)
    requires CoversAll(l, trades) && KnownUsers(l, trades) && SettleAll(l, trades).error.Some?
    ensures trades != []
    ensures |ExtractTokens(product, '/')| != 2 || exists a :: a in orders && NegativeAsk(a)
  {
    if |ExtractTokens(product, '/')| == 2 && forall a | a in orders :: !NegativeAsk(a) {
      forall t | t in trades ensures SaneTrade(t) && |ExtractTokens(t.ask.product, '/')| == 2 {
        PassTradesIn(orders, trades, product, t);
      }
      SettleAllEffect(l, trades);
    }
  }

  /** A pass whose sliced fills all settle does not throw. */
  lemma {:induction false} ReachedSettles(l: Ledger, trades: seq<Trade>)
    requires KnownUsers(l, trades) && SettleAll(l, Reached(l, trades)).error.None?
    ensures SettleAll(l, trades).error.None?
    decreases |trades|
  {
    if trades != [] {
      var t, rest := trades[0], trades[1..];
      assert t in trades;
      KnownNotUnknown(l, t);
      var first := Settle(l, t);
      if first.error.None? {
        assert Reached(l, trades)[1..] == Reached(first.ledger, rest);
        assert [t] + rest == trades;
        KnownStay(l, t, rest);
        ReachedSettles(first.ledger, rest);
      }
    }
  }

  lemma {:induction false} KnownStay(l: Ledger, t: Trade, rest: seq<Trade>)
    requires KnownUsers(l, [t] + rest)
    ensures KnownUsers(Settle(l, t).ledger, rest)
  {
    forall r | r in rest ensures r in [t] + rest {
    }
    assert l.Keys <= Settle(l, t).ledger.Keys;
  }

  /** Locks that cover what a pass slices are enough: with a good product and no open ask below zero it does
      not throw. */
  lemma {:induction false} CoveredReachSettles(l: Ledger, orders: seq<Order>, product: string, trades: seq<Trade>)
    requires Apart(orders) && OneMarket(orders, product) && IsPass(orders, trades)
    requires CoversAll(l, Reached(l, trades)) && KnownUsers(l, trades)
    requires |ExtractTokens(product, '/')| == 2 && forall a | a in orders :: !NegativeAsk(a)
    ensures SettleAll(l, trades).error.None?
  {
    ReachedIsPrefix(l, trades);
    var booked := Reached(l, trades);
    forall t | t in booked ensures t in trades && SaneTrade(t) && |ExtractTokens(t.ask.product, '/')| == 2 {
      assert t in trades;
      PassTradesIn(orders, trades, product, t);
    }
    SettleAllEffect(l, booked);
    ReachedSettles(l, trades);
  }

  // ---- one fill ----

  /** The server does not check the sign of a price. Where the locks cover the fill, processing it
      throws exactly when the ask's price is negative. */
  lemma {:induction false} SaleThrowsExactlyWhen(l: Ledger, t: Trade)
    requires t.bid.username in l && t.ask.username in l && |ExtractTokens(t.ask.product, '/')| == 2
    requires t.ask.orderType == Ask && t.bid.orderType == Bid && t.ask.product == t.bid.product
    requires t.qty > 0.0 && t.ask.price <= t.bid.price
    requires t.ask.price >= 0.0 ==> CoversTrade(l, t)
    ensures ProcessSale(l, t).error.Some? <==> t.ask.price < 0.0
  {
    if t.ask.price < 0.0 {
      NegativeAskThrows(l, t);
    } else {
      ProcessSaleEffect(l, t);
    }
  }

  // ---- with which exception ----

  /** The buyer is a client whose locked funds do not cover the price. */
  predicate BuyerShort(l: Ledger, t: Trade, quote: string) {
    t.bid.username != DEFAULT_USER && LockedOf(l, t.bid.username, quote) < t.ask.price * t.qty
  }

  /** The seller is a client whose locked funds, once the buyer has paid, do not cover the goods. */
  predicate SellerShort(l: Ledger, t: Trade, base: string, quote: string) {
    var paid := if t.ask.username == t.bid.username && base == quote then t.ask.price * t.qty else 0.0;
    t.ask.username != DEFAULT_USER && LockedOf(l, t.ask.username, base) - paid < t.qty
  }

  /** Whatever is in the wallets: the exception that processing a sale ends with, and when it does. */
  lemma {:induction false} SaleEndsWith(l: Ledger, t: Trade)
    requires t.bid.username in l && t.ask.username in l && t.qty >= 0.0
    ensures var tokens, error := ExtractTokens(t.ask.product, '/'), ProcessSale(l, t).error;
      && (error == Some(InvalidProduct) <==> |tokens| != 2)
      && (|tokens| == 2 ==>
        && (error == Some(BuyerFunds) <==> BuyerShort(l, t, tokens[1]))
        && (error == Some(SellerFunds) <==> !BuyerShort(l, t, tokens[1]) && SellerShort(l, t, tokens[0], tokens[1]))
        && (error == Some(NegativeAmount) <==>
              !BuyerShort(l, t, tokens[1]) && !SellerShort(l, t, tokens[0], tokens[1]) && t.ask.price * t.qty < 0.0)
        && (error == None <==>
              !BuyerShort(l, t, tokens[1]) && !SellerShort(l, t, tokens[0], tokens[1]) && t.ask.price * t.qty >= 0.0))
  {
    var tokens := ExtractTokens(t.ask.product, '/');
    if |tokens| == 2 && !BuyerShort(l, t, tokens[1]) {
      BuyerIsCharged(l, t, tokens[0], tokens[1]);
    }
  }

  lemma {:induction false} BuyerIsCharged(l: Ledger, t: Trade, base: string, quote: string)
    requires t.bid.username in l && t.ask.username in l && t.qty >= 0.0 && !BuyerShort(l, t, quote)
    ensures ChargeBuyer(l, t, base, quote).error.None?
    ensures var l1 := ChargeBuyer(l, t, base, quote).ledger;
      && t.ask.username in l1
      && (t.ask.username != DEFAULT_USER ==>
            (LockedOf(l1, t.ask.username, base) < t.qty <==> SellerShort(l, t, base, quote)))
  {
  }

  /** And a fill ends with an unknown user if and only if one of the two is neither registered nor default;
      otherwise with what processing the sale ends with. */
  lemma {:induction false} SettleEndsWith(l: Ledger, t: Trade)
    requires t.qty >= 0.0
    ensures Settle(l, t).error == Some(UnknownUser) <==>
      !(t.bid.username in l || t.bid.username == DEFAULT_USER) || !(t.ask.username in l || t.ask.username == DEFAULT_USER)
    ensures Settle(l, t).error != Some(UnknownUser) ==>
      var tokens, error := ExtractTokens(t.ask.product, '/'), Settle(l, t).error;
      && (error == Some(InvalidProduct) <==> |tokens| != 2)
      && (|tokens| == 2 ==>
        && (error == Some(BuyerFunds) <==> BuyerShort(l, t, tokens[1]))
        && (error == Some(SellerFunds) <==> !BuyerShort(l, t, tokens[1]) && SellerShort(l, t, tokens[0], tokens[1])))
  {
    if GetUser(l, t.bid.username).Some? {
      var l1 := GetUser(l, t.bid.username).value;
      AccountsOpened(l, t.bid.username);
      if GetUser(l1, t.ask.username).Some? {
        AccountsOpened(l1, t.ask.username);
        var l2 := GetUser(l1, t.ask.username).value;
        SaleEndsWith(l2, t);
        ProcessSaleKnowsUsers(l2, t);
      }
    }
  }
}
