/** Where the money is, over whole runs: locked funds against reserves, and the grand total. */
module Accounts {
  import opened Orders
  import opened Tokenizer
  import opened TimeOrder
  import opened Totals
  import opened Trades
  import opened Meters
  import opened Matching
  import opened Optimality
  import opened Purses
  import opened Settlement
  import opened Books
  import opened Exchanges
  import opened Reachable
  import opened Failures

  function MeasuredLists(b: Book, m: Meter): map<string, real> {
    map p | p in b.orders :: Measure(m, b.orders[p])
  }

  /** A measure of the whole book. */
  ghost function BookMeasure(b: Book, m: Meter): real { Total(MeasuredLists(b, m)) }

  /** What a user's live orders and accepted orders still need of a currency. */
  ghost function Reserves(s: Exchange, user: string, currency: string): real {
    Needed(s, Reserve(user, currency))
  }

  /** What is locked for those of the user's orders that no pass can fill. */
  ghost function StuckFunds(s: Exchange, user: string, currency: string): real {
    Needed(s, Stuck(user, currency))
  }

  /** A measure of the live and the accepted orders. */
  ghost function Needed(s: Exchange, m: Meter): real {
    BookMeasure(s.book, m) + Measure(m, s.accepted)
  }

  /** Locked funds that no order accounts for. */
  ghost function Slack(s: Exchange, user: string, currency: string): real {
    LockedOf(s.ledger, user, currency) - Reserves(s, user, currency) - StuckFunds(s, user, currency)
  }

  // ---- measures of lists and of the book under the operations ----

  lemma {:induction false} BookMeasureUpdates(b: Book, b': Book, m: Meter, product: string, orders: seq<Order>)
    requires b'.orders == b.orders[product := orders]
    ensures BookMeasure(b', m) == BookMeasure(b, m) - Measure(m, ListOf(b, product)) + Measure(m, orders)
  {
    assert MeasuredLists(b', m) == MeasuredLists(b, m)[product := Measure(m, orders)];
    TotalUpdates(MeasuredLists(b, m), product, Measure(m, orders));
  }

  lemma {:induction false} MeasureOfOne(m: Meter, o: Order)
    ensures Measure(m, [o]) == Weight(m, o)
  {
    assert [o][1..] == [];
  }

  lemma {:induction false} MeasureRemoveAt(m: Meter, orders: seq<Order>, k: nat)
    requires k < |orders|
    ensures Measure(m, RemoveAt(orders, k)) == Measure(m, orders) - Weight(m, orders[k])
  {
    assert orders == orders[..k] + ([orders[k]] + orders[k + 1..]);
    MeasureJoins(m, orders[..k], [orders[k]] + orders[k + 1..]);
    MeasureJoins(m, [orders[k]], orders[k + 1..]);
    MeasureJoins(m, orders[..k], orders[k + 1..]);
    MeasureOfOne(m, orders[k]);
  }

  lemma {:induction false} MeasureInsert(m: Meter, orders: seq<Order>, o: Order)
    ensures Measure(m, InsertByTime(orders, o)) == Measure(m, orders) + Weight(m, o)
  {
    var k := InsertSplits(orders, o);
    assert orders == orders[..k] + orders[k..];
    assert orders[..k] + [o] + orders[k..] == orders[..k] + ([o] + orders[k..]);
    MeasureJoins(m, orders[..k], [o] + orders[k..]);
    MeasureJoins(m, [o], orders[k..]);
    MeasureJoins(m, orders[..k], orders[k..]);
    MeasureOfOne(m, o);
  }

  /** One list's measure is part of the book's, when none is negative. */
  lemma {:induction false} PartOfTotal(m: map<string, real>, k: string)
    requires forall x | x in m :: m[x] >= 0.0
    ensures Total(m) >= 0.0
    ensures k in m ==> m[k] <= Total(m)
    decreases |m|
  {
    if m != map[] {
      var x := if k in m then k else var y :| y in m; y;
      TotalPicks(m, x);
      PartOfTotal(m - {x}, x);
    }
  }

  /** The two meters of a client's locked funds. */
  predicate OfClient(m: Meter) { (m.Reserve? || m.Stuck?) && m.user != DEFAULT_USER }

  lemma {:induction false} WeightIs(o: Order, user: string, currency: string)
    ensures Weight(Reserve(user, currency), o) == if user == o.terms.username then Reserved(o, currency) else 0.0
    ensures Weight(Stuck(user, currency), o) == if user == o.terms.username then StuckIn(o, currency) else 0.0
  {
  }

  lemma {:induction false} WeightNonNegative(m: Meter, o: Order)
    requires OfClient(m) && (o.terms.username != DEFAULT_USER ==> ClientOrder(o))
    ensures Weight(m, o) >= 0.0
  {
    WeightIs(o, m.user, m.currency);
    if o.terms.username != DEFAULT_USER {
      LockedForSplits(o, m.currency);
    }
  }

  lemma {:induction false} ListNonNegative(s: Exchange, product: string, m: Meter)
    requires Sound(s) && OfClient(m)
    ensures Measure(m, ListOf(s.book, product)) >= 0.0
  {
    ListIsApart(s.book, product);
    forall o | o in ListOf(s.book, product) ensures Weight(m, o) >= 0.0 {
      assert Listed(s, o);
      WeightNonNegative(m, o);
    }
    MeasureNonNegative(m, ListOf(s.book, product));
  }

  lemma {:induction false} ListWithinNeeded(s: Exchange, product: string, m: Meter)
    requires Sound(s) && OfClient(m)
    ensures 0.0 <= Measure(m, ListOf(s.book, product)) <= Needed(s, m)
  {
    forall p | p in s.book.orders ensures Measure(m, s.book.orders[p]) >= 0.0 {
      ListNonNegative(s, p, m);
    }
    PartOfTotal(MeasuredLists(s.book, m), product);
    forall o | o in s.accepted ensures Weight(m, o) >= 0.0 {
      assert AcceptedOk(s, o);
      WeightNonNegative(m, o);
    }
    MeasureNonNegative(m, s.accepted);
  }

  // ---- a match pass ----

  /** Locked funds cover the reserves, for everyone but default. */
  ghost predicate Covered(s: Exchange) {
    forall u, c | u != DEFAULT_USER :: Slack(s, u, c) >= 0.0
  }

  lemma {:induction false} CoveredLocks(s: Exchange, user: string, currency: string)
    requires Sound(s) && Covered(s) && user != DEFAULT_USER
    ensures LockedOf(s.ledger, user, currency) >= 0.0
  {
    assert Slack(s, user, currency) >= 0.0;
    ListWithinNeeded(s, "", Reserve(user, currency));
    ListWithinNeeded(s, "", Stuck(user, currency));
  }

  lemma {:induction false} PassUsersKnown(s: Exchange, product: string, trades: seq<Trade>)
    requires Sound(s) && IsPass(ListOf(s.book, product), trades)
    ensures Feasible(ListOf(s.book, product), trades) && KnownUsers(s.ledger, trades)
  {
    var orders := ListOf(s.book, product);
    ListIsApart(s.book, product);
    PassIsFeasible(orders, trades);
    forall t | t in trades ensures Known(s, t.ask.username) && Known(s, t.bid.username) {
      assert Between(t, orders);
      var a :| 0 <= a < |orders| && orders[a].terms == t.ask;
      var b :| 0 <= b < |orders| && orders[b].terms == t.bid;
      assert orders[a] in orders && orders[b] in orders;
      assert Listed(s, orders[a]) && Listed(s, orders[b]);
    }
  }

  lemma {:induction false} RemainderNonNegative(s: Exchange, product: string, trades: seq<Trade>, m: Meter)
    requires Sound(s) && OfClient(m) && Within(ListOf(s.book, product), trades)
    ensures Measure(m, Apply(ListOf(s.book, product), trades)) >= 0.0
  {
    var orders := ListOf(s.book, product);
    var after := Apply(orders, trades);
    ListIsApart(s.book, product);
    forall r | r in after ensures Weight(m, r) >= 0.0 {
      var k :| 0 <= k < |after| && after[k] == r;
      assert orders[k] in orders && Listed(s, orders[k]);
      if r.terms.username != DEFAULT_USER {
        SignsAfter(orders[k], trades);
      }
      WeightNonNegative(m, r);
    }
    MeasureNonNegative(m, after);
  }

  /** A pass takes no more from a client's reserve than the client's orders in the list hold. */
  lemma {:induction false} PassWithinReserves(s: Exchange, product: string, trades: seq<Trade>, m: Meter)
    requires Sound(s) && Feasible(ListOf(s.book, product), trades) && OfClient(m)
    ensures Traded(m, trades) <= Needed(s, m)
  {
    ListIsApart(s.book, product);
    FeasibleIsWithin(ListOf(s.book, product), trades, trades);
    TradesTakeTheirMeasure(m, ListOf(s.book, product), trades);
    RemainderNonNegative(s, product, trades, m);
    ListWithinNeeded(s, product, m);
  }

  lemma {:induction false} CoveredCoversPass(s: Exchange, product: string, trades: seq<Trade>)
    requires Sound(s) && Covered(s) && Feasible(ListOf(s.book, product), trades)
    ensures CoversAll(s.ledger, trades)
  {
    forall u, c | u != DEFAULT_USER ensures LockedOf(s.ledger, u, c) >= Traded(Reserve(u, c), trades) {
      assert Slack(s, u, c) >= 0.0;
      PassWithinReserves(s, product, trades, Reserve(u, c));
      ListWithinNeeded(s, product, Stuck(u, c));
    }
  }

  /** When locked funds cover the reserves a pass never throws for want of funds, however the fills of
      one user's orders interleave, self-trades and equal currencies included. It throws if and only
      if it has something to trade and either its product does not name two currencies or one of its
      open asks has a negative price. */
  lemma {:induction false} NoPassThrows(s: Exchange, product: string, trades: seq<Trade>)
    requires Sound(s) && Covered(s) && IsPass(ListOf(s.book, product), trades)
    ensures SettleAll(s.ledger, trades).error.Some? <==> Wild(ListOf(s.book, product), product)
    ensures SettleAll(s.ledger, trades).error.None? ==>
      Settled(s.ledger, SettleAll(s.ledger, trades).ledger, trades)
  {
    ListIsApart(s.book, product);
    PassUsersKnown(s, product, trades);
    CoveredCoversPass(s, product, trades);
    PassThrowsExactlyWhen(s.ledger, ListOf(s.book, product), product, trades);
  }

  /** A crossed list over which every pass throws. */
  ghost predicate Wild(orders: seq<Order>, product: string) {
    Crossed(orders) && (|ExtractTokens(product, '/')| != 2 || exists a :: a in orders && NegativeAsk(a))
  }

  /** What a pass takes out of a measure is what its fills use up, and of what is stuck all of it. */
  lemma {:induction false} MatchTakes(s: Exchange, b': Book, product: string, trades: seq<Trade>, m: Meter)
    requires Sound(s) && Feasible(ListOf(s.book, product), trades)
    requires b'.orders == WithList(s.book, product, Purge(Apply(ListOf(s.book, product), trades)))
    ensures BookMeasure(b', m)
         == BookMeasure(s.book, m) - (if m.Stuck? then Measure(m, ListOf(s.book, product)) else Traded(m, trades))
  {
    var orders := ListOf(s.book, product);
    if product in s.book.orders {
      ListIsApart(s.book, product);
      BookMeasureUpdates(s.book, b', m, product, Purge(Apply(orders, trades)));
      TradesTakeTheirMeasure(m, orders, trades);
      if m.Stuck? {
        PurgeDropsStuck(m, Apply(orders, trades));
      } else {
        PurgeKeepsMeasure(m, Apply(orders, trades));
      }
    } else if trades != [] {
      TradesNeedOrders(orders, trades);
    }
  }

  /** A pass that goes through leaks what was stuck in its product's list, and nothing else. */
  lemma {:induction false} MatchLeaks(s: Exchange, product: string, now: string, trades: seq<Trade>)
    requires Sound(s) && Covered(s) && IsPass(ListOf(s.book, product), trades)
    requires SettleAll(s.ledger, trades).error.None?
    ensures var s' := AfterSettled(s, product, now, trades);
      (forall u, c | u != DEFAULT_USER ::
        Slack(s', u, c) == Slack(s, u, c) + Measure(Stuck(u, c), ListOf(s.book, product)))
  {
    NoPassThrows(s, product, trades);
    SettledLeaks(s, product, now, trades);
  }

  lemma {:induction false} SettledLeaks(s: Exchange, product: string, now: string, trades: seq<Trade>)
    requires Sound(s) && IsPass(ListOf(s.book, product), trades)
    requires Settled(s.ledger, SettleAll(s.ledger, trades).ledger, trades)
    ensures var s' := AfterSettled(s, product, now, trades);
      (forall u, c | u != DEFAULT_USER ::
        Slack(s', u, c) == Slack(s, u, c) + Measure(Stuck(u, c), ListOf(s.book, product)))
  {
    var s' := AfterSettled(s, product, now, trades);
    PassUsersKnown(s, product, trades);
    AfterPassKeeps(s.book, product, trades, SalesOf(trades, product, now, s.nextId));
    forall u, c | u != DEFAULT_USER
      ensures Slack(s', u, c) == Slack(s, u, c) + Measure(Stuck(u, c), ListOf(s.book, product))
    {
      MatchTakes(s, s'.book, product, trades, Reserve(u, c));
      MatchTakes(s, s'.book, product, trades, Stuck(u, c));
    }
  }

  // ---- a pass that throws ----

  lemma {:induction false} PrefixIsFeasible(orders: seq<Order>, trades: seq<Trade>, first: seq<Trade>)
    requires Feasible(orders, trades) && first <= trades
    ensures Feasible(orders, first)
  {
    FeasibleIsWithin(orders, trades, first);
    forall t | t in first ensures Between(t, orders) && t.qty >= 0.0 {
      assert t in trades;
    }
  }

  lemma {:induction false} FirstIsFeasible(orders: seq<Order>, trades: seq<Trade>)
    requires Feasible(orders, trades) && trades != []
    ensures Feasible(orders, [trades[0]])
  {
    assert trades[..1] == [trades[0]] <= trades;
    PrefixIsFeasible(orders, trades, [trades[0]]);
  }

  /** What booking fills without a purge takes out of a measure. */
  lemma {:induction false} BookedTakes(s: Exchange, product: string, booked: seq<Trade>, m: Meter)
    requires Sound(s) && Feasible(ListOf(s.book, product), booked)
    ensures BookMeasure(Booked(s.book, product, booked, []), m) == BookMeasure(s.book, m) - Traded(m, booked)
  {
    var orders := ListOf(s.book, product);
    if product in s.book.orders {
      ListIsApart(s.book, product);
      BookMeasureUpdates(s.book, Booked(s.book, product, booked, []), m, product, Apply(orders, booked));
      TradesTakeTheirMeasure(m, orders, booked);
    } else if booked != [] {
      TradesNeedOrders(orders, booked);
    }
  }

  /** The users of a fill at a product that does not name two currencies are looked up, and that is all. */
  lemma {:induction false} BadProductOpens(l: Ledger, t: Trade)
    requires |ExtractTokens(t.ask.product, '/')| != 2
    ensures forall u, c :: LockedOf(Settle(l, t).ledger, u, c) == LockedOf(l, u, c)
    ensures forall u, c :: FreeOf(Settle(l, t).ledger, u, c) == FreeOf(l, u, c)
    ensures forall c :: Money(Settle(l, t).ledger, c) == Money(l, c)
  {
    if GetUser(l, t.bid.username).Some? {
      AccountsOpened(l, t.bid.username);
      var l1 := GetUser(l, t.bid.username).value;
      if GetUser(l1, t.ask.username).Some? {
        AccountsOpened(l1, t.ask.username);
      }
    }
  }

  /** The locks that a fill at a negative price draws on are there. */
  lemma {:induction false} FirstDrawsCovered(l: Ledger, t: Trade, base: string, quote: string)
    requires NegativeTrade(t) && ExtractTokens(t.ask.product, '/') == [base, quote] && CoversAll(l, [t])
    requires t.bid.username != DEFAULT_USER ==> t.bid.price >= 0.0 && LockedOf(l, t.bid.username, quote) >= 0.0
    ensures CoversNegative(l, t, base, quote)
  {
    OneTrade(l, t);
    if t.ask.username != DEFAULT_USER {
      SellerOwes(t, base, quote);
    }
  }

  lemma {:induction false} SellerOwes(t: Trade, base: string, quote: string)
    requires NegativeTrade(t) && ExtractTokens(t.ask.product, '/') == [base, quote]
    requires t.bid.username == t.ask.username ==> t.bid.price >= 0.0
    ensures Owed(t, t.ask.username, base) >= t.qty
  {
    OwedParts(t, t.ask.username, base);
    assert Cost(t) + Refund(t) == t.bid.price * t.qty;
  }

  lemma {:induction false} ClientBidsNotNegative(s: Exchange, product: string, trades: seq<Trade>, t: Trade)
    requires Sound(s) && IsPass(ListOf(s.book, product), trades) && t in trades && t.bid.username != DEFAULT_USER
    ensures t.bid.price >= 0.0 && |ExtractTokens(t.bid.product, '/')| == 2
  {
    var orders := ListOf(s.book, product);
    ListIsApart(s.book, product);
    PassIsFeasible(orders, trades);
    assert Between(t, orders);
    var b :| 0 <= b < |orders| && orders[b].terms == t.bid;
    assert orders[b] in orders && Listed(s, orders[b]);
    FilledNonNegative(trades, t.bid);
  }

  /** The locks cover a pass's first fill, and no client's lock is negative. */
  ghost predicate FirstCovered(l: Ledger, trades: seq<Trade>) {
    && (trades != [] ==> CoversAll(l, [trades[0]]))
    && (forall u, c | u != DEFAULT_USER :: LockedOf(l, u, c) >= 0.0)
  }

  lemma {:induction false} CoveredCoversFirst(s: Exchange, product: string, trades: seq<Trade>)
    requires Sound(s) && Covered(s) && IsPass(ListOf(s.book, product), trades)
    ensures FirstCovered(s.ledger, trades)
  {
    PassUsersKnown(s, product, trades);
    if trades != [] {
      FirstIsFeasible(ListOf(s.book, product), trades);
      CoveredCoversPass(s, product, [trades[0]]);
    }
    forall u, c | u != DEFAULT_USER ensures LockedOf(s.ledger, u, c) >= 0.0 {
      CoveredLocks(s, u, c);
    }
  }

  /** What a pass that throws makes of the ledger: its first fill stays half settled. */
  lemma {:induction false} ThrowHalfSettles(s: Exchange, product: string, trades: seq<Trade>)
    requires Sound(s) && IsPass(ListOf(s.book, product), trades) && Wild(ListOf(s.book, product), product)
    requires FirstCovered(s.ledger, trades)
    ensures trades != [] && Feasible(ListOf(s.book, product), [trades[0]])
    ensures SettleAll(s.ledger, trades) == Settle(s.ledger, trades[0]) && Settle(s.ledger, trades[0]).error.Some?
    ensures Reached(s.ledger, trades) == [trades[0]] && trades[0].ask.product == trades[0].bid.product == product
    ensures (var tokens := ExtractTokens(product, '/');
      |tokens| == 2 ==> NegativeTrade(trades[0])
                        && HalfSettled(s.ledger, Settle(s.ledger, trades[0]).ledger, trades[0], tokens[0], tokens[1]))
  {
    var orders := ListOf(s.book, product);
    ListIsApart(s.book, product);
    PassUsersKnown(s, product, trades);
    FirstFillThrows(s.ledger, orders, product, trades);
    FirstIsFeasible(orders, trades);
    assert trades[0] in trades;
    PassTradesIn(orders, trades, product, trades[0]);
    if |ExtractTokens(product, '/')| == 2 {
      FirstHalfSettles(s, product, trades, ExtractTokens(product, '/')[0], ExtractTokens(product, '/')[1]);
    }
  }

  lemma {:induction false} FirstHalfSettles(s: Exchange, product: string, trades: seq<Trade>, base: string, quote: string)
    requires Sound(s) && IsPass(ListOf(s.book, product), trades) && FirstCovered(s.ledger, trades)
    requires trades != [] && NegativeTrade(trades[0]) && KnownUsers(s.ledger, trades)
    requires ExtractTokens(trades[0].ask.product, '/') == [base, quote]
    ensures HalfSettled(s.ledger, Settle(s.ledger, trades[0]).ledger, trades[0], base, quote)
  {
    var t := trades[0];
    assert t in trades;
    if t.bid.username != DEFAULT_USER {
      ClientBidsNotNegative(s, product, trades, t);
    }
    FirstDrawsCovered(s.ledger, t, base, quote);
    NegativeSettleEffect(s.ledger, t, base, quote);
  }

  /** What a pass that throws leaves locked with no order to account for it: what its first buyer had
      bid, or was to be credited for, beyond the ask. */
  function ThrowLeak(trades: seq<Trade>, user: string, currency: string): real {
    if trades != [] && Pays(trades[0], user, currency) then Refund(trades[0]) else 0.0
  }

  /** What the first fill takes from a client's locks and what it takes from the client's reserves. */
  lemma {:induction false} HalfSettledLeaks(l: Ledger, l': Ledger, t: Trade, base: string, quote: string, user: string,
                                            currency: string)
    requires NegativeTrade(t) && HalfSettled(l, l', t, base, quote) && ExtractTokens(t.ask.product, '/') == [base, quote]
    requires user != DEFAULT_USER
    ensures LockedOf(l', user, currency)
         == LockedOf(l, user, currency) - Owed(t, user, currency) + ThrowLeak([t], user, currency)
  {
    OwedParts(t, user, currency);
  }

  lemma {:induction false} BadProductOwesNothing(t: Trade, user: string, currency: string)
    requires |ExtractTokens(t.ask.product, '/')| != 2 && t.ask.product == t.bid.product
    ensures Owed(t, user, currency) == 0.0 && ThrowLeak([t], user, currency) == 0.0
  {
  }

  lemma {:induction false} FirstLocksLeak(s: Exchange, product: string, trades: seq<Trade>, user: string, currency: string)
    requires Sound(s) && IsPass(ListOf(s.book, product), trades) && Wild(ListOf(s.book, product), product)
    requires FirstCovered(s.ledger, trades) && user != DEFAULT_USER
    ensures trades != []
    ensures LockedOf(SettleAll(s.ledger, trades).ledger, user, currency)
         == LockedOf(s.ledger, user, currency) - Owed(trades[0], user, currency) + ThrowLeak(trades, user, currency)
  {
    var tokens := ExtractTokens(product, '/');
    ThrowHalfSettles(s, product, trades);
    FillLocksLeak(s.ledger, trades[0], user, currency);
  }

  lemma {:induction false} FillLocksLeak(l: Ledger, t: Trade, user: string, currency: string)
    requires user != DEFAULT_USER && t.ask.product == t.bid.product
    requires (var tokens := ExtractTokens(t.ask.product, '/');
      |tokens| == 2 ==> NegativeTrade(t) && HalfSettled(l, Settle(l, t).ledger, t, tokens[0], tokens[1]))
    ensures LockedOf(Settle(l, t).ledger, user, currency)
         == LockedOf(l, user, currency) - Owed(t, user, currency) + ThrowLeak([t], user, currency)
  {
    var tokens := ExtractTokens(t.ask.product, '/');
    if |tokens| == 2 {
      HalfSettledLeaks(l, Settle(l, t).ledger, t, tokens[0], tokens[1], user, currency);
    } else {
      BadProductOpens(l, t);
      BadProductOwesNothing(t, user, currency);
    }
  }

  /** A pass that throws changes a client's slack by exactly that. */
  lemma {:induction false} ThrowLeaks(s: Exchange, product: string, trades: seq<Trade>)
    requires Sound(s) && IsPass(ListOf(s.book, product), trades) && Wild(ListOf(s.book, product), product)
    requires FirstCovered(s.ledger, trades)
    ensures var s' := AfterThrow(s, product, trades);
      forall u, c | u != DEFAULT_USER :: Slack(s', u, c) == Slack(s, u, c) + ThrowLeak(trades, u, c)
  {
    var s' := AfterThrow(s, product, trades);
    ThrowHalfSettles(s, product, trades);
    OneTrade(s.ledger, trades[0]);
    forall u, c | u != DEFAULT_USER ensures Slack(s', u, c) == Slack(s, u, c) + ThrowLeak(trades, u, c) {
      FirstLocksLeak(s, product, trades, u, c);
      BookedTakes(s, product, [trades[0]], Reserve(u, c));
      BookedTakes(s, product, [trades[0]], Stuck(u, c));
      NothingStuckTraded(trades[0], u, c);
    }
  }

  lemma {:induction false} NothingStuckTraded(t: Trade, user: string, currency: string)
    ensures Traded(Stuck(user, currency), [t]) == 0.0
  {
    assert [t][1..] == [];
  }

  lemma {:induction false} TradesNeedOrders(orders: seq<Order>, trades: seq<Trade>)
    requires Feasible(orders, trades) && trades != []
    ensures orders != []
  {
    assert Between(trades[0], orders);
  }

  // ---- the other steps ----

  lemma {:induction false} PlaceKeepsSlack(s: Exchange, o: Order)
    requires Sound(s) && Enabled(s, Place(o))
    ensures forall u, c :: Slack(AfterPlace(s, o), u, c) == Slack(s, u, c)
  {
    var s', p := AfterPlace(s, o), s.ledger[o.terms.username];
    if Fulfill(p, o).outcome == Returned(true) {
      FulfillReserves(p, o);
      forall u, c ensures Slack(s', u, c) == Slack(s, u, c) {
        OneMoreAccepted(s.accepted, o, u, c);
        LockedForSplits(o, c);
      }
    }
  }

  lemma {:induction false} OneMoreAccepted(accepted: seq<Order>, o: Order, user: string, currency: string)
    ensures Measure(Reserve(user, currency), accepted + [o]) == Measure(Reserve(user, currency), accepted)
      + (if user == o.terms.username then Reserved(o, currency) else 0.0)
    ensures Measure(Stuck(user, currency), accepted + [o]) == Measure(Stuck(user, currency), accepted)
      + (if user == o.terms.username then StuckIn(o, currency) else 0.0)
  {
    WeightIs(o, user, currency);
    forall m | m == Reserve(user, currency) || m == Stuck(user, currency)
      ensures Measure(m, accepted + [o]) == Measure(m, accepted) + Weight(m, o)
    {
      MeasureJoins(m, accepted, [o]);
      MeasureOfOne(m, o);
    }
  }

  lemma {:induction false} InsertKeepsNeeded(s: Exchange, k: nat, m: Meter)
    requires k < |s.accepted|
    ensures Needed(AfterInsert(s, k), m) == Needed(s, m)
  {
    var s', o := AfterInsert(s, k), s.accepted[k];
    var orders := ListOf(s.book, o.terms.product);
    BookMeasureUpdates(s.book, s'.book, m, o.terms.product, InsertByTime(orders, o));
    MeasureInsert(m, orders, o);
    MeasureRemoveAt(m, s.accepted, k);
  }

  lemma {:induction false} InsertKeepsSlack(s: Exchange, k: nat)
    requires k < |s.accepted|
    ensures forall u, c :: Slack(AfterInsert(s, k), u, c) == Slack(s, u, c)
  {
    forall u, c ensures Slack(AfterInsert(s, k), u, c) == Slack(s, u, c) {
      InsertKeepsNeeded(s, k, Reserve(u, c));
      InsertKeepsNeeded(s, k, Stuck(u, c));
    }
  }

  lemma {:induction false} OrderWithinNeeded(s: Exchange, product: string, k: nat, m: Meter)
    requires Sound(s) && k < |ListOf(s.book, product)| && OfClient(m)
    ensures Weight(m, ListOf(s.book, product)[k]) <= Needed(s, m)
  {
    var orders := ListOf(s.book, product);
    ListIsApart(s.book, product);
    forall q | q in RemoveAt(orders, k) ensures Weight(m, q) >= 0.0 {
      assert q in orders && Listed(s, q);
      WeightNonNegative(m, q);
    }
    MeasureNonNegative(m, RemoveAt(orders, k));
    MeasureRemoveAt(m, orders, k);
    ListWithinNeeded(s, product, m);
  }

  /** What a listed client order holds locked is there to be released. */
  lemma {:induction false} OrderIsCovered(s: Exchange, product: string, k: nat, currency: string)
    requires Sound(s) && Covered(s) && k < |ListOf(s.book, product)|
    requires ListOf(s.book, product)[k].terms.username != DEFAULT_USER
    ensures var o := ListOf(s.book, product)[k];
      ClientOrder(o) && LockedOf(s.ledger, o.terms.username, currency) >= LockedFor(o, currency)
  {
    var o := ListOf(s.book, product)[k];
    var u := o.terms.username;
    ListIsApart(s.book, product);
    assert o in ListOf(s.book, product) && Listed(s, o);
    OrderWithinNeeded(s, product, k, Reserve(u, currency));
    OrderWithinNeeded(s, product, k, Stuck(u, currency));
    WeightIs(o, u, currency);
    LockedForSplits(o, currency);
    assert Slack(s, u, currency) >= 0.0;
  }

  lemma {:induction false} DropTakes(b: Book, b': Book, product: string, k: nat, m: Meter)
    requires k < |ListOf(b, product)| && b'.orders == b.orders[product := RemoveAt(ListOf(b, product), k)]
    ensures BookMeasure(b', m) == BookMeasure(b, m) - Weight(m, ListOf(b, product)[k])
  {
    BookMeasureUpdates(b, b', m, product, RemoveAt(ListOf(b, product), k));
    MeasureRemoveAt(m, ListOf(b, product), k);
  }

  lemma {:induction false} CancelKeepsSlack(s: Exchange, user: string, product: string, k: nat, id: nat)
    requires Sound(s) && Covered(s) && Client(s, user) && OwnedAt(s.book, product, k, user, id)
    ensures forall u, c | u != DEFAULT_USER :: Slack(CancelAt(s, user, product, k), u, c) == Slack(s, u, c)
  {
    var s', o := CancelAt(s, user, product, k), ListOf(s.book, product)[k];
    CancelMoves(s, user, product, k, id);
    forall u, c | u != DEFAULT_USER ensures Slack(s', u, c) == Slack(s, u, c) {
      DropTakes(s.book, s'.book, product, k, Reserve(u, c));
      DropTakes(s.book, s'.book, product, k, Stuck(u, c));
      WeightIs(o, u, c);
      LockedForSplits(o, c);
    }
  }

  /** CANCEL moves exactly what the order as it stands holds locked back to free. */
  lemma {:induction false} CancelMoves(s: Exchange, user: string, product: string, k: nat, id: nat)
    requires Sound(s) && Covered(s) && Client(s, user) && OwnedAt(s.book, product, k, user, id)
    ensures var s', o := CancelAt(s, user, product, k), ListOf(s.book, product)[k];
      ClientOrder(o) && (forall c ::
        && LockedOf(s'.ledger, user, c) == LockedOf(s.ledger, user, c) - LockedFor(o, c)
        && FreeOf(s'.ledger, user, c) == FreeOf(s.ledger, user, c) + LockedFor(o, c))
    ensures forall u, c | u != user :: LockedOf(CancelAt(s, user, product, k).ledger, u, c) == LockedOf(s.ledger, u, c)
  {
    var o := ListOf(s.book, product)[k];
    OrderIsCovered(s, product, k, "");
    forall c ensures Locked(s.ledger[user], c) >= LockedFor(o, c) {
      OrderIsCovered(s, product, k, c);
    }
    CancelReleases(s.ledger[user], o);
  }

  /** A step that moves no locked funds and no order. */
  lemma {:induction false} QuietKeepsSlack(s: Exchange, step: Step)
    requires Enabled(s, step)
    requires !step.Place? && !step.Insert? && !step.Match? && !step.CancelById?
    ensures forall u, c :: Slack(Next(s, step), u, c) == Slack(s, u, c)
  {
    var s' := Next(s, step);
    assert s'.book == s.book && s'.accepted == s.accepted;
  }

  /** What a step leaves locked with no order to account for it. */
  function Leak(s: Exchange, step: Step, user: string, currency: string): real {
    if !step.Match? then 0.0
    else if Settles(s, step) then Measure(Stuck(user, currency), ListOf(s.book, step.product))
    else ThrowLeak(Merge(step.asks, step.bids), user, currency)
  }

  lemma {:induction false} LeakNonNegative(s: Exchange, step: Step, user: string, currency: string)
    requires Sound(s) && Enabled(s, step) && user != DEFAULT_USER
    ensures Leak(s, step, user, currency) >= 0.0
  {
    if step.Match? {
      var trades := Merge(step.asks, step.bids);
      ListNonNegative(s, step.product, Stuck(user, currency));
      if trades != [] {
        FirstRefundNotNegative(s, step.product, trades);
      }
    }
  }

  lemma {:induction false} FirstRefundNotNegative(s: Exchange, product: string, trades: seq<Trade>)
    requires Sound(s) && IsPass(ListOf(s.book, product), trades) && trades != []
    ensures Refund(trades[0]) >= 0.0 && (Refund(trades[0]) > 0.0 <==> trades[0].bid.price > trades[0].ask.price)
  {
    ListIsApart(s.book, product);
    PassIsFeasible(ListOf(s.book, product), trades);
    assert trades[0] in trades;
    RefundSign(trades[0]);
  }

  lemma {:induction false} RefundSign(t: Trade)
    requires t.ask.price <= t.bid.price && t.qty > 0.0
    ensures Refund(t) >= 0.0 && (Refund(t) > 0.0 <==> t.bid.price > t.ask.price)
  {
    SignOfMargin(t.bid.price - t.ask.price, t.qty, Refund(t));
  }

  lemma {:induction false} SignOfMargin(margin: real, qty: real, product: real)
    requires margin >= 0.0 && qty > 0.0 && product == margin * qty
    ensures product >= 0.0 && (product > 0.0 <==> margin > 0.0)
  {
    if margin > 0.0 {
      assert margin * qty > 0.0;
    } else {
      assert margin == 0.0 && 0.0 * qty == 0.0;
    }
  }

  /** A step changes a client's slack by its leak, which is never negative. */
  lemma {:induction false} StepLeaks(s: Exchange, step: Step)
    requires Sound(s) && Covered(s) && Enabled(s, step)
    ensures forall u, c | u != DEFAULT_USER ::
      Slack(Next(s, step), u, c) == Slack(s, u, c) + Leak(s, step, u, c) && Leak(s, step, u, c) >= 0.0
    ensures Covered(Next(s, step))
  {
    forall u, c | u != DEFAULT_USER ensures Leak(s, step, u, c) >= 0.0 {
      LeakNonNegative(s, step, u, c);
    }
    match step
    case Place(o) =>
      PlaceKeepsSlack(s, o);
    case Insert(k) =>
      InsertKeepsSlack(s, k);
    case Match(product, now, asks, bids) =>
      PassLeaks(s, step);
    case CancelById(user, id) =>
      var found, product, k := CancelFinds(s, user, id);
      if found {
        CancelKeepsSlack(s, user, product, k, id);
      }
    case _ =>
      QuietKeepsSlack(s, step);
  }

  lemma {:induction false} PassLeaks(s: Exchange, step: Step)
    requires Sound(s) && Covered(s) && Enabled(s, step) && step.Match?
    ensures forall u, c | u != DEFAULT_USER :: Slack(Next(s, step), u, c) == Slack(s, u, c) + Leak(s, step, u, c)
  {
    var trades := Merge(step.asks, step.bids);
    if Settles(s, step) {
      MatchLeaks(s, step.product, step.now, trades);
    } else {
      NoPassThrows(s, step.product, trades);
      CoveredCoversFirst(s, step.product, trades);
      ThrowLeaks(s, step.product, trades);
    }
  }

  // ---- whole runs ----

  /** A client's negative pair that pays in this currency. */
  predicate PairOf(o: Order, user: string, currency: string) {
    var tokens := ExtractTokens(o.terms.product, '/');
    o.terms.username == user && NegativePair(o) && |tokens| == 2 && tokens[1] == currency
  }

  ghost predicate PairIn(orders: seq<Order>, user: string, currency: string) {
    exists o :: o in orders && PairOf(o, user, currency)
  }

  lemma {:induction false} PairWeight(o: Order, user: string, currency: string)
    ensures Weight(Stuck(user, currency), o) > 0.0 <==> PairOf(o, user, currency)
    ensures Weight(Stuck(user, currency), o) >= 0.0
  {
    if NegativePair(o) {
      assert (0.0 - o.amount) * (0.0 - o.terms.price) > 0.0;
    }
  }

  /** A pass leaks if and only if its list holds a negative pair. */
  lemma {:induction false} LeaksExactlyWhen(orders: seq<Order>, user: string, currency: string)
    ensures Measure(Stuck(user, currency), orders) > 0.0 <==> PairIn(orders, user, currency)
    ensures Measure(Stuck(user, currency), orders) >= 0.0
  {
    if orders != [] {
      PairWeight(orders[0], user, currency);
      LeaksExactlyWhen(orders[1..], user, currency);
      if PairIn(orders, user, currency) && !PairOf(orders[0], user, currency) {
        var o :| o in orders && PairOf(o, user, currency);
        assert o in orders[1..];
      }
    }
  }

  /** The step is a pass that goes through and purges a negative pair of the user; or it is a pass that
      throws, and its first buyer is the user, who had bid more than the ask. */
  ghost predicate Drifts(s: Exchange, step: Step, user: string, currency: string) {
    && step.Match?
    && (if Settles(s, step) then PairIn(ListOf(s.book, step.product), user, currency)
        else
          var trades := Merge(step.asks, step.bids);
          trades != [] && Pays(trades[0], user, currency) && trades[0].bid.price > trades[0].ask.price)
  }

  lemma {:induction false} LeaksWhenDrifts(s: Exchange, step: Step, user: string, currency: string)
    requires Sound(s) && Enabled(s, step) && user != DEFAULT_USER
    ensures Leak(s, step, user, currency) > 0.0 <==> Drifts(s, step, user, currency)
  {
    if step.Match? {
      var trades := Merge(step.asks, step.bids);
      LeaksExactlyWhen(ListOf(s.book, step.product), user, currency);
      if trades != [] {
        FirstRefundNotNegative(s, step.product, trades);
      }
    }
  }

  /** Some step of the run does. */
  ghost predicate DriftsOver(s: Exchange, steps: seq<Step>, user: string, currency: string)
    decreases |steps|
  {
    && steps != [] && Enabled(s, steps[0])
    && (Drifts(s, steps[0], user, currency) || DriftsOver(Next(s, steps[0]), steps[1..], user, currency))
  }

  /** What the passes of a run leave locked with no order to account for it. */
  ghost function LeakedOver(s: Exchange, steps: seq<Step>, user: string, currency: string): real
    decreases |steps|
  {
    if steps == [] || !Enabled(s, steps[0]) then 0.0
    else Leak(s, steps[0], user, currency) + LeakedOver(Next(s, steps[0]), steps[1..], user, currency)
  }

  /** What the run does to a client's slack. */
  ghost predicate Leaked(s: Exchange, steps: seq<Step>, s': Exchange, user: string, currency: string) {
    var leaked := LeakedOver(s, steps, user, currency);
    && Slack(s', user, currency) == Slack(s, user, currency) + leaked
    && leaked >= 0.0 && (leaked > 0.0 <==> DriftsOver(s, steps, user, currency))
  }

  lemma {:induction false} OneMoreLeaked(s: Exchange, steps: seq<Step>, s': Exchange, user: string, currency: string)
    requires Sound(s) && Covered(s) && steps != [] && Enabled(s, steps[0]) && user != DEFAULT_USER
    requires Leaked(Next(s, steps[0]), steps[1..], s', user, currency)
    ensures Leaked(s, steps, s', user, currency)
  {
    StepLeaks(s, steps[0]);
    LeaksWhenDrifts(s, steps[0], user, currency);
  }

  /** Over every run, for every user but default and every currency, locked funds minus what the user's
      live and accepted orders hold change by what the passes leak: they never shrink, and they never
      change at all if and only if no pass of the run purges a negative pair of that user and none throws
      at a fill that the user was to be refunded for. */
  lemma {:induction false} SlackNeverChanges(s: Exchange, steps: seq<Step>, s': Exchange)
    requires Orderly(s) && Covered(s) && Run(s, steps, s')
    ensures forall u, c | u != DEFAULT_USER :: Leaked(s, steps, s', u, c)
    ensures Covered(s') && Orderly(s')
    decreases |steps|
  {
    if steps != [] {
      StepIsOrderly(s, steps[0]);
      StepLeaks(s, steps[0]);
      SlackNeverChanges(Next(s, steps[0]), steps[1..], s');
      forall u, c | u != DEFAULT_USER ensures Leaked(s, steps, s', u, c) {
        OneMoreLeaked(s, steps, s', u, c);
      }
    }
  }

  /** Funds that no order accounts for stay locked for good. */
  lemma {:induction false} SlackIsStranded(s: Exchange, steps: seq<Step>, s': Exchange)
    requires Orderly(s) && Covered(s) && Run(s, steps, s')
    ensures forall u, c | u != DEFAULT_USER :: LockedOf(s'.ledger, u, c) >= Slack(s, u, c)
  {
    SlackNeverChanges(s, steps, s');
    forall u, c | u != DEFAULT_USER ensures LockedOf(s'.ledger, u, c) >= Slack(s, u, c) {
      assert Leaked(s, steps, s', u, c);
      ListWithinNeeded(s', "", Reserve(u, c));
      ListWithinNeeded(s', "", Stuck(u, c));
    }
  }

  lemma {:induction false} NothingNeeded(s: Exchange, m: Meter)
    requires Initial(s) && OfClient(m)
    ensures Needed(s, m) == 0.0
  {
    forall p | p in s.book.orders ensures Measure(m, s.book.orders[p]) == 0.0 {
      forall o | o in s.book.orders[p] ensures Weight(m, o) == 0.0 {
        WeightIs(o, m.user, m.currency);
      }
      MeasureOfNothing(m, s.book.orders[p]);
    }
    TotalOfZeros(MeasuredLists(s.book, m));
  }

  /** At start-up a user's slack is whatever an earlier session left locked: no order holds it. */
  lemma {:induction false} InitialSlack(s: Exchange)
    requires Initial(s)
    ensures Covered(s) && forall u, c | u != DEFAULT_USER :: Slack(s, u, c) == LockedOf(s.ledger, u, c)
  {
    forall u, c | u != DEFAULT_USER ensures Slack(s, u, c) == LockedOf(s.ledger, u, c) {
      NothingNeeded(s, Reserve(u, c));
      NothingNeeded(s, Stuck(u, c));
    }
  }

  lemma {:induction false} TotalOfZeros(m: map<string, real>)
    requires forall k | k in m :: m[k] == 0.0
    ensures Total(m) == 0.0
    decreases |m|
  {
    if m != map[] {
      var k :| k in m;
      TotalPicks(m, k);
      TotalOfZeros(m - {k});
    }
  }

  /** The reserve theorem: in every reachable state a client's locked funds are what was locked at the
      start, plus exactly what the client's live and accepted orders hold, plus what passes leaked; and
      they leaked something if and only if one of them drifted. */
  lemma {:induction false} LockedEqualsReserves(s: Exchange, steps: seq<Step>, s': Exchange, user: string, currency: string)
    requires Initial(s) && Run(s, steps, s') && user != DEFAULT_USER
    ensures LockedOf(s'.ledger, user, currency)
         == LockedOf(s.ledger, user, currency) + Reserves(s', user, currency) + StuckFunds(s', user, currency)
            + LeakedOver(s, steps, user, currency)
    ensures LeakedOver(s, steps, user, currency) >= 0.0
    ensures LeakedOver(s, steps, user, currency) > 0.0 <==> DriftsOver(s, steps, user, currency)
  {
    InitialIsOrderly(s);
    InitialSlack(s);
    SlackNeverChanges(s, steps, s');
    assert Leaked(s, steps, s', user, currency);
  }

  /** In every reachable state a pass throws if and only if its list is crossed and its product does not
      name two currencies or an open ask has a negative price: never for want of funds, whatever was
      thrown before. */
  lemma {:induction false} NoReachablePassThrows(s: Exchange, steps: seq<Step>, s': Exchange, product: string,
                                                 trades: seq<Trade>)
    requires Initial(s) && Run(s, steps, s') && IsPass(ListOf(s'.book, product), trades)
    ensures SettleAll(s'.ledger, trades).error.Some? <==> Wild(ListOf(s'.book, product), product)
  {
    InitialIsOrderly(s);
    InitialSlack(s);
    SlackNeverChanges(s, steps, s');
    NoPassThrows(s', product, trades);
  }

  // ---- conservation ----

  /** What a step puts into the system from outside: deposits, less withdrawals, plus what a pass creates,
      by filling orders of default or by throwing at a negative price. */
  function Injected(s: Exchange, step: Step, currency: string): real {
    match step
    case Deposit(user, c, amount) => if c == currency && amount >= 0.0 then amount else 0.0
    case Withdraw(user, c, amount) =>
      if c == currency && 0.0 <= amount <= FreeOf(s.ledger, user, c) then -amount else 0.0
    case Match(product, now, asks, bids) => MintedBy(s.ledger, Merge(asks, bids), currency)
    case _ => 0.0
  }

  ghost function InjectedOver(s: Exchange, steps: seq<Step>, currency: string): real
    decreases |steps|
  {
    if steps == [] || !Enabled(s, steps[0]) then 0.0
    else Injected(s, steps[0], currency) + InjectedOver(Next(s, steps[0]), steps[1..], currency)
  }

  lemma {:induction false} PurseStepConserves(s: Exchange, user: string, p: Purse, currency: string)
    requires user in s.ledger
    ensures Money(WithPurse(s, user, p).ledger, currency)
         == Money(s.ledger, currency) - Held(s.ledger[user], currency) + Held(p, currency)
  {
    MoneyUpdates(s.ledger, user, p, currency);
  }

  /** Locking and unlocking move money within a purse. */
  lemma {:induction false} LockingConserves(p: Purse, o: Order, currency: string)
    ensures Held(Fulfill(p, o).purse, currency) == Held(p, currency)
    ensures Held(Cancel(p, o).purse, currency) == Held(p, currency)
  {
  }

  lemma {:induction false} CancelConserves(s: Exchange, user: string, id: nat, currency: string)
    requires Sound(s) && Client(s, user)
    ensures Money(AfterCancel(s, user, id).ledger, currency) == Money(s.ledger, currency)
  {
    var found, product, k := CancelFinds(s, user, id);
    if found {
      var o := ListOf(s.book, product)[k];
      LockingConserves(s.ledger[user], o, currency);
      PurseStepConserves(s, user, Cancel(s.ledger[user], o).purse, currency);
    }
  }

  lemma {:induction false} PlaceConserves(s: Exchange, o: Order, currency: string)
    requires Client(s, o.terms.username)
    ensures Money(AfterPlace(s, o).ledger, currency) == Money(s.ledger, currency)
  {
    var p := s.ledger[o.terms.username];
    LockingConserves(p, o, currency);
    PurseStepConserves(s, o.terms.username, Fulfill(p, o).purse, currency);
  }

  lemma {:induction false} FundingConserves(s: Exchange, step: Step, currency: string)
    requires Enabled(s, step) && (step.Deposit? || step.Withdraw?)
    ensures Money(Next(s, step).ledger, currency) == Money(s.ledger, currency) + Injected(s, step, currency)
  {
    var p := s.ledger[step.user];
    if step.Deposit? {
      PurseStepConserves(s, step.user, Purses.Insert(p, step.currency, step.amount).purse, currency);
    } else {
      PurseStepConserves(s, step.user, Remove(p, step.currency, step.amount).purse, currency);
    }
  }

  /** A covered pass that throws half settles its first fill. */
  lemma {:induction false} CoveredThrowHalfSettles(s: Exchange, product: string, trades: seq<Trade>)
    requires Sound(s) && Covered(s) && IsPass(ListOf(s.book, product), trades)
    requires SettleAll(s.ledger, trades).error.Some?
    ensures trades != [] && SettleAll(s.ledger, trades) == Settle(s.ledger, trades[0])
    ensures Reached(s.ledger, trades) == [trades[0]] && trades[0].ask.product == trades[0].bid.product == product
    ensures (var tokens := ExtractTokens(product, '/');
      |tokens| == 2 ==> NegativeTrade(trades[0])
                        && HalfSettled(s.ledger, Settle(s.ledger, trades[0]).ledger, trades[0], tokens[0], tokens[1]))
  {
    NoPassThrows(s, product, trades);
    CoveredCoversFirst(s, product, trades);
    ThrowHalfSettles(s, product, trades);
  }

  lemma {:induction false} PassConserves(s: Exchange, product: string, trades: seq<Trade>, currency: string)
    requires Sound(s) && Covered(s) && IsPass(ListOf(s.book, product), trades)
    ensures Money(SettleAll(s.ledger, trades).ledger, currency)
         == Money(s.ledger, currency) + MintedBy(s.ledger, trades, currency)
  {
    NoPassThrows(s, product, trades);
    if SettleAll(s.ledger, trades).error.Some? {
      CoveredThrowHalfSettles(s, product, trades);
      if |ExtractTokens(product, '/')| != 2 {
        BadProductOpens(s.ledger, trades[0]);
      }
    }
  }

  lemma {:induction false} StepConserves(s: Exchange, step: Step, currency: string)
    requires Sound(s) && Covered(s) && Enabled(s, step)
    ensures Money(Next(s, step).ledger, currency) == Money(s.ledger, currency) + Injected(s, step, currency)
  {
    match step
    case Register(user) =>
      MoneyUpdates(s.ledger, user, EMPTY_PURSE, currency);
    case Deposit(user, c, amount) =>
      FundingConserves(s, step, currency);
    case Withdraw(user, c, amount) =>
      FundingConserves(s, step, currency);
    case Place(o) =>
      PlaceConserves(s, o, currency);
    case Match(product, now, asks, bids) =>
      PassConserves(s, product, Merge(asks, bids), currency);
    case CancelById(user, id) =>
      CancelConserves(s, user, id, currency);
    case _ =>
  }

  /** Conservation: over every run the money in the system - free plus locked, over all users - is what it
      was at the start, plus deposits, less withdrawals, plus what passes minted. */
  lemma {:induction false} MoneyIsConserved(s: Exchange, steps: seq<Step>, s': Exchange, currency: string)
    requires Orderly(s) && Covered(s) && Run(s, steps, s')
    ensures Money(s'.ledger, currency) == Money(s.ledger, currency) + InjectedOver(s, steps, currency)
    decreases |steps|
  {
    if steps != [] {
      StepIsOrderly(s, steps[0]);
      StepLeaks(s, steps[0]);
      StepConserves(s, steps[0], currency);
      MoneyIsConserved(Next(s, steps[0]), steps[1..], s', currency);
    }
  }

  /** A pass that throws over a product of two currencies creates money: at least what the seller asked to
      pay the buyer. */
  lemma {:induction false} ThrowingMints(s: Exchange, product: string, trades: seq<Trade>)
    requires Sound(s) && Covered(s) && IsPass(ListOf(s.book, product), trades)
    requires SettleAll(s.ledger, trades).error.Some? && |ExtractTokens(product, '/')| == 2
    requires LockedOf(s.ledger, DEFAULT_USER, ExtractTokens(product, '/')[1]) >= 0.0
    ensures trades != [] && Cost(trades[0]) < 0.0
    ensures MintedBy(s.ledger, trades, ExtractTokens(product, '/')[1]) >= 0.0 - Cost(trades[0])
  {
    CoveredThrowHalfSettles(s, product, trades);
    NegativeCost(trades[0]);
  }

  // ---- default's wallet ----

  /** A pass that throws with default as its first buyer leaves default with locked funds, unless default
      sells the same currency to itself. */
  lemma {:induction false} DefaultBuyerHoldsLock(s: Exchange, product: string, trades: seq<Trade>)
    requires Sound(s) && Covered(s) && IsPass(ListOf(s.book, product), trades) && DefaultUnlocked(s.ledger)
    requires SettleAll(s.ledger, trades).error.Some? && trades != [] && trades[0].bid.username == DEFAULT_USER
    ensures (var tokens := ExtractTokens(product, '/');
      |tokens| == 2 && tokens[0] != tokens[1] ==>
        LockedOf(SettleAll(s.ledger, trades).ledger, DEFAULT_USER, tokens[1]) == 0.0 - Cost(trades[0]) > 0.0)
  {
    CoveredThrowHalfSettles(s, product, trades);
    if |ExtractTokens(product, '/')| == 2 {
      var quote := ExtractTokens(product, '/')[1];
      NegativeCost(trades[0]);
      assert LockedOf(s.ledger, DEFAULT_USER, quote) == 0.0;
    }
  }

  lemma {:induction false} StepKeepsDefaultUnlocked(s: Exchange, step: Step)
    requires Sound(s) && Covered(s) && Enabled(s, step) && Settles(s, step) && DefaultUnlocked(s.ledger)
    ensures DefaultUnlocked(Next(s, step).ledger)
  {
    if step.Match? {
      NoPassThrows(s, step.product, Merge(step.asks, step.bids));
    } else {
      DefaultUntouched(s, step);
    }
  }

  /** Only a pass calls default's wallet. */
  lemma {:induction false} DefaultUntouched(s: Exchange, step: Step)
    requires Sound(s) && Enabled(s, step) && !step.Match?
    ensures forall c :: LockedOf(Next(s, step).ledger, DEFAULT_USER, c) == LockedOf(s.ledger, DEFAULT_USER, c)
  {
    if step.CancelById? {
      var found, product, k := CancelFinds(s, step.user, step.id);
    }
  }

  /** As long as no pass throws, default's wallet never holds a lock. */
  lemma {:induction false} DefaultStaysUnlocked(s: Exchange, steps: seq<Step>, s': Exchange)
    requires Orderly(s) && Covered(s) && DefaultUnlocked(s.ledger) && Run(s, steps, s') && Calm(s, steps)
    ensures DefaultUnlocked(s'.ledger)
    decreases |steps|
  {
    if steps != [] {
      StepIsOrderly(s, steps[0]);
      StepLeaks(s, steps[0]);
      StepKeepsDefaultUnlocked(s, steps[0]);
      DefaultStaysUnlocked(Next(s, steps[0]), steps[1..], s');
    }
  }
}
