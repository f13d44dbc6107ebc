/** What a pass achieves, stated on the product's list as it stands in the book. */
module Optimality {
  import opened Orders
  import opened Trades
  import opened Meters
  import opened Matching

  /** The gains from trade, what buyers would have paid at most less what sellers asked: exactly the
      refunds that settling the trades gives back. */
  function Surplus(trades: seq<Trade>): real {
    if trades == [] then 0.0
    else Refund(trades[0]) + Surplus(trades[1..])
  }

  function Quantity(trades: seq<Trade>): real {
    if trades == [] then 0.0 else trades[0].qty + Quantity(trades[1..])
  }

  function Min(x: real, y: real): real { if x <= y then x else y }

  /** What is available at price p: the smaller of what sellers would sell and buyers would buy. */
  function Equilibrium(orders: seq<Order>, p: real): real {
    Min(Measure(AsGood(Ask, p), orders), Measure(AsGood(Bid, p), orders))
  }

  /** The sorted sides of a pass. */
  lemma {:induction false} PassSides(orders: seq<Order>, trades: seq<Trade>) returns (asks: seq<Order>,
                                     bids: seq<Order>)
    requires Apart(orders) && IsPass(orders, trades)
    ensures Ranked(orders, asks, bids) && trades == Merge(asks, bids) && Sides(asks, bids)
    ensures forall o :: o in asks <==> o in orders && o.terms.orderType == Ask
    ensures forall o :: o in bids <==> o in orders && o.terms.orderType == Bid
  {
    asks, bids :| Ranked(orders, asks, bids) && trades == Merge(asks, bids);
    RankedSides(orders, asks, bids);
  }

  /** A pass fills asks and bids of the list within their open amounts, at prices both accept. */
  lemma {:induction false} PassIsFeasible(orders: seq<Order>, trades: seq<Trade>)
    requires Apart(orders) && IsPass(orders, trades)
    ensures Feasible(orders, trades)
    ensures forall t | t in trades :: t.qty > 0.0 && t.ask.price <= t.bid.price
  {
    var asks, bids := PassSides(orders, trades);
    MergeTrades(asks, bids);
    MergeFits(asks, bids);
    forall t | t in trades ensures Between(t, orders) {
      var a :| 0 <= a < |asks| && asks[a].terms == t.ask;
      var b :| 0 <= b < |bids| && bids[b].terms == t.bid;
      assert asks[a] in orders && bids[b] in orders;
    }
    forall o | o in orders ensures Filled(trades, o.terms) <= Open(o) {
      if o.terms.orderType == Sale {
        UntouchedNotFilled(trades, o.terms);
      }
    }
  }

  /** A price at which everything that traded was willing and nothing left over was. */
  ghost predicate ClearsAt(orders: seq<Order>, trades: seq<Trade>, p: real) {
    && (forall t | t in trades :: t.ask.price <= p <= t.bid.price)
    && (forall o | o in orders && Remainder(o, trades).amount > 0.0 ::
          && (o.terms.orderType == Ask ==> p <= o.terms.price)
          && (o.terms.orderType == Bid ==> o.terms.price <= p))
  }

  lemma {:induction false} PassClears(orders: seq<Order>, trades: seq<Trade>) returns (p: real)
    requires Apart(orders) && IsPass(orders, trades)
    ensures ClearsAt(orders, trades, p)
  {
    var asks, bids := PassSides(orders, trades);
    var lo := if asks == [] then 0.0 else asks[0].terms.price;
    var hi := if bids == [] then lo else bids[0].terms.price;
    lo := Min(lo, hi);
    p := ClearingPrice(asks, bids, lo, if hi >= lo then hi else lo);
  }

  /** After a pass no remaining bid reaches any remaining ask. */
  lemma {:induction false} PassUncrosses(orders: seq<Order>, trades: seq<Trade>)
    requires Apart(orders) && IsPass(orders, trades)
    ensures !Crossed(Apply(orders, trades))
  {
    var asks, bids := PassSides(orders, trades);
    var after := Apply(orders, trades);
    forall a, b | a in after && b in after && a.terms.orderType == Ask && b.terms.orderType == Bid
                  && a.amount > 0.0 && b.amount > 0.0
      ensures b.terms.price < a.terms.price
    {
      var i :| 0 <= i < |after| && after[i] == a;
      var j :| 0 <= j < |after| && after[j] == b;
      assert orders[i] in asks && orders[j] in bids;
      MergeUncrosses(asks, bids, orders[i], orders[j]);
    }
  }

  // ---- maximum surplus ----

  lemma {:induction false} WorthMonotone(m: Meter, x: Terms, a: real, b: real)
    requires Rate(m, x) >= 0.0 && a <= b
    ensures Worth(m, x, a) <= Worth(m, x, b)
  {
    ScaledMonotone(Rate(m, x), a, b);
  }

  lemma {:induction false} WeightedBounded(m: Meter, orders: seq<Order>, trades: seq<Trade>)
    requires !m.Stuck? && forall o | o in orders :: Rate(m, o.terms) >= 0.0 && Filled(trades, o.terms) <= Open(o)
    ensures Weighted(m, orders, trades) <= Measure(m, orders)
  {
    if orders != [] {
      var o := orders[0];
      assert o in orders;
      WorthMonotone(m, o.terms, Filled(trades, o.terms), Open(o));
      WeightedBounded(m, orders[1..], trades);
    }
  }

  /** Nothing feasible takes more of a measure than there is. */
  lemma {:induction false} TradedBounded(m: Meter, orders: seq<Order>, trades: seq<Trade>)
    requires Apart(orders) && Feasible(orders, trades) && !m.Stuck?
    requires forall o | o in orders :: Rate(m, o.terms) >= 0.0
    ensures Traded(m, trades) <= Measure(m, orders)
  {
    WeightedBounded(m, orders, trades);
    TradedIsWeighted(m, orders, trades);
  }

  lemma {:induction false} SurplusOfOne(t: Trade, p: real)
    requires t.ask.orderType == Ask && t.bid.orderType == Bid && t.qty >= 0.0
    ensures Refund(t) <= Worth(Gain(p), t.ask, t.qty) + Worth(Gain(p), t.bid, t.qty)
    ensures t.ask.price <= p <= t.bid.price ==>
      Refund(t) == Worth(Gain(p), t.ask, t.qty) + Worth(Gain(p), t.bid, t.qty)
  {
    var g := Rate(Gain(p), t.ask) + Rate(Gain(p), t.bid);
    assert Worth(Gain(p), t.ask, t.qty) + Worth(Gain(p), t.bid, t.qty) == g * t.qty;
    assert t.bid.price - t.ask.price <= g;
  }

  /** Weak duality: at any pivot price, the gains against it bound the surplus; they equal it
      when every trade straddles the pivot. */
  lemma {:induction false} SurplusBelowGain(trades: seq<Trade>, p: real)
    requires forall t | t in trades :: t.ask.orderType == Ask && t.bid.orderType == Bid && t.qty >= 0.0
    ensures Surplus(trades) <= Traded(Gain(p), trades)
    ensures (forall t | t in trades :: t.ask.price <= p <= t.bid.price) ==> Surplus(trades) == Traded(Gain(p), trades)
  {
    if trades != [] {
      SurplusOfOne(trades[0], p);
      SurplusBelowGain(trades[1..], p);
    }
  }

  lemma {:induction false} GainBoundsSurplus(orders: seq<Order>, other: seq<Trade>, p: real)
    requires Apart(orders) && Feasible(orders, other)
    ensures Surplus(other) <= Measure(Gain(p), orders)
  {
    forall t | t in other ensures t.ask.orderType == Ask && t.bid.orderType == Bid && t.qty >= 0.0 {
      assert Between(t, orders);
    }
    SurplusBelowGain(other, p);
    TradedBounded(Gain(p), orders, other);
  }

  /** What is left after a pass gains nothing against its clearing price. */
  lemma {:induction false} GainVanishes(orders: seq<Order>, trades: seq<Trade>, p: real)
    requires ClearsAt(orders, trades, p)
    ensures Measure(Gain(p), Apply(orders, trades)) == 0.0
  {
    var after := Apply(orders, trades);
    forall o | o in after ensures Rate(Gain(p), o.terms) == 0.0 || Open(o) == 0.0 {
      var k :| 0 <= k < |after| && after[k] == o;
      assert orders[k] in orders;
    }
    MeasureVanishes(Gain(p), after);
  }

  lemma {:induction false} GainIsSurplus(orders: seq<Order>, trades: seq<Trade>, p: real)
    requires Apart(orders) && Feasible(orders, trades) && ClearsAt(orders, trades, p)
    ensures Surplus(trades) == Measure(Gain(p), orders)
  {
    forall t | t in trades ensures t.ask.orderType == Ask && t.bid.orderType == Bid && t.qty >= 0.0 {
      assert Between(t, orders);
    }
    TradesTakeTheirMeasure(Gain(p), orders, trades);
    GainVanishes(orders, trades, p);
    SurplusBelowGain(trades, p);
  }

  /** No feasible allocation of the same asks and bids has a larger surplus than the pass. */
  lemma {:induction false} PassMaximisesSurplus(orders: seq<Order>, trades: seq<Trade>, other: seq<Trade>)
    requires Apart(orders) && IsPass(orders, trades)
    requires Feasible(orders, other)
    ensures Surplus(other) <= Surplus(trades)
  {
    PassIsFeasible(orders, trades);
    var p := PassClears(orders, trades);
    GainBoundsSurplus(orders, other, p);
    GainIsSurplus(orders, trades, p);
  }

  // ---- equilibrium volume ----

  /** What one trade counts for, when its two orders together are rated at most one. */
  lemma {:induction false} WorthOfTrade(m: Meter, t: Trade)
    requires t.qty >= 0.0 && 0.0 <= Rate(m, t.ask) + Rate(m, t.bid) <= 1.0
    ensures 0.0 <= Worth(m, t.ask, t.qty) + Worth(m, t.bid, t.qty) <= t.qty
    ensures Rate(m, t.ask) + Rate(m, t.bid) == 1.0 ==> Worth(m, t.ask, t.qty) + Worth(m, t.bid, t.qty) == t.qty
    ensures Rate(m, t.ask) + Rate(m, t.bid) == 0.0 ==> Worth(m, t.ask, t.qty) + Worth(m, t.bid, t.qty) == 0.0
  {
    SharesOf(Rate(m, t.ask), Rate(m, t.bid), t.qty, Worth(m, t.ask, t.qty), Worth(m, t.bid, t.qty));
  }

  lemma {:induction false} SharesOf(a: real, b: real, q: real, aq: real, bq: real)
    requires 0.0 <= a + b <= 1.0 && q >= 0.0 && aq == a * q && bq == b * q
    ensures 0.0 <= aq + bq <= q
    ensures a + b == 1.0 ==> aq + bq == q
    ensures a + b == 0.0 ==> aq + bq == 0.0
  {
    var r := a + b;
    assert aq + bq == r * q;
    PartOf(r, q);
  }

  lemma {:induction false} PartOf(r: real, q: real)
    requires 0.0 <= r <= 1.0 && q >= 0.0
    ensures 0.0 <= r * q <= q
  {
    ScaledMonotone(q, 0.0, r);
    ScaledMonotone(q, r, 1.0);
  }

  /** A meter that rates each trade at exactly one counts the quantity traded. */
  lemma {:induction false} TradedCountsQuantity(m: Meter, trades: seq<Trade>)
    requires forall t | t in trades :: t.qty >= 0.0 && 0.0 <= Rate(m, t.ask) + Rate(m, t.bid) <= 1.0
    ensures 0.0 <= Traded(m, trades) <= Quantity(trades)
    ensures (forall t | t in trades :: Rate(m, t.ask) + Rate(m, t.bid) == 1.0) ==> Traded(m, trades) == Quantity(trades)
  {
    if trades != [] {
      WorthOfTrade(m, trades[0]);
      TradedCountsQuantity(m, trades[1..]);
    }
  }

  /** An uncrossed list has no supply or no demand left at any price. */
  lemma {:induction false} OneSideGone(orders: seq<Order>, p: real)
    requires !Crossed(orders)
    ensures Measure(AsGood(Ask, p), orders) == 0.0 || Measure(AsGood(Bid, p), orders) == 0.0
  {
    if a :| a in orders && a.terms.orderType == Ask && a.terms.price <= p && a.amount > 0.0 {
      forall b | b in orders ensures Rate(AsGood(Bid, p), b.terms) == 0.0 || Open(b) == 0.0 {
      }
      MeasureVanishes(AsGood(Bid, p), orders);
    } else {
      forall a | a in orders ensures Rate(AsGood(Ask, p), a.terms) == 0.0 || Open(a) == 0.0 {
      }
      MeasureVanishes(AsGood(Ask, p), orders);
    }
  }

  lemma {:induction false} TakesAtMostQuantity(m: Meter, orders: seq<Order>, trades: seq<Trade>)
    requires Apart(orders) && IsPass(orders, trades)
    requires m.AsGood?
    ensures Measure(m, orders) <= Measure(m, Apply(orders, trades)) + Quantity(trades)
  {
    PassIsFeasible(orders, trades);
    TradesTakeTheirMeasure(m, orders, trades);
    OneSidedRates(m, orders, trades);
    TradedCountsQuantity(m, trades);
  }

  lemma {:induction false} OneSidedRates(m: Meter, orders: seq<Order>, trades: seq<Trade>)
    requires m.AsGood? && Feasible(orders, trades)
    ensures forall t | t in trades :: t.qty >= 0.0 && 0.0 <= Rate(m, t.ask) + Rate(m, t.bid) <= 1.0
  {
    forall t | t in trades ensures t.qty >= 0.0 && 0.0 <= Rate(m, t.ask) + Rate(m, t.bid) <= 1.0 {
      assert Between(t, orders);
    }
  }

  /** At any price the quantity traded reaches supply or demand. */
  lemma {:induction false} QuantityReaches(orders: seq<Order>, trades: seq<Trade>, p: real)
    requires Apart(orders) && IsPass(orders, trades)
    ensures Equilibrium(orders, p) <= Quantity(trades)
  {
    PassUncrosses(orders, trades);
    OneSideGone(Apply(orders, trades), p);
    TakesAtMostQuantity(AsGood(Ask, p), orders, trades);
    TakesAtMostQuantity(AsGood(Bid, p), orders, trades);
  }

  /** At a price that every trade accepts, both sides offer at least what was traded. */
  lemma {:induction false} AvailableAt(orders: seq<Order>, trades: seq<Trade>, p: real)
    requires Apart(orders) && Feasible(orders, trades) && forall t | t in trades :: t.ask.price <= p <= t.bid.price
    ensures Equilibrium(orders, p) >= Quantity(trades)
  {
    forall t | t in trades
      ensures Rate(AsGood(Ask, p), t.ask) + Rate(AsGood(Ask, p), t.bid) == 1.0
      ensures Rate(AsGood(Bid, p), t.ask) + Rate(AsGood(Bid, p), t.bid) == 1.0
    {
      assert Between(t, orders);
    }
    TradedBounded(AsGood(Ask, p), orders, trades);
    TradedBounded(AsGood(Bid, p), orders, trades);
    TradedCountsQuantity(AsGood(Ask, p), trades);
    TradedCountsQuantity(AsGood(Bid, p), trades);
  }

  /** The quantity a pass trades is the equilibrium volume: the largest, over all prices, of what
      both sides offer at that price; and some price attains it. */
  lemma {:induction false} PassTradesEquilibriumVolume(orders: seq<Order>, trades: seq<Trade>) returns (best: real)
    requires Apart(orders) && IsPass(orders, trades)
    ensures forall p :: Equilibrium(orders, p) <= Quantity(trades)
    ensures Equilibrium(orders, best) == Quantity(trades)
  {
    forall p ensures Equilibrium(orders, p) <= Quantity(trades) {
      QuantityReaches(orders, trades, p);
    }
    best := PassClears(orders, trades);
    PassIsFeasible(orders, trades);
    AvailableAt(orders, trades, best);
  }

  // ---- the sales and what they leave ----

  /** The list of sales: all positive, within both limits, at non-decreasing prices, at most one
      fewer than there are orders, and as much as each side lost. */
  lemma {:induction false} PassSales(orders: seq<Order>, trades: seq<Trade>)
    requires Apart(orders) && IsPass(orders, trades)
    ensures forall t | t in trades :: t.qty > 0.0 && t.ask.price <= t.bid.price
    ensures PricesRise(trades)
    ensures trades == [] || |trades| <= |Side(orders, Ask)| + |Side(orders, Bid)| - 1
    ensures forall side | side == Ask || side == Bid ::
      Quantity(trades) == Measure(Volume(side), orders) - Measure(Volume(side), Apply(orders, trades))
  {
    PassIsFeasible(orders, trades);
    var asks, bids := PassSides(orders, trades);
    MergePricesRise(asks, bids);
    MergeLength(asks, bids);
    assert |asks| == |multiset(asks)| && |bids| == |multiset(bids)|;
    assert |Side(orders, Ask)| == |multiset(Side(orders, Ask))| && |Side(orders, Bid)| == |multiset(Side(orders, Bid))|;
    forall side | side == Ask || side == Bid
      ensures Quantity(trades) == Measure(Volume(side), orders) - Measure(Volume(side), Apply(orders, trades))
    {
      TradesTakeTheirMeasure(Volume(side), orders, trades);
      TradedCountsQuantity(Volume(side), trades);
    }
  }

  /** A strictly worse-priced order never trades while a better one of its side has anything left. */
  lemma {:induction false} PassRespectsPrice(orders: seq<Order>, trades: seq<Trade>, better: Order, worse: Order)
    requires Apart(orders) && IsPass(orders, trades)
    requires better in orders && worse in orders
    requires better.terms.orderType == worse.terms.orderType
    requires if better.terms.orderType == Ask then better.terms.price < worse.terms.price
             else better.terms.price > worse.terms.price
    requires Filled(trades, worse.terms) > 0.0
    ensures Remainder(better, trades).amount <= 0.0
  {
    var asks, bids := PassSides(orders, trades);
    MergeInTurn(asks, bids);
    if better.terms.orderType == Sale {
      PassIsFeasible(orders, trades);
      UntouchedNotFilled(trades, worse.terms);
      assert false;
    } else {
      var side := if better.terms.orderType == Ask then asks else bids;
      assert better in side && worse in side;
      var i :| 0 <= i < |side| && side[i] == better;
      var j :| 0 <= j < |side| && side[j] == worse;
      assert i < j;
    }
  }

  /** At most one order of the list is left partly filled. */
  lemma {:induction false} PassSlicesOne(orders: seq<Order>, trades: seq<Trade>, o1: Order, o2: Order)
    requires Apart(orders) && IsPass(orders, trades)
    requires o1 in orders && o2 in orders && Sliced(o1, trades) && Sliced(o2, trades)
    ensures o1 == o2
  {
    var asks, bids := PassSides(orders, trades);
    PassIsFeasible(orders, trades);
    forall o | o == o1 || o == o2 ensures o in asks || o in bids {
      if o.terms.orderType == Sale {
        UntouchedNotFilled(trades, o.terms);
      }
    }
    OneSliced(asks, bids, o1, o2);
  }

  /** The list a pass leaves behind is uncrossed and holds no exhausted order, and a second pass
      over it makes no sale and changes nothing. */
  lemma {:induction false} SecondPassIsIdle(orders: seq<Order>, trades: seq<Trade>, again: seq<Trade>)
    requires Apart(orders) && IsPass(orders, trades)
    ensures var left := Purge(Apply(orders, trades));
      && !Crossed(left) && (forall o | o in left :: o.amount > 0.0)
      && (IsPass(left, again) ==> again == [] && Purge(Apply(left, again)) == left)
  {
    PassUncrosses(orders, trades);
    var after := Apply(orders, trades);
    var left := Purge(after);
    assert !Crossed(left) by {
      assert forall o | o in left :: o in after;
    }
    PurgeApart(after);
    if IsPass(left, again) {
      NoCrossingNoTrade(left, again);
      PurgeOpen(left);
    }
  }

  lemma {:induction false} NoCrossingNoTrade(orders: seq<Order>, trades: seq<Trade>)
    requires Apart(orders) && IsPass(orders, trades) && !Crossed(orders)
    ensures trades == [] && Apply(orders, trades) == orders
  {
    if trades != [] {
      TradingNeedsCrossing(orders, trades);
    }
    assert forall x :: Filled([], x) == 0.0;
  }

  lemma {:induction false} PurgeApart(orders: seq<Order>)
    requires Apart(orders)
    ensures Apart(Purge(orders))
  {
    if orders != [] {
      PurgeApart(orders[1..]);
      HoldsHead(orders, orders[0].terms);
      var rest := Purge(orders[1..]);
      forall k | 0 <= k < |rest| ensures rest[k].terms != orders[0].terms {
        assert rest[k] in orders[1..];
      }
    }
  }

  lemma {:induction false} TradingNeedsCrossing(orders: seq<Order>, trades: seq<Trade>)
    requires Apart(orders) && IsPass(orders, trades) && trades != []
    ensures Crossed(orders)
  {
    PassIsFeasible(orders, trades);
    var t := trades[0];
    assert t in trades;
    var a :| 0 <= a < |orders| && orders[a].terms == t.ask;
    var b :| 0 <= b < |orders| && orders[b].terms == t.bid;
    FilledNonNegative(trades, t.ask);
    FilledNonNegative(trades, t.bid);
    assert orders[a] in orders && orders[b] in orders;
  }
}
