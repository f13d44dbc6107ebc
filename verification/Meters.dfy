/** Linear measures of a list of orders.

    Every quantity the exchange accounts for (volume at a price, gain against a price,
    funds reserved for a user) is a rate fixed by an order's terms times its open amount.
    Naming the rates lets each fact about such sums be proved once. */
module Meters {
  import opened Orders
  import opened Tokenizer
  import opened Trades

  datatype Meter =
    | Volume(side: OrderType)                       // all open quantity of one side
    | AsGood(side: OrderType, limit: real)          // orders of one side priced at limit or better
    | Better(side: OrderType, limit: real)          // orders of one side priced strictly better
    | Gain(pivot: real)                             // what each order gains against a price
    | Reserve(user: string, currency: string)       // funds of user that the order needs
    | Stuck(user: string, currency: string)         // funds of user locked for what no pass can fill

  function Positive(x: real): real { if x > 0.0 then x else 0.0 }

  /** What one unit of an order with these terms counts for. */
  function Rate(m: Meter, x: Terms): real {
    match m
    case Volume(side) => if x.orderType == side then 1.0 else 0.0
    case AsGood(side, limit) => if x.orderType == side && Ranks(x.price, limit, side) then 1.0 else 0.0
    case Better(side, limit) => if x.orderType == side && !Ranks(limit, x.price, side) then 1.0 else 0.0
    case Gain(pivot) =>
      (match x.orderType
       case Ask => Positive(pivot - x.price)
       case Bid => Positive(x.price - pivot)
       case Sale => 0.0)
    case Reserve(user, currency) => if x.username == user then ReservePerUnit(x, currency) else 0.0
    case Stuck(user, currency) => 0.0
  }

  /** Selling one unit ties up one unit of the base currency; buying it ties up its price
      in the quote currency (Wallet::fulfillOrder). */
  function ReservePerUnit(x: Terms, currency: string): real {
    var tokens := ExtractTokens(x.product, '/');
    if |tokens| != 2 then 0.0
    else if x.orderType == Ask && tokens[0] == currency then 1.0
    else if x.orderType == Bid && tokens[1] == currency then x.price
    else 0.0
  }

  /** A bid whose amount and price are both negative: the wallet locks their product, and a pass
      takes the order for exhausted. */
  predicate NegativePair(o: Order) {
    o.terms.orderType == Bid && o.amount < 0.0 && o.terms.price < 0.0
  }

  /** What such an order holds locked of one currency. */
  function StuckIn(o: Order, currency: string): real {
    var tokens := ExtractTokens(o.terms.product, '/');
    if NegativePair(o) && |tokens| == 2 && tokens[1] == currency then o.amount * o.terms.price else 0.0
  }

  /** What q units of an order with these terms count for. */
  function Worth(m: Meter, x: Terms, q: real): real { Rate(m, x) * q }

  lemma {:induction false} WorthAdds(m: Meter, x: Terms, a: real, b: real)
    ensures Worth(m, x, a + b) == Worth(m, x, a) + Worth(m, x, b)
    ensures Worth(m, x, a - b) == Worth(m, x, a) - Worth(m, x, b)
    ensures Worth(m, x, 0.0) == 0.0
  {
  }

  lemma {:induction false} ScaledMonotone(r: real, a: real, b: real)
    requires r >= 0.0 && a <= b
    ensures r * a <= r * b
  {
    assert r * (b - a) >= 0.0;
    assert r * (b - a) == r * b - r * a;
  }

  /** What an order counts for as it stands. */
  function Weight(m: Meter, o: Order): real {
    if m.Stuck? then (if o.terms.username == m.user then StuckIn(o, m.currency) else 0.0)
    else Worth(m, o.terms, Open(o))
  }

  function Measure(m: Meter, orders: seq<Order>): real {
    if orders == [] then 0.0
    else Weight(m, orders[0]) + Measure(m, orders[1..])
  }

  /** The same measure of what a list of trades takes from the orders it touches. */
  function Traded(m: Meter, trades: seq<Trade>): real {
    if trades == [] then 0.0
    else Worth(m, trades[0].ask, trades[0].qty) + Worth(m, trades[0].bid, trades[0].qty) + Traded(m, trades[1..])
  }

  /** A list's rates weighted by what the trades fill, order by order. */
  function Weighted(m: Meter, orders: seq<Order>, trades: seq<Trade>): real {
    if orders == [] then 0.0
    else Worth(m, orders[0].terms, Filled(trades, orders[0].terms)) + Weighted(m, orders[1..], trades)
  }

  /** What q units cost if they are all charged to terms x. */
  function Charge(m: Meter, orders: seq<Order>, x: Terms, q: real): real {
    if orders == [] then 0.0
    else (if orders[0].terms == x then Worth(m, x, q) else 0.0) + Charge(m, orders[1..], x, q)
  }

  lemma {:induction false} ChargeOnce(m: Meter, orders: seq<Order>, x: Terms, q: real)
    requires Apart(orders)
    ensures Charge(m, orders, x, q) == if Holds(orders, x) then Worth(m, x, q) else 0.0
  {
    if orders != [] {
      ChargeOnce(m, orders[1..], x, q);
      HoldsHead(orders, x);
    }
  }

  lemma {:induction false} WeightedStep(m: Meter, orders: seq<Order>, trades: seq<Trade>)
    requires trades != [] && trades[0].ask != trades[0].bid
    ensures var t := trades[0];
      Weighted(m, orders, trades)
      == Charge(m, orders, t.ask, t.qty) + Charge(m, orders, t.bid, t.qty) + Weighted(m, orders, trades[1..])
  {
    if orders != [] {
      WeightedStep(m, orders[1..], trades);
      var x := orders[0].terms;
      WorthAdds(m, x, trades[0].qty, Filled(trades[1..], x));
    }
  }

  lemma {:induction false} WeightedNothing(m: Meter, orders: seq<Order>)
    ensures Weighted(m, orders, []) == 0.0
  {
    if orders != [] {
      WeightedNothing(m, orders[1..]);
      WorthAdds(m, orders[0].terms, 0.0, 0.0);
    }
  }

  /** Summing over trades and summing over orders count the same thing. */
  lemma {:induction false} TradedIsWeighted(m: Meter, orders: seq<Order>, trades: seq<Trade>)
    requires Apart(orders)
    requires forall t | t in trades :: Between(t, orders)
    ensures Traded(m, trades) == Weighted(m, orders, trades)
  {
    if trades == [] {
      WeightedNothing(m, orders);
    } else {
      var t := trades[0];
      assert Between(t, orders);
      TradedIsWeighted(m, orders, trades[1..]);
      WeightedStep(m, orders, trades);
      ChargeOnce(m, orders, t.ask, t.qty);
      ChargeOnce(m, orders, t.bid, t.qty);
    }
  }

  lemma {:induction false} WeightAfter(m: Meter, o: Order, trades: seq<Trade>)
    requires 0.0 <= Filled(trades, o.terms) <= Open(o)
    ensures Weight(m, Remainder(o, trades)) == Weight(m, o) - Worth(m, o.terms, Filled(trades, o.terms))
  {
    assert Open(Remainder(o, trades)) == Open(o) - Filled(trades, o.terms);
    WorthAdds(m, o.terms, Open(o), Filled(trades, o.terms));
  }

  lemma {:induction false} MeasureAfter(m: Meter, orders: seq<Order>, trades: seq<Trade>)
    requires forall o | o in orders :: 0.0 <= Filled(trades, o.terms) <= Open(o)
    ensures Measure(m, Apply(orders, trades)) == Measure(m, orders) - Weighted(m, orders, trades)
  {
    if orders != [] {
      assert Apply(orders, trades)[1..] == Apply(orders[1..], trades);
      MeasureAfter(m, orders[1..], trades);
      assert orders[0] in orders;
      WeightAfter(m, orders[0], trades);
    }
  }

  /** A feasible list of trades takes from any measure exactly what the trades count for. */
  lemma {:induction false} TradesTakeTheirMeasure(m: Meter, orders: seq<Order>, trades: seq<Trade>)
    requires Apart(orders) && Feasible(orders, trades)
    ensures Measure(m, Apply(orders, trades)) == Measure(m, orders) - Traded(m, trades)
  {
    forall o | o in orders ensures 0.0 <= Filled(trades, o.terms) <= Open(o) {
      FilledNonNegative(trades, o.terms);
    }
    MeasureAfter(m, orders, trades);
    TradedIsWeighted(m, orders, trades);
  }

  lemma {:induction false} MeasureNonNegative(m: Meter, orders: seq<Order>)
    requires forall o | o in orders :: Weight(m, o) >= 0.0
    ensures Measure(m, orders) >= 0.0
  {
    if orders != [] {
      assert orders[0] in orders;
      MeasureNonNegative(m, orders[1..]);
    }
  }

  lemma {:induction false} OneOfMeasure(m: Meter, orders: seq<Order>, o: Order)
    requires o in orders && forall q | q in orders :: Weight(m, q) >= 0.0
    ensures Weight(m, o) <= Measure(m, orders)
  {
    assert orders[0] in orders;
    if o != orders[0] {
      OneOfMeasure(m, orders[1..], o);
    } else {
      MeasureNonNegative(m, orders[1..]);
    }
  }

  lemma {:induction false} MeasureOfNothing(m: Meter, orders: seq<Order>)
    requires forall o | o in orders :: Weight(m, o) == 0.0
    ensures Measure(m, orders) == 0.0
  {
    if orders != [] {
      assert orders[0] in orders;
      MeasureOfNothing(m, orders[1..]);
    }
  }

  /** A measure vanishes when every order it would count is exhausted. */
  lemma {:induction false} MeasureVanishes(m: Meter, orders: seq<Order>)
    requires !m.Stuck? && forall o | o in orders :: Rate(m, o.terms) == 0.0 || Open(o) == 0.0
    ensures Measure(m, orders) == 0.0
  {
    forall o | o in orders ensures Weight(m, o) == 0.0 {
      WorthAdds(m, o.terms, 0.0, 0.0);
    }
    MeasureOfNothing(m, orders);
  }

  lemma {:induction false} ExhaustedWeighsNothing(m: Meter, o: Order)
    requires o.amount <= 0.0 && !m.Stuck?
    ensures Weight(m, o) == 0.0
  {
    WorthAdds(m, o.terms, 0.0, 0.0);
  }

  /** A purge drops only what counts for nothing, save for what is stuck. */
  lemma {:induction false} PurgeKeepsMeasure(m: Meter, orders: seq<Order>)
    requires !m.Stuck?
    ensures Measure(m, Purge(orders)) == Measure(m, orders)
  {
    if orders != [] {
      PurgeKeepsMeasure(m, orders[1..]);
      if orders[0].amount > 0.0 {
        assert Purge(orders)[1..] == Purge(orders[1..]);
      } else {
        ExhaustedWeighsNothing(m, orders[0]);
        assert Purge(orders) == Purge(orders[1..]);
      }
    }
  }

  /** What is stuck is all dropped. */
  lemma {:induction false} PurgeDropsStuck(m: Meter, orders: seq<Order>)
    requires m.Stuck?
    ensures Measure(m, Purge(orders)) == 0.0
  {
    MeasureOfNothing(m, Purge(orders));
  }

  lemma {:induction false} MeasureJoins(m: Meter, first: seq<Order>, second: seq<Order>)
    ensures Measure(m, first + second) == Measure(m, first) + Measure(m, second)
  {
    if first == [] {
      assert first + second == second;
    } else {
      assert (first + second)[1..] == first[1..] + second;
      MeasureJoins(m, first[1..], second);
    }
  }
}
