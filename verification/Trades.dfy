/** Trades between two orders, and what a list of them leaves of the orders. */
module Trades {
  import opened Orders
  import opened Sequences

  /** A fill: the seller's order, the buyer's order and the quantity that changed hands. */
  datatype Trade = Trade(ask: Terms, bid: Terms, qty: real)

  /** What the buyer pays, at the ask's price ... */
  function Cost(t: Trade): real { t.ask.price * t.qty }

  /** ... and what the buyer had reserved beyond that: the refund, which is also the fill's surplus. */
  function Refund(t: Trade): real { (t.bid.price - t.ask.price) * t.qty }

  /** How much of the order with terms x the trades fill. */
  function Filled(trades: seq<Trade>, x: Terms): real {
    if trades == [] then 0.0
    else (if trades[0].ask == x || trades[0].bid == x then trades[0].qty else 0.0) + Filled(trades[1..], x)
  }

  function Remainder(o: Order, trades: seq<Trade>): Order {
    o.(amount := o.amount - Filled(trades, o.terms))
  }

  function Apply(orders: seq<Order>, trades: seq<Trade>): (r: seq<Order>)
    ensures |r| == |orders|
    ensures forall k | 0 <= k < |r| :: r[k] == Remainder(orders[k], trades)
  {
    seq(|orders|, k requires 0 <= k < |orders| => Remainder(orders[k], trades))
  }

  /** What stays in the book: removeMatchedOrders drops every order that is fully filled. */
  function Purge(orders: seq<Order>): (r: seq<Order>)
    ensures forall o :: o in r <==> o in orders && o.amount > 0.0
  {
    if orders == [] then []
    else (if orders[0].amount <= 0.0 then [] else [orders[0]]) + Purge(orders[1..])
  }

  /** Purging goes order by order: what stays keeps its place among the others. */
  lemma {:induction false} PurgeJoins(first: seq<Order>, second: seq<Order>)
    ensures Purge(first + second) == Purge(first) + Purge(second)
  {
    if first == [] {
      assert first + second == second && [] + Purge(second) == Purge(second);
    } else {
      assert (first + second)[1..] == first[1..] + second;
      PurgeJoins(first[1..], second);
      Associate(if first[0].amount <= 0.0 then [] else [first[0]], Purge(first[1..]), Purge(second));
    }
  }

  lemma {:induction false} PurgeOne(o: Order)
    ensures Purge([o]) == if o.amount > 0.0 then [o] else []
  {
    assert [o][1..] == [];
  }

  ghost predicate Between(t: Trade, orders: seq<Order>) {
    t.ask.orderType == Ask && t.bid.orderType == Bid && Holds(orders, t.ask) && Holds(orders, t.bid)
  }

  /** An allocation that no order can object to on quantity: trades join an ask and a bid of
      the list, quantities are non-negative, and no order trades more than it has open. */
  ghost predicate Feasible(orders: seq<Order>, trades: seq<Trade>) {
    && (forall t | t in trades :: Between(t, orders) && t.qty >= 0.0)
    && (forall o | o in orders :: Filled(trades, o.terms) <= Open(o))
  }

  lemma {:induction false} FilledJoins(first: seq<Trade>, second: seq<Trade>, x: Terms)
    ensures Filled(first + second, x) == Filled(first, x) + Filled(second, x)
  {
    if first == [] {
      assert first + second == second;
    } else {
      assert (first + second)[1..] == first[1..] + second;
      FilledJoins(first[1..], second, x);
    }
  }

  lemma {:induction false} FilledNonNegative(trades: seq<Trade>, x: Terms)
    requires forall t | t in trades :: t.qty >= 0.0
    ensures Filled(trades, x) >= 0.0
    ensures forall t | t in trades && (t.ask == x || t.bid == x) :: t.qty <= Filled(trades, x)
  {
    if trades != [] {
      FilledNonNegative(trades[1..], x);
    }
  }

  lemma {:induction false} UntouchedNotFilled(trades: seq<Trade>, x: Terms)
    requires forall t | t in trades :: t.ask != x && t.bid != x
    ensures Filled(trades, x) == 0.0
  {
    if trades != [] {
      UntouchedNotFilled(trades[1..], x);
    }
  }

  lemma {:induction false} PurgeOpen(orders: seq<Order>)
    requires forall o | o in orders :: o.amount > 0.0
    ensures Purge(orders) == orders
  {
    if orders != [] {
      assert orders[0] in orders;
      PurgeOpen(orders[1..]);
    }
  }
}
