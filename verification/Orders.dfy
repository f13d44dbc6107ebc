/** The entity that the exchange stores and trades: an OrderBookEntry. */
module Orders {

  datatype OrderType = Bid | Ask | Sale

  /** Everything of an order that never changes once it is constructed. The amount is the
      one field the matching pass writes, so it is kept apart. */
  datatype Terms = Terms(
    price: real,
    timestamp: string,
    product: string,
    orderType: OrderType,
    username: string,
    id: nat)

  datatype Order = Order(terms: Terms, amount: real)

  /** The owner of orders that come from the CSV file rather than from a client. */
  const DEFAULT_USER := "default"

  datatype Option<+T> = None | Some(value: T) {
    function GetOr(default: T): T {
      if Some? then value else default
    }
  }

  function DetermineOrderType(text: string): (r: Option<OrderType>)
  {
    if text == "bid" then Some(Bid)
    else if text == "ask" then Some(Ask)
    else if text == "sale" then Some(Sale)
    else None
  }

  function OrderTypeToString(t: OrderType): string {
    match t
    case Bid => "bid"
    case Ask => "ask"
    case Sale => "sale"
  }

  /** The quantity of an order that can still trade: a non-positive amount counts as filled. */
  function Open(o: Order): (r: real)
    ensures r >= 0.0
  {
    if o.amount > 0.0 then o.amount else 0.0
  }

  /** A price at least as good as another on its side: lower for asks, higher for bids. */
  predicate Ranks(x: real, y: real, side: OrderType) {
    if side == Ask then x <= y else x >= y
  }

  /** In price order: asks by rising price, bids by falling price. */
  ghost predicate InRank(orders: seq<Order>, side: OrderType) {
    forall i, j {:trigger orders[i], orders[j]} | 0 <= i < j < |orders| ::
      Ranks(orders[i].terms.price, orders[j].terms.price, side)
  }

  /** No two orders share their terms (ids are unique, so this holds of every list in the book). */
  ghost predicate Apart(orders: seq<Order>) {
    forall i, j | 0 <= i < j < |orders| :: orders[i].terms != orders[j].terms
  }

  ghost predicate Holds(orders: seq<Order>, x: Terms) {
    exists k | 0 <= k < |orders| :: orders[k].terms == x
  }

  lemma {:induction false} HoldsHead(orders: seq<Order>, x: Terms)
    requires orders != []
    ensures Holds(orders, x) <==> orders[0].terms == x || Holds(orders[1..], x)
    ensures Apart(orders) ==> !Holds(orders[1..], orders[0].terms)
  {
    if Holds(orders, x) && orders[0].terms != x {
      var k :| 0 <= k < |orders| && orders[k].terms == x;
      assert orders[1..][k - 1].terms == x;
    }
    if Holds(orders[1..], x) {
      var k :| 0 <= k < |orders[1..]| && orders[1..][k].terms == x;
      assert orders[k + 1].terms == x;
    }
  }

  /** The orders of one side, in list order (getOrders). */
  function Side(orders: seq<Order>, t: OrderType): (side: seq<Order>)
    ensures forall o :: o in side <==> o in orders && o.terms.orderType == t
  {
    if orders == [] then []
    else (if orders[0].terms.orderType == t then [orders[0]] else []) + Side(orders[1..], t)
  }

  lemma {:induction false} SideCounts(orders: seq<Order>, t: OrderType, o: Order)
    ensures multiset(Side(orders, t))[o] <= multiset(orders)[o]
  {
    if orders != [] {
      SideCounts(orders[1..], t, o);
      assert orders == [orders[0]] + orders[1..];
    }
  }

  lemma {:induction false} ApartCounts(orders: seq<Order>, o: Order)
    requires Apart(orders)
    ensures multiset(orders)[o] <= 1
  {
    if orders != [] {
      assert orders == [orders[0]] + orders[1..];
      ApartCounts(orders[1..], o);
      forall k | 0 <= k < |orders| - 1 ensures orders[1..][k] != orders[0] {
        assert orders[0].terms != orders[k + 1].terms;
      }
    }
  }

  lemma {:induction false} ApartMembers(orders: seq<Order>, o: Order, q: Order)
    requires Apart(orders) && o in orders && q in orders && o.terms == q.terms
    ensures o == q
  {
    var i :| 0 <= i < |orders| && orders[i] == o;
    var j :| 0 <= j < |orders| && orders[j] == q;
    assert i == j;
  }

  lemma {:induction false} TwiceCounts(s: seq<Order>, i: nat, j: nat)
    requires i < j < |s| && s[i] == s[j]
    ensures multiset(s)[s[i]] >= 2
  {
    assert s == s[..j] + s[j..];
    assert s[i] in s[..j] && s[j] in s[j..];
  }

  lemma {:induction false} PermutationMembers(orders: seq<Order>, t: OrderType, side: seq<Order>)
    requires multiset(side) == multiset(Side(orders, t))
    ensures forall o :: o in side <==> o in orders && o.terms.orderType == t
  {
    forall o ensures o in side <==> o in Side(orders, t) {
      assert o in side <==> o in multiset(side);
      assert o in Side(orders, t) <==> o in multiset(Side(orders, t));
    }
  }

  /** Any reordering of one side of a list with distinct terms has distinct terms. */
  lemma {:induction false} ApartPermutation(orders: seq<Order>, t: OrderType, side: seq<Order>)
    requires Apart(orders)
    requires multiset(side) == multiset(Side(orders, t))
    ensures Apart(side)
    ensures forall o :: o in side <==> o in orders && o.terms.orderType == t
  {
    PermutationMembers(orders, t, side);
    forall i, j | 0 <= i < j < |side| ensures side[i].terms != side[j].terms {
      if side[i].terms == side[j].terms {
        ApartMembers(orders, side[i], side[j]);
        TwiceCounts(side, i, j);
        SideCounts(orders, t, side[i]);
        ApartCounts(orders, side[i]);
      }
    }
  }
}
