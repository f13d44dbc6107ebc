/** The price statistics of a list of orders. */
module Stats {
  import opened Orders
  import opened Sequences

  /** The price total and the volume of a list. */
  function PriceTotal(orders: seq<Order>): real {
    if orders == [] then 0.0 else PriceTotal(orders[..|orders| - 1]) + Value(orders[|orders| - 1])
  }

  function Value(o: Order): real { o.terms.price * o.amount }

  function Volume(orders: seq<Order>): real {
    if orders == [] then 0.0 else Volume(orders[..|orders| - 1]) + orders[|orders| - 1].amount
  }

  // ---- what totals and averages mean ----

  lemma {:induction false} OneOrder(o: Order)
    ensures Volume([o]) == o.amount && PriceTotal([o]) == o.terms.price * o.amount
  {
    assert [o][..0] == [];
  }

  /** Both add up over lists ... */
  lemma {:induction false} TotalsJoin(first: seq<Order>, second: seq<Order>)
    ensures Volume(first + second) == Volume(first) + Volume(second)
    ensures PriceTotal(first + second) == PriceTotal(first) + PriceTotal(second)
  {
    if second == [] {
      assert first + second == first;
    } else {
      var n := |second| - 1;
      assert (first + second)[..|first + second| - 1] == first + second[..n];
      TotalsJoin(first, second[..n]);
    }
  }

  lemma {:induction false} TakenOut(orders: seq<Order>, k: nat)
    requires k < |orders|
    ensures Volume(orders) == Volume(orders[..k] + orders[k + 1..]) + orders[k].amount
    ensures PriceTotal(orders) == PriceTotal(orders[..k] + orders[k + 1..]) + orders[k].terms.price * orders[k].amount
  {
    var first, o, rest := orders[..k], orders[k], orders[k + 1..];
    assert orders == first + ([o] + rest);
    TotalsJoin(first, [o] + rest);
    TotalsJoin([o], rest);
    TotalsJoin(first, rest);
    OneOrder(o);
  }

  lemma {:induction false} SameWithout(a: seq<Order>, b: seq<Order>, k: nat)
    requires a != [] && k < |b| && b[k] == a[0] && multiset(a) == multiset(b)
    ensures multiset(a[1..]) == multiset(b[..k] + b[k + 1..])
  {
    assert a == [a[0]] + a[1..] && b == b[..k] + ([b[k]] + b[k + 1..]);
    assert multiset(a) == multiset{a[0]} + multiset(a[1..]);
    assert multiset(b) == multiset(b[..k]) + (multiset{a[0]} + multiset(b[k + 1..]));
    assert multiset(a[1..]) == multiset(a) - multiset{a[0]};
    assert multiset(b[..k] + b[k + 1..]) == multiset(b) - multiset{a[0]};
  }

  /** ... in whatever order the orders stand. */
  lemma {:induction false} OrderDoesNotMatter(a: seq<Order>, b: seq<Order>)
    requires multiset(a) == multiset(b)
    ensures Volume(a) == Volume(b) && PriceTotal(a) == PriceTotal(b)
    decreases |a|
  {
    if a == [] {
      assert |multiset(b)| == 0;
    } else {
      var k := Whereabouts(a[0], b);
      SameWithout(a, b, k);
      OrderDoesNotMatter(a[1..], b[..k] + b[k + 1..]);
      HeadOut(a);
      TakenOut(b, k);
    }
  }

  lemma {:induction false} Whereabouts(o: Order, orders: seq<Order>) returns (k: nat)
    requires o in multiset(orders)
    ensures k < |orders| && orders[k] == o
  {
    k :| 0 <= k < |orders| && orders[k] == o;
  }

  lemma {:induction false} HeadOut(orders: seq<Order>)
    requires orders != []
    ensures Volume(orders) == Volume(orders[1..]) + orders[0].amount
    ensures PriceTotal(orders) == PriceTotal(orders[1..]) + orders[0].terms.price * orders[0].amount
  {
    TakenOut(orders, 0);
    assert orders[..0] + orders[1..] == orders[1..];
  }

  /** Every amount multiplied. */
  function Scaled(orders: seq<Order>, c: real): (r: seq<Order>)
    ensures |r| == |orders|
    ensures forall k | 0 <= k < |r| :: r[k] == Order(orders[k].terms, c * orders[k].amount)
  {
    seq(|orders|, k requires 0 <= k < |orders| => Order(orders[k].terms, c * orders[k].amount))
  }

  lemma {:induction false} Distributes(x: real, a: real, b: real)
    ensures x * (a + b) == x * a + x * b
  {
  }

  lemma {:induction false} Reordered(x: real, c: real, a: real)
    ensures x * (c * a) == c * (x * a)
  {
  }

  lemma {:induction false} ScaledPrefix(orders: seq<Order>, c: real, n: nat)
    requires n <= |orders|
    ensures Scaled(orders, c)[..n] == Scaled(orders[..n], c)
  {
    forall k | 0 <= k < n ensures Scaled(orders, c)[..n][k] == Scaled(orders[..n], c)[k] {
      assert orders[..n][k] == orders[k];
    }
  }

  lemma {:induction false} TotalsScale(orders: seq<Order>, c: real)
    ensures Volume(Scaled(orders, c)) == c * Volume(orders)
    ensures PriceTotal(Scaled(orders, c)) == c * PriceTotal(orders)
  {
    if orders != [] {
      var n := |orders| - 1;
      ScaledPrefix(orders, c, n);
      TotalsScale(orders[..n], c);
      Reordered(orders[n].terms.price, c, orders[n].amount);
      Distributes(c, Volume(orders[..n]), orders[n].amount);
      Distributes(c, PriceTotal(orders[..n]), Value(orders[n]));
    }
  }

  lemma {:induction false} SameQuotient(total: real, volume: real, total': real, volume': real, c: real)
    requires c != 0.0 && volume != 0.0 && total' == c * total && volume' == c * volume
    ensures volume' != 0.0 && total' / volume' == total / volume
  {
    var q := total / volume;
    assert q * volume == total;
    assert total' == q * volume' by {
      Reordered(q, c, volume);
    }
  }

  /** Multiplying every amount multiplies the volume and leaves the average alone. */
  lemma {:induction false} AverageIgnoresScale(orders: seq<Order>, c: real)
    requires c != 0.0 && Volume(orders) != 0.0
    ensures Volume(Scaled(orders, c)) == c * Volume(orders) != 0.0
    ensures PriceTotal(Scaled(orders, c)) / Volume(Scaled(orders, c)) == PriceTotal(orders) / Volume(orders)
  {
    TotalsScale(orders, c);
    SameQuotient(PriceTotal(orders), Volume(orders), PriceTotal(Scaled(orders, c)), Volume(Scaled(orders, c)), c);
  }

  /** Two orders at one price count as one. */
  lemma {:induction false} SplitCountsAsOne(first: seq<Order>, o: Order, x: Order, y: Order, rest: seq<Order>)
    requires x.terms.price == y.terms.price == o.terms.price && x.amount + y.amount == o.amount
    ensures Volume(first + ([x, y] + rest)) == Volume(first + ([o] + rest))
    ensures PriceTotal(first + ([x, y] + rest)) == PriceTotal(first + ([o] + rest))
  {
    TotalsJoin(first, [x, y] + rest);
    TotalsJoin(first, [o] + rest);
    TotalsJoin([x, y], rest);
    TotalsJoin([o], rest);
    assert [x] + [y] == [x, y];
    TotalsJoin([x], [y]);
    OneOrder(o);
    OneOrder(x);
    OneOrder(y);
    Distributes(o.terms.price, x.amount, y.amount);
  }

  // ---- the methods ----

  method GetHighPrice(orders: seq<Order>) returns (max: real)
    ensures orders == [] ==> max == 0.0
    ensures orders != [] ==> exists o :: o in orders && o.terms.price == max
    ensures forall o | o in orders :: o.terms.price <= max
  {
    if orders == [] {
      return 0.0;
    }
    max := orders[0].terms.price;
    ghost var top := orders[0];
    for k := 0 to |orders|
      invariant top in orders && top.terms.price == max
      invariant forall j | 0 <= j < k :: orders[j].terms.price <= max
    {
      if orders[k].terms.price > max {
        max, top := orders[k].terms.price, orders[k];
      }
    }
  }

  method GetLowPrice(orders: seq<Order>) returns (min: real)
    ensures orders == [] ==> min == 0.0
    ensures orders != [] ==> exists o :: o in orders && o.terms.price == min
    ensures forall o | o in orders :: min <= o.terms.price
  {
    if orders == [] {
      return 0.0;
    }
    min := orders[0].terms.price;
    ghost var bottom := orders[0];
    for k := 0 to |orders|
      invariant bottom in orders && bottom.terms.price == min
      invariant forall j | 0 <= j < k :: min <= orders[j].terms.price
    {
      if orders[k].terms.price < min {
        min, bottom := orders[k].terms.price, orders[k];
      }
    }
  }

  lemma {:induction false} ValueBetween(o: Order, low: real, high: real)
    requires o.amount >= 0.0 && low <= o.terms.price <= high
    ensures low * o.amount <= Value(o) <= high * o.amount
  {
  }

  /** Bounds on every price bound the price total, scaled by the volume. */
  lemma {:induction false} TotalBetween(orders: seq<Order>, low: real, high: real)
    requires forall o | o in orders :: o.amount >= 0.0 && low <= o.terms.price <= high
    ensures Volume(orders) >= 0.0
    ensures low * Volume(orders) <= PriceTotal(orders) <= high * Volume(orders)
  {
    if orders != [] {
      var n := |orders| - 1;
      assert orders[n] in orders;
      TotalBetween(orders[..n], low, high);
      ValueBetween(orders[n], low, high);
      Distributes(low, Volume(orders[..n]), orders[n].amount);
      Distributes(high, Volume(orders[..n]), orders[n].amount);
    }
  }

  lemma {:induction false} CancelFactor(a: real, b: real, v: real)
    requires v > 0.0 && a * v <= b * v
    ensures a <= b
  {
    assert (b - a) * v >= 0.0;
  }

  lemma {:induction false} QuotientBetween(total: real, volume: real, low: real, high: real)
    requires volume > 0.0 && low * volume <= total <= high * volume
    ensures low <= total / volume <= high
  {
    var q := total / volume;
    assert q * volume == total;
    CancelFactor(low, q, volume);
    CancelFactor(q, high, volume);
  }

  /** The average weighs prices by volume. When no amount is negative and some volume is there, it
      lies between any bounds on the prices, so between getLowPrice and getHighPrice. */
  method GetAvgPrice(orders: seq<Order>) returns (avg: real)
    ensures Volume(orders) == 0.0 ==> avg == 0.0
    ensures Volume(orders) != 0.0 ==> avg * Volume(orders) == PriceTotal(orders)
    ensures forall low, high | Bounds(orders, low, high) && Volume(orders) > 0.0 :: low <= avg <= high
  {
    var total, totalVolume := 0.0, 0.0;
    for k := 0 to |orders|
      invariant total == PriceTotal(orders[..k]) && totalVolume == Volume(orders[..k])
    {
      TakeOneMore(orders, k);
      assert orders[..k + 1][..k] == orders[..k];
      assert orders[k].terms.price * orders[k].amount == Value(orders[k]);
      total := total + orders[k].terms.price * orders[k].amount;
      totalVolume := totalVolume + orders[k].amount;
    }
    assert orders[..|orders|] == orders;
    if totalVolume == 0.0 {
      return 0.0;
    }
    avg := total / totalVolume;
    forall low, high | Bounds(orders, low, high) && Volume(orders) > 0.0 ensures low <= avg <= high {
      TotalBetween(orders, low, high);
      QuotientBetween(total, totalVolume, low, high);
    }
  }

  ghost predicate Bounds(orders: seq<Order>, low: real, high: real) {
    forall o | o in orders :: o.amount >= 0.0 && low <= o.terms.price <= high
  }

  method GetTotalVolume(orders: seq<Order>) returns (volume: real)
    ensures volume == Volume(orders)
  {
    volume := 0.0;
    for k := 0 to |orders|
      invariant volume == Volume(orders[..k])
    {
      assert orders[..k + 1][..k] == orders[..k];
      volume := volume + orders[k].amount;
    }
    assert orders[..|orders|] == orders;
  }

  /** What STATS prints of one side: the lowest and the highest price, and between them the average by volume. */
  method Summary(orders: seq<Order>) returns (low: real, avg: real, high: real)
    ensures orders == [] ==> low == high == 0.0
    ensures orders != [] ==> exists o :: o in orders && o.terms.price == low
    ensures orders != [] ==> exists o :: o in orders && o.terms.price == high
    ensures forall o | o in orders :: low <= o.terms.price <= high
    ensures Volume(orders) == 0.0 ==> avg == 0.0
    ensures Volume(orders) != 0.0 ==> avg * Volume(orders) == PriceTotal(orders)
    ensures (forall o | o in orders :: o.amount >= 0.0) && Volume(orders) > 0.0 ==> low <= avg <= high
  {
    low := GetLowPrice(orders);
    avg := GetAvgPrice(orders);
    high := GetHighPrice(orders);
    assert (forall o | o in orders :: o.amount >= 0.0) ==> Bounds(orders, low, high);
  }
}
