/** Exactly when the pass keeps price-time priority, although std::sort is not stable. */
module TimePriority {
  import opened Orders
  import opened TimeOrder
  import opened Trades
  import opened Meters
  import opened Matching
  import opened Optimality

  /** Two orders of one side at one price. */
  predicate SameLevel(o: Order, q: Order) {
    o.terms.orderType == q.terms.orderType && o.terms.price == q.terms.price
  }

  predicate Earlier(o: Order, q: Order) { Before(o, q) && !Before(q, o) }

  /** Of two orders at one price the later trades only when the earlier is exhausted. */
  ghost predicate KeepsTimePriority(orders: seq<Order>, trades: seq<Trade>) {
    forall o, q | o in orders && q in orders && SameLevel(o, q) && Earlier(o, q) && Filled(trades, q.terms) > 0.0 ::
      Remainder(o, trades).amount <= 0.0
  }

  /** The equilibrium volume: the largest, over all prices, of what both sides offer. */
  ghost predicate EquilibriumVolume(orders: seq<Order>, v: real) {
    (forall p :: Equilibrium(orders, p) <= v) && exists p :: Equilibrium(orders, p) == v
  }

  /** The volume ends inside the order's price level: the better levels do not use it up, and the
      level itself cannot be filled. */
  ghost predicate Torn(orders: seq<Order>, v: real, x: Terms) {
    Measure(Better(x.orderType, x.price), orders) < v < Measure(AsGood(x.orderType, x.price), orders)
  }

  /** Two open orders of different times at a level that is torn. */
  ghost predicate TornTie(orders: seq<Order>, v: real, o: Order, q: Order) {
    && o in orders && q in orders && o.amount > 0.0 && q.amount > 0.0 && o.terms.orderType != Sale
    && SameLevel(o, q) && o.terms.timestamp != q.terms.timestamp && Torn(orders, v, o.terms)
  }

  /** All passes over a list trade its equilibrium volume. */
  lemma {:induction false} PassVolume(orders: seq<Order>, trades: seq<Trade>, v: real)
    requires Apart(orders) && IsPass(orders, trades) && EquilibriumVolume(orders, v)
    ensures Quantity(trades) == v
  {
    var best := PassTradesEquilibriumVolume(orders, trades);
    assert Equilibrium(orders, best) <= v;
  }

  // ---- no torn tie: time priority is kept ----

  /** Quantity that goes to an order a meter does not count. */
  lemma {:induction false} QuantityBeyond(m: Meter, trades: seq<Trade>, x: Terms)
    requires forall t | t in trades :: t.qty >= 0.0 && 0.0 <= Rate(m, t.ask) + Rate(m, t.bid) <= 1.0
    requires forall t | t in trades && (t.ask == x || t.bid == x) :: Rate(m, t.ask) + Rate(m, t.bid) == 0.0
    ensures Traded(m, trades) + Filled(trades, x) <= Quantity(trades)
  {
    if trades != [] {
      WorthOfTrade(m, trades[0]);
      QuantityBeyond(m, trades[1..], x);
    }
  }

  /** The order of one side in a trade. */
  function SideTerms(t: Trade, side: OrderType): Terms { if side == Ask then t.ask else t.bid }

  ghost predicate OfSides(trades: seq<Trade>) {
    forall t | t in trades :: t.ask.orderType == Ask && t.bid.orderType == Bid && t.qty > 0.0
  }

  lemma {:induction false} PassOfSides(orders: seq<Order>, trades: seq<Trade>)
    requires Apart(orders) && IsPass(orders, trades)
    ensures Feasible(orders, trades) && OfSides(trades)
    ensures forall t | t in trades :: Holds(orders, t.ask) && Holds(orders, t.bid)
  {
    PassIsFeasible(orders, trades);
    assert forall t | t in trades :: Between(t, orders);
  }

  lemma {:induction false} FilledHasTrade(trades: seq<Trade>, t: Trade)
    requires OfSides(trades) && t in trades
    ensures Filled(trades, t.ask) > 0.0 && Filled(trades, t.bid) > 0.0
  {
    FilledNonNegative(trades, t.ask);
    FilledNonNegative(trades, t.bid);
  }

  /** While an order has something left, everything that trades on its side is priced as well. */
  lemma {:induction false} OnlyAsGoodTrade(orders: seq<Order>, trades: seq<Trade>, o: Order, t: Trade)
    requires Apart(orders) && IsPass(orders, trades) && o in orders && o.terms.orderType != Sale
    requires Remainder(o, trades).amount > 0.0 && t in trades
    ensures Ranks(SideTerms(t, o.terms.orderType).price, o.terms.price, o.terms.orderType)
  {
    PassOfSides(orders, trades);
    FilledHasTrade(trades, t);
    var x := SideTerms(t, o.terms.orderType);
    var k :| 0 <= k < |orders| && orders[k].terms == x;
    if !Ranks(x.price, o.terms.price, o.terms.orderType) {
      PassRespectsPrice(orders, trades, o, orders[k]);
    }
  }

  lemma {:induction false} LevelOutlastsVolume(orders: seq<Order>, trades: seq<Trade>, o: Order)
    requires Apart(orders) && IsPass(orders, trades) && o in orders && o.terms.orderType != Sale
    requires Remainder(o, trades).amount > 0.0
    ensures Quantity(trades) < Measure(AsGood(o.terms.orderType, o.terms.price), orders)
  {
    var m := AsGood(o.terms.orderType, o.terms.price);
    PassOfSides(orders, trades);
    forall t | t in trades ensures Rate(m, t.ask) + Rate(m, t.bid) == 1.0 {
      OnlyAsGoodTrade(orders, trades, o, t);
    }
    TradedCountsQuantity(m, trades);
    TradesTakeTheirMeasure(m, orders, trades);
    var after, r := Apply(orders, trades), Remainder(o, trades);
    var k :| 0 <= k < |orders| && orders[k] == o;
    assert after[k] == r;
    OneOfMeasure(m, after, r);
    assert Weight(m, r) == r.amount;
  }

  lemma {:induction false} BetterIsExhausted(orders: seq<Order>, trades: seq<Trade>, q: Order, b: Order)
    requires Apart(orders) && IsPass(orders, trades) && q in orders && b in orders
    requires q.terms.orderType != Sale && Filled(trades, q.terms) > 0.0
    requires Rate(Better(q.terms.orderType, q.terms.price), b.terms) != 0.0
    ensures Open(Remainder(b, trades)) == 0.0
  {
    PassRespectsPrice(orders, trades, b, q);
  }

  lemma {:induction false} BetterIsGone(orders: seq<Order>, trades: seq<Trade>, q: Order)
    requires Apart(orders) && IsPass(orders, trades) && q in orders && q.terms.orderType != Sale
    requires Filled(trades, q.terms) > 0.0
    ensures Measure(Better(q.terms.orderType, q.terms.price), Apply(orders, trades)) == 0.0
  {
    var m := Better(q.terms.orderType, q.terms.price);
    var after := Apply(orders, trades);
    forall b | b in after ensures Rate(m, b.terms) == 0.0 || Open(b) == 0.0 {
      var k :| 0 <= k < |after| && after[k] == b;
      assert orders[k] in orders;
      if Rate(m, b.terms) != 0.0 {
        BetterIsExhausted(orders, trades, q, orders[k]);
      }
    }
    MeasureVanishes(m, after);
  }

  lemma {:induction false} BetterRates(x: Terms, trades: seq<Trade>)
    requires x.orderType != Sale && OfSides(trades)
    ensures var m := Better(x.orderType, x.price);
      && (forall t | t in trades :: t.qty >= 0.0 && 0.0 <= Rate(m, t.ask) + Rate(m, t.bid) <= 1.0)
      && (forall t | t in trades && (t.ask == x || t.bid == x) :: Rate(m, t.ask) + Rate(m, t.bid) == 0.0)
  {
  }

  lemma {:induction false} VolumeReachesLevel(orders: seq<Order>, trades: seq<Trade>, q: Order)
    requires Apart(orders) && IsPass(orders, trades) && q in orders && q.terms.orderType != Sale
    requires Filled(trades, q.terms) > 0.0
    ensures Measure(Better(q.terms.orderType, q.terms.price), orders) < Quantity(trades)
  {
    PassOfSides(orders, trades);
    BetterIsGone(orders, trades, q);
    BetterRates(q.terms, trades);
    TradesTakeTheirMeasure(Better(q.terms.orderType, q.terms.price), orders, trades);
    QuantityBeyond(Better(q.terms.orderType, q.terms.price), trades, q.terms);
  }

  lemma {:induction false} NeverSold(orders: seq<Order>, trades: seq<Trade>, x: Terms)
    requires Apart(orders) && IsPass(orders, trades) && x.orderType == Sale
    ensures Filled(trades, x) == 0.0
  {
    PassOfSides(orders, trades);
    UntouchedNotFilled(trades, x);
  }

  /** A pass that violates time priority does so at a torn level. */
  lemma {:induction false} ViolationIsTorn(orders: seq<Order>, trades: seq<Trade>, v: real, o: Order, q: Order)
    requires Apart(orders) && IsPass(orders, trades) && EquilibriumVolume(orders, v)
    requires o in orders && q in orders && SameLevel(o, q) && Earlier(o, q)
    requires Filled(trades, q.terms) > 0.0 && Remainder(o, trades).amount > 0.0
    ensures TornTie(orders, v, o, q)
  {
    PassVolume(orders, trades, v);
    if o.terms.orderType == Sale {
      NeverSold(orders, trades, q.terms);
    }
    LevelOutlastsVolume(orders, trades, o);
    VolumeReachesLevel(orders, trades, q);
    PassOfSides(orders, trades);
    FilledNonNegative(trades, o.terms);
    assert Filled(trades, q.terms) <= Open(q);
  }

  // ---- a torn tie: some pass violates time priority ----

  /** Within a price level, first comes first and last comes last. */
  function Tag(o: Order, first: Order, last: Order): int {
    if o == first then 0 else if o == last then 2 else 1
  }

  predicate Leads(o: Order, q: Order, side: OrderType, first: Order, last: Order) {
    && Ranks(o.terms.price, q.terms.price, side)
    && (o.terms.price == q.terms.price ==> Tag(o, first, last) <= Tag(q, first, last))
  }

  ghost predicate InLine(orders: seq<Order>, side: OrderType, first: Order, last: Order) {
    forall i, j {:trigger orders[i], orders[j]} | 0 <= i < j < |orders| :: Leads(orders[i], orders[j], side, first, last)
  }

  function LineUp(orders: seq<Order>, o: Order, side: OrderType, first: Order, last: Order): seq<Order> {
    var n := |orders|;
    if n == 0 || Leads(orders[n - 1], o, side, first, last) then orders + [o]
    else LineUp(orders[..n - 1], o, side, first, last) + [orders[n - 1]]
  }

  lemma {:induction false} LineUpMembers(orders: seq<Order>, o: Order, side: OrderType, first: Order, last: Order)
    ensures multiset(LineUp(orders, o, side, first, last)) == multiset(orders) + multiset{o}
    ensures forall q :: q in LineUp(orders, o, side, first, last) <==> q in orders || q == o
  {
    var n := |orders|;
    if n > 0 && !Leads(orders[n - 1], o, side, first, last) {
      LineUpMembers(orders[..n - 1], o, side, first, last);
      assert orders == orders[..n - 1] + [orders[n - 1]];
    }
  }

  lemma {:induction false} LeadsOn(a: Order, b: Order, c: Order, side: OrderType, first: Order, last: Order)
    requires Leads(a, b, side, first, last) && Leads(b, c, side, first, last)
    ensures Leads(a, c, side, first, last)
  {
  }

  lemma {:induction false} AllLead(orders: seq<Order>, o: Order, side: OrderType, first: Order, last: Order)
    requires InLine(orders, side, first, last) && (orders != [] ==> Leads(orders[|orders| - 1], o, side, first, last))
    ensures forall q | q in orders :: Leads(q, o, side, first, last)
  {
    var n := |orders|;
    forall q | q in orders ensures Leads(q, o, side, first, last) {
      var i :| 0 <= i < n && orders[i] == q;
      if i < n - 1 {
        LeadsOn(orders[i], orders[n - 1], o, side, first, last);
      }
    }
  }

  lemma {:induction false} LineUpKeeps(orders: seq<Order>, o: Order, side: OrderType, first: Order, last: Order)
    requires InLine(orders, side, first, last)
    ensures InLine(LineUp(orders, o, side, first, last), side, first, last)
  {
    var n := |orders|;
    if n > 0 && !Leads(orders[n - 1], o, side, first, last) {
      var z := orders[n - 1];
      LineUpKeeps(orders[..n - 1], o, side, first, last);
      LineUpMembers(orders[..n - 1], o, side, first, last);
      forall q | q in orders[..n - 1] ensures Leads(q, z, side, first, last) {
        var i :| 0 <= i < n - 1 && orders[..n - 1][i] == q;
        assert Leads(orders[i], z, side, first, last);
      }
      EndOfLine(LineUp(orders[..n - 1], o, side, first, last), z, side, first, last);
    } else {
      AllLead(orders, o, side, first, last);
      EndOfLine(orders, o, side, first, last);
    }
  }

  lemma {:induction false} EndOfLine(front: seq<Order>, z: Order, side: OrderType, first: Order, last: Order)
    requires InLine(front, side, first, last) && forall q | q in front :: Leads(q, z, side, first, last)
    ensures InLine(front + [z], side, first, last)
  {
  }

  /** Any list can be put in price order, with a say in how its ties fall. */
  lemma {:induction false} LinedUp(orders: seq<Order>, side: OrderType, first: Order, last: Order) returns (line: seq<Order>)
    ensures multiset(line) == multiset(orders) && InLine(line, side, first, last) && InRank(line, side)
  {
    if orders == [] {
      line := [];
    } else {
      var rest := LinedUp(orders[1..], side, first, last);
      line := LineUp(rest, orders[0], side, first, last);
      LineUpKeeps(rest, orders[0], side, first, last);
      LineUpMembers(rest, orders[0], side, first, last);
      assert orders == [orders[0]] + orders[1..];
    }
    assert forall i, j | 0 <= i < j < |line| :: Leads(line[i], line[j], side, first, last);
  }

  /** A side of the list in line, and what it trades. */
  ghost predicate Lines(line: seq<Order>, orders: seq<Order>, trades: seq<Trade>, side: OrderType, first: Order, last: Order) {
    && InLine(line, side, first, last) && InTurn(line, trades)
    && (forall o | o in orders && o.terms.orderType == side :: o in line)
  }

  /** A pass that sorts one side this way. */
  lemma {:induction false} PassInLine(orders: seq<Order>, side: OrderType, first: Order, last: Order)
      returns (line: seq<Order>, trades: seq<Trade>)
    requires Apart(orders) && side != Sale
    ensures IsPass(orders, trades) && Lines(line, orders, trades, side, first, last)
  {
    var asks := LinedUp(Side(orders, Ask), Ask, first, last);
    var bids := LinedUp(Side(orders, Bid), Bid, first, last);
    assert Ranked(orders, asks, bids);
    trades := Merge(asks, bids);
    RankedSides(orders, asks, bids);
    MergeInTurn(asks, bids);
    line := if side == Ask then asks else bids;
  }

  lemma {:induction false} FrontOfFirst(line: seq<Order>, trades: seq<Trade>, first: Order, last: Order, o: Order)
    requires InLine(line, first.terms.orderType, first, last) && InTurn(line, trades) && first in line && o in line
    requires first.amount > 0.0 && Filled(trades, first.terms) == 0.0 && Filled(trades, o.terms) > 0.0
    ensures !Ranks(first.terms.price, o.terms.price, first.terms.orderType)
  {
    var f :| 0 <= f < |line| && line[f] == first;
    var i :| 0 <= i < |line| && line[i] == o;
    assert Remainder(first, trades) == first;
    assert i < f;
    assert Leads(line[i], line[f], first.terms.orderType, first, last);
  }

  lemma {:induction false} TradesBeforeFirst(orders: seq<Order>, line: seq<Order>, trades: seq<Trade>, first: Order,
                                             last: Order, t: Trade)
    requires OfSides(trades) && t in trades && Holds(orders, t.ask) && Holds(orders, t.bid)
    requires Lines(line, orders, trades, first.terms.orderType, first, last) && first.terms.orderType != Sale
    requires first in orders && first.amount > 0.0 && Filled(trades, first.terms) == 0.0
    ensures !Ranks(first.terms.price, SideTerms(t, first.terms.orderType).price, first.terms.orderType)
  {
    FilledHasTrade(trades, t);
    var x := SideTerms(t, first.terms.orderType);
    var k :| 0 <= k < |orders| && orders[k].terms == x;
    assert orders[k] in orders;
    FrontOfFirst(line, trades, first, last, orders[k]);
  }

  /** If the first of its level trades nothing, all volume went to better levels. */
  lemma {:induction false} FirstIdle(orders: seq<Order>, line: seq<Order>, trades: seq<Trade>, first: Order, last: Order)
    requires Apart(orders) && IsPass(orders, trades) && first.terms.orderType != Sale
    requires Lines(line, orders, trades, first.terms.orderType, first, last)
    requires first in orders && first.amount > 0.0 && Filled(trades, first.terms) == 0.0
    ensures Quantity(trades) <= Measure(Better(first.terms.orderType, first.terms.price), orders)
  {
    var m := Better(first.terms.orderType, first.terms.price);
    PassOfSides(orders, trades);
    forall t | t in trades ensures Rate(m, t.ask) + Rate(m, t.bid) == 1.0 {
      TradesBeforeFirst(orders, line, trades, first, last, t);
    }
    TradedCountsQuantity(m, trades);
    TradedBounded(m, orders, trades);
  }

  lemma {:induction false} LevelGoneWithLast(line: seq<Order>, trades: seq<Trade>, first: Order, last: Order, b: Order)
    requires InLine(line, last.terms.orderType, first, last) && InTurn(line, trades) && first != last
    requires last in line && b in line && Ranks(b.terms.price, last.terms.price, last.terms.orderType)
    requires Remainder(last, trades).amount <= 0.0 && Filled(trades, last.terms) > 0.0
    ensures Remainder(b, trades).amount <= 0.0
  {
    var e :| 0 <= e < |line| && line[e] == last;
    var i :| 0 <= i < |line| && line[i] == b;
    assert i > e ==> Leads(line[e], line[i], last.terms.orderType, first, last);
    assert i <= e || b == last;
  }

  lemma {:induction false} LevelIsGone(orders: seq<Order>, line: seq<Order>, trades: seq<Trade>, first: Order, last: Order)
    requires Lines(line, orders, trades, last.terms.orderType, first, last) && first != last
    requires last in orders && Remainder(last, trades).amount <= 0.0 && Filled(trades, last.terms) > 0.0
    ensures Measure(AsGood(last.terms.orderType, last.terms.price), Apply(orders, trades)) == 0.0
  {
    var m, after := AsGood(last.terms.orderType, last.terms.price), Apply(orders, trades);
    forall b | b in after ensures Rate(m, b.terms) == 0.0 || Open(b) == 0.0 {
      var k :| 0 <= k < |after| && after[k] == b;
      if Rate(m, b.terms) != 0.0 {
        assert orders[k] in orders;
        LevelGoneWithLast(line, trades, first, last, orders[k]);
      }
    }
    MeasureVanishes(m, after);
  }

  /** If the last of its level is exhausted, the whole level is. */
  lemma {:induction false} LastGone(orders: seq<Order>, line: seq<Order>, trades: seq<Trade>, first: Order, last: Order)
    requires Apart(orders) && IsPass(orders, trades) && last.terms.orderType != Sale && first != last
    requires Lines(line, orders, trades, last.terms.orderType, first, last)
    requires last in orders && last.amount > 0.0 && Remainder(last, trades).amount <= 0.0
    ensures Measure(AsGood(last.terms.orderType, last.terms.price), orders) <= Quantity(trades)
  {
    var m := AsGood(last.terms.orderType, last.terms.price);
    PassOfSides(orders, trades);
    LevelIsGone(orders, line, trades, first, last);
    TradesTakeTheirMeasure(m, orders, trades);
    TradedCountsQuantity(m, trades);
  }

  /** Ranking the later order first and the earlier last makes a torn tie violate time priority. */
  lemma {:induction false} TornIsViolated(orders: seq<Order>, v: real, early: Order, late: Order) returns (trades: seq<Trade>)
    requires Apart(orders) && EquilibriumVolume(orders, v)
    requires TornTie(orders, v, early, late)
    ensures IsPass(orders, trades)
    ensures Filled(trades, late.terms) > 0.0 && Remainder(early, trades).amount > 0.0
  {
    var line;
    line, trades := PassInLine(orders, early.terms.orderType, late, early);
    PassVolume(orders, trades, v);
    PassOfSides(orders, trades);
    FilledNonNegative(trades, late.terms);
    if Filled(trades, late.terms) == 0.0 {
      FirstIdle(orders, line, trades, late, early);
    }
    if Remainder(early, trades).amount <= 0.0 {
      LastGone(orders, line, trades, late, early);
    }
  }

  /** Price-time priority is kept by every pass over a list, whatever the sort does with ties, if and
      only if no two open orders of different times stand at a level that the volume tears. The
      condition reads the list alone. */
  lemma {:induction false} TimePriorityKeptExactlyWhen(orders: seq<Order>, v: real)
    requires Apart(orders) && EquilibriumVolume(orders, v)
    ensures (forall trades | IsPass(orders, trades) :: KeepsTimePriority(orders, trades))
       <==> !(exists o, q :: TornTie(orders, v, o, q))
  {
    forall trades | IsPass(orders, trades) && !KeepsTimePriority(orders, trades)
      ensures exists o, q :: TornTie(orders, v, o, q)
    {
      var o, q :| o in orders && q in orders && SameLevel(o, q) && Earlier(o, q) && Filled(trades, q.terms) > 0.0
               && Remainder(o, trades).amount > 0.0;
      ViolationIsTorn(orders, trades, v, o, q);
    }
    forall o, q | TornTie(orders, v, o, q)
      ensures exists trades :: IsPass(orders, trades) && !KeepsTimePriority(orders, trades)
    {
      NotAfterTotal(o.terms.timestamp, q.terms.timestamp);
      var early, late := if Before(o, q) then o else q, if Before(o, q) then q else o;
      var trades := TornIsViolated(orders, v, early, late);
    }
  }

  /** Every list has a pass, so every list has an equilibrium volume. */
  lemma {:induction false} VolumeExists(orders: seq<Order>) returns (trades: seq<Trade>)
    requires Apart(orders)
    ensures IsPass(orders, trades) && EquilibriumVolume(orders, Quantity(trades))
  {
    var any := Order(Terms(0.0, "", "", Ask, "", 0), 0.0);
    var line;
    line, trades := PassInLine(orders, Ask, any, any);
    var best := PassTradesEquilibriumVolume(orders, trades);
  }
}
