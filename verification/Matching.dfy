/** The matching pass on values: which trades OrderBook::matchAsksToBids makes. */
module Matching {
  import opened Orders
  import opened Trades

  ghost predicate AllOf(orders: seq<Order>, t: OrderType) {
    forall o | o in orders :: o.terms.orderType == t
  }

  /** One outcome of std::sort on each side. Ties may fall either way: the sort is not stable. */
  ghost predicate Ranked(orders: seq<Order>, asks: seq<Order>, bids: seq<Order>) {
    && multiset(asks) == multiset(Side(orders, Ask)) && InRank(asks, Ask)
    && multiset(bids) == multiset(Side(orders, Bid)) && InRank(bids, Bid)
  }

  /** One move of the merge: at most one trade, and the sides that are left to merge. */
  datatype Move = Move(trades: seq<Trade>, asks: seq<Order>, bids: seq<Order>)

  predicate Stuck(asks: seq<Order>, bids: seq<Order>) {
    || asks == [] || bids == []
    || (asks[0].amount > 0.0 && bids[0].amount > 0.0 && bids[0].terms.price < asks[0].terms.price)
  }

  function Advance(asks: seq<Order>, bids: seq<Order>): (m: Move)
    requires !Stuck(asks, bids)
    ensures |m.asks| + |m.bids| < |asks| + |bids|
  {
    var ask, bid := asks[0], bids[0];
    if ask.amount <= 0.0 then Move([], asks[1..], bids)
    else if bid.amount <= 0.0 then Move([], asks, bids[1..])
    else if bid.amount == ask.amount then
      Move([Trade(ask.terms, bid.terms, ask.amount)], asks[1..], bids[1..])
    else if bid.amount > ask.amount then
      Move([Trade(ask.terms, bid.terms, ask.amount)],
           asks[1..], [bid.(amount := bid.amount - ask.amount)] + bids[1..])
    else
      Move([Trade(ask.terms, bid.terms, bid.amount)],
           [ask.(amount := ask.amount - bid.amount)] + asks[1..], bids[1..])
  }

  /** The two-pointer merge of the sorted sides: the heads trade while they cross. */
  function Merge(asks: seq<Order>, bids: seq<Order>): seq<Trade>
    decreases |asks| + |bids|
  {
    if Stuck(asks, bids) then []
    else var m := Advance(asks, bids); m.trades + Merge(m.asks, m.bids)
  }

  /** A pass over a product's list makes these trades, for some way of breaking price ties. */
  ghost predicate IsPass(orders: seq<Order>, trades: seq<Trade>) {
    exists asks, bids :: Ranked(orders, asks, bids) && trades == Merge(asks, bids)
  }

  ghost predicate Crossed(orders: seq<Order>) {
    exists a, b | a in orders && b in orders ::
      && a.terms.orderType == Ask && b.terms.orderType == Bid
      && a.amount > 0.0 && b.amount > 0.0 && b.terms.price >= a.terms.price
  }

  // ---- sides ready for a merge ----

  ghost predicate Sides(asks: seq<Order>, bids: seq<Order>) {
    && AllOf(asks, Ask) && AllOf(bids, Bid)
    && Apart(asks) && Apart(bids)
    && InRank(asks, Ask) && InRank(bids, Bid)
  }

  lemma {:induction false} RankedSides(orders: seq<Order>, asks: seq<Order>, bids: seq<Order>)
    requires Apart(orders) && Ranked(orders, asks, bids)
    ensures Sides(asks, bids)
    ensures forall o :: o in asks <==> o in orders && o.terms.orderType == Ask
    ensures forall o :: o in bids <==> o in orders && o.terms.orderType == Bid
  {
    ApartPermutation(orders, Ask, asks);
    ApartPermutation(orders, Bid, bids);
  }

  /** What one side becomes when a move makes these trades: each order keeps what the trades
      leave of it, or drops out exhausted. */
  ghost predicate Advanced(side: seq<Order>, next: seq<Order>, trades: seq<Trade>) {
    && (forall o | o in side ::
          Remainder(o, trades) in next || (Remainder(o, trades).amount <= 0.0 && !Holds(next, o.terms)))
    && (forall x | Holds(next, x) :: Holds(side, x))
  }

  /** The side after its head kept what a trade left of it. */
  ghost predicate HeadCut(side: seq<Order>, next: seq<Order>, trades: seq<Trade>) {
    && side != []
    && (forall o | o in side[1..] :: Filled(trades, o.terms) == 0.0)
    && next == if Remainder(side[0], trades).amount > 0.0
               then [Remainder(side[0], trades)] + side[1..] else side[1..]
  }

  ghost predicate Cut(side: seq<Order>, next: seq<Order>, trades: seq<Trade>) {
    HeadCut(side, next, trades) || (next == side && trades == [])
  }

  lemma {:induction false} HeadCutAdvances(side: seq<Order>, next: seq<Order>, trades: seq<Trade>)
    requires HeadCut(side, next, trades) && Apart(side)
    ensures Advanced(side, next, trades)
  {
    forall o | o in side
      ensures Remainder(o, trades) in next || (Remainder(o, trades).amount <= 0.0 && !Holds(next, o.terms))
    {
      HoldsHead(side, o.terms);
      if o != side[0] {
        assert o in side[1..];
        assert Remainder(o, trades) == o;
      }
    }
    forall x | Holds(next, x) ensures Holds(side, x) {
      HoldsHead(side, x);
      HoldsHead(next, x);
    }
  }

  /** Distinctness, side and price order depend on the terms alone. */
  lemma {:induction false} TermsKeepOrder(side: seq<Order>, next: seq<Order>, d: nat)
    requires |next| + d == |side|
    requires forall k | 0 <= k < |next| :: next[k].terms == side[k + d].terms
    ensures Apart(side) ==> Apart(next)
    ensures forall t :: AllOf(side, t) ==> AllOf(next, t)
    ensures forall t :: InRank(side, t) ==> InRank(next, t)
  {
    forall t, o | AllOf(side, t) && o in next ensures o.terms.orderType == t {
      var k :| 0 <= k < |next| && next[k] == o;
      assert side[k + d] in side;
    }
  }

  lemma {:induction false} FilledByOne(trades: seq<Trade>, x: Terms)
    requires |trades| <= 1
    ensures Filled(trades, x)
         == if trades != [] && (trades[0].ask == x || trades[0].bid == x) then trades[0].qty else 0.0
  {
    if trades != [] {
      assert Filled(trades[1..], x) == 0.0;
    }
  }

  lemma {:induction false} AdvanceCutsHeads(asks: seq<Order>, bids: seq<Order>)
    requires Sides(asks, bids) && !Stuck(asks, bids)
    ensures var m := Advance(asks, bids);
      Cut(asks, m.asks, m.trades) && Cut(bids, m.bids, m.trades)
  {
    var m := Advance(asks, bids);
    assert asks[0] in asks && bids[0] in bids;
    FilledByOne(m.trades, asks[0].terms);
    FilledByOne(m.trades, bids[0].terms);
    forall o | o in asks[1..] ensures Filled(m.trades, o.terms) == 0.0 {
      FilledByOne(m.trades, o.terms);
      assert o in asks;
    }
    forall o | o in bids[1..] ensures Filled(m.trades, o.terms) == 0.0 {
      FilledByOne(m.trades, o.terms);
      assert o in bids;
    }
  }

  /** What AdvanceFacts needs of one side, whether its head was cut or it was left alone. */
  lemma {:induction false} SideAdvances(side: seq<Order>, next: seq<Order>, trades: seq<Trade>)
    requires Apart(side)
    requires Cut(side, next, trades)
    ensures Advanced(side, next, trades) && Apart(next)
    ensures forall t :: AllOf(side, t) ==> AllOf(next, t)
    ensures forall t :: InRank(side, t) ==> InRank(next, t)
  {
    if HeadCut(side, next, trades) {
      HeadCutAdvances(side, next, trades);
      var d := HeadCutTerms(side, next, trades);
      TermsKeepOrder(side, next, d);
    }
  }

  lemma {:induction false} HeadCutTerms(side: seq<Order>, next: seq<Order>, trades: seq<Trade>) returns (d: nat)
    requires HeadCut(side, next, trades)
    ensures |next| + d == |side| && forall k | 0 <= k < |next| :: next[k].terms == side[k + d].terms
  {
    if Remainder(side[0], trades).amount > 0.0 {
      d := 0;
      forall k | 0 <= k < |next| ensures next[k].terms == side[k].terms {
        assert k > 0 ==> next[k] == side[1..][k - 1];
      }
    } else {
      d := 1;
    }
  }

  lemma {:induction false} AdvanceFacts(asks: seq<Order>, bids: seq<Order>)
    requires Sides(asks, bids) && !Stuck(asks, bids)
    ensures var m := Advance(asks, bids);
      && Sides(m.asks, m.bids)
      && Advanced(asks, m.asks, m.trades) && Advanced(bids, m.bids, m.trades)
  {
    var m := Advance(asks, bids);
    AdvanceCutsHeads(asks, bids);
    SideAdvances(asks, m.asks, m.trades);
    SideAdvances(bids, m.bids, m.trades);
  }

  /** Every trade of a merge joins an ask and a bid of its sides at a price both accept. */
  lemma {:induction false} MergeTrades(asks: seq<Order>, bids: seq<Order>)
    requires Sides(asks, bids)
    ensures forall t | t in Merge(asks, bids) ::
      && t.qty > 0.0 && t.bid.price >= t.ask.price
      && Holds(asks, t.ask) && Holds(bids, t.bid)
    decreases |asks| + |bids|
  {
    if !Stuck(asks, bids) {
      AdvanceFacts(asks, bids);
      var m := Advance(asks, bids);
      MergeTrades(m.asks, m.bids);
      assert Holds(asks, asks[0].terms) && Holds(bids, bids[0].terms);
    }
  }

  /** No order of the sides trades more than it has open. */
  lemma {:induction false} MergeFits(asks: seq<Order>, bids: seq<Order>)
    requires Sides(asks, bids)
    ensures forall o | o in asks || o in bids :: Filled(Merge(asks, bids), o.terms) <= Open(o)
    decreases |asks| + |bids|
  {
    if !Stuck(asks, bids) {
      AdvanceFacts(asks, bids);
      var m := Advance(asks, bids);
      MergeFits(m.asks, m.bids);
      var rest := Merge(m.asks, m.bids);
      forall o | o in asks || o in bids ensures Filled(Merge(asks, bids), o.terms) <= Open(o) {
        FilledJoins(m.trades, rest, o.terms);
        FilledByOne(m.trades, o.terms);
        MoveFits(asks, bids, o);
        if Remainder(o, m.trades) !in m.asks && Remainder(o, m.trades) !in m.bids {
          NotHeldNotFilled(m.asks, m.bids, o.terms);
        }
      }
    } else {
      assert forall x :: Filled([], x) == 0.0;
    }
  }

  lemma {:induction false} MoveFits(asks: seq<Order>, bids: seq<Order>, o: Order)
    requires Sides(asks, bids) && !Stuck(asks, bids)
    requires o in asks || o in bids
    ensures 0.0 <= Filled(Advance(asks, bids).trades, o.terms) <= Open(o)
    ensures Filled(Advance(asks, bids).trades, o.terms) > 0.0 ==> o == asks[0] || o == bids[0]
  {
    var m := Advance(asks, bids);
    FilledByOne(m.trades, o.terms);
    assert asks[0] in asks && bids[0] in bids;
    if o in asks {
      var k :| 0 <= k < |asks| && asks[k] == o;
    } else {
      var k :| 0 <= k < |bids| && bids[k] == o;
    }
  }

  lemma {:induction false} NotHeldNotFilled(asks: seq<Order>, bids: seq<Order>, x: Terms)
    requires Sides(asks, bids) && !Holds(asks, x) && !Holds(bids, x)
    ensures Filled(Merge(asks, bids), x) == 0.0
  {
    MergeTrades(asks, bids);
    UntouchedNotFilled(Merge(asks, bids), x);
  }

  /** The remainder after a whole merge is what the rest of it leaves after the first move. */
  lemma {:induction false} RemainderSplits(asks: seq<Order>, bids: seq<Order>, o: Order)
    requires !Stuck(asks, bids)
    ensures var m := Advance(asks, bids);
      Remainder(o, Merge(asks, bids)) == Remainder(Remainder(o, m.trades), Merge(m.asks, m.bids))
  {
    var m := Advance(asks, bids);
    FilledJoins(m.trades, Merge(m.asks, m.bids), o.terms);
  }

  /** An order that a move exhausted stays exhausted. */
  lemma {:induction false} ExhaustedStays(asks: seq<Order>, bids: seq<Order>, o: Order)
    requires Sides(asks, bids) && !Stuck(asks, bids)
    requires o in asks || o in bids
    requires Remainder(o, Merge(asks, bids)).amount > 0.0
    ensures var m := Advance(asks, bids); var r := Remainder(o, m.trades);
      (o in asks ==> r in m.asks) && (o in bids ==> r in m.bids)
  {
    AdvanceFacts(asks, bids);
    var m := Advance(asks, bids);
    RemainderSplits(asks, bids, o);
    var r := Remainder(o, m.trades);
    MergeTrades(m.asks, m.bids);
    FilledNonNegative(Merge(m.asks, m.bids), o.terms);
  }

  /** A merge leaves the sides uncrossed. */
  lemma {:induction false} MergeUncrosses(asks: seq<Order>, bids: seq<Order>, a: Order, b: Order)
    requires Sides(asks, bids) && a in asks && b in bids
    requires Remainder(a, Merge(asks, bids)).amount > 0.0
    requires Remainder(b, Merge(asks, bids)).amount > 0.0
    ensures b.terms.price < a.terms.price
    decreases |asks| + |bids|
  {
    if !Stuck(asks, bids) {
      AdvanceFacts(asks, bids);
      var m := Advance(asks, bids);
      RemainderSplits(asks, bids, a);
      RemainderSplits(asks, bids, b);
      ExhaustedStays(asks, bids, a);
      ExhaustedStays(asks, bids, b);
      MergeUncrosses(m.asks, m.bids, Remainder(a, m.trades), Remainder(b, m.trades));
    }
  }

  /** A price that separates what traded from what did not. */
  ghost predicate Clears(asks: seq<Order>, bids: seq<Order>, trades: seq<Trade>, p: real) {
    && (forall t | t in trades :: t.ask.price <= p <= t.bid.price)
    && (forall a | a in asks && Remainder(a, trades).amount > 0.0 :: p <= a.terms.price)
    && (forall b | b in bids && Remainder(b, trades).amount > 0.0 :: b.terms.price <= p)
  }

  lemma {:induction false} ClearingPrice(asks: seq<Order>, bids: seq<Order>, lo: real, hi: real) returns (p: real)
    requires Sides(asks, bids) && lo <= hi
    requires forall a | a in asks :: lo <= a.terms.price
    requires forall b | b in bids :: b.terms.price <= hi
    ensures lo <= p <= hi
    ensures Clears(asks, bids, Merge(asks, bids), p)
    decreases |asks| + |bids|
  {
    var trades := Merge(asks, bids);
    if asks == [] {
      p := hi;
    } else if bids == [] {
      p := lo;
    } else if Stuck(asks, bids) {
      p := if lo <= bids[0].terms.price then bids[0].terms.price else lo;
      assert bids[0] in bids && asks[0] in asks;
    } else {
      AdvanceFacts(asks, bids);
      var m := Advance(asks, bids);
      var lo', hi' := lo, hi;
      if m.trades != [] {
        lo', hi' := asks[0].terms.price, bids[0].terms.price;
      }
      assert asks[0] in asks && bids[0] in bids;
      forall a | a in m.asks ensures lo' <= a.terms.price {
        assert Holds(asks, a.terms);
      }
      forall b | b in m.bids ensures b.terms.price <= hi' {
        assert Holds(bids, b.terms);
      }
      p := ClearingPrice(m.asks, m.bids, lo', hi');
      forall o | (o in asks || o in bids) && Remainder(o, trades).amount > 0.0
        ensures o in asks ==> p <= o.terms.price
        ensures o in bids ==> o.terms.price <= p
      {
        RemainderSplits(asks, bids, o);
        ExhaustedStays(asks, bids, o);
      }
    }
  }

  /** A pass is never longer than one fill per order but one: each fill exhausts an order, and
      the last fill exhausts the last order of a side. */
  lemma {:induction false} MergeLength(asks: seq<Order>, bids: seq<Order>)
    ensures |Merge(asks, bids)| <= if asks == [] || bids == [] then 0 else |asks| + |bids| - 1
    decreases |asks| + |bids|
  {
    if !Stuck(asks, bids) {
      MergeLength(Advance(asks, bids).asks, Advance(asks, bids).bids);
    }
  }

  ghost predicate PricesRise(trades: seq<Trade>) {
    forall i, j | 0 <= i < j < |trades| :: trades[i].ask.price <= trades[j].ask.price
  }

  lemma {:induction false} MergePricesRise(asks: seq<Order>, bids: seq<Order>)
    requires Sides(asks, bids)
    ensures PricesRise(Merge(asks, bids))
    decreases |asks| + |bids|
  {
    if !Stuck(asks, bids) {
      AdvanceFacts(asks, bids);
      var m := Advance(asks, bids);
      MergePricesRise(m.asks, m.bids);
      MergeTrades(m.asks, m.bids);
      var rest := Merge(m.asks, m.bids);
      forall j | 0 <= j < |rest| ensures asks[0].terms.price <= rest[j].ask.price {
        assert rest[j] in rest && Holds(asks, rest[j].ask);
      }
      PricesRiseOn(m.trades, rest);
    }
  }

  lemma {:induction false} PricesRiseOn(first: seq<Trade>, rest: seq<Trade>)
    requires |first| <= 1 && PricesRise(rest)
    requires first != [] ==> forall j | 0 <= j < |rest| :: first[0].ask.price <= rest[j].ask.price
    ensures PricesRise(first + rest)
  {
  }

  // ---- the shape of the fills in the sorted order ----

  /** Where an order stands after the head of its side was cut. */
  lemma {:induction false} PositionAfterCut(side: seq<Order>, next: seq<Order>, first: seq<Trade>, k: nat)
    requires 0 < k < |side| && Cut(side, next, first)
    ensures var d := |side| - |next|;
      0 <= d <= 1 && next[k - d] == side[k] && Filled(first, side[k].terms) == 0.0
  {
    assert side[k] in side[1..];
    if HeadCut(side, next, first) {
      assert side[1..][k - 1] == side[k];
    }
  }

  lemma {:induction false} HeadAfterCut(side: seq<Order>, next: seq<Order>, first: seq<Trade>)
    requires side != [] && Cut(side, next, first)
    ensures var d := |side| - |next|;
      && 0 <= d <= 1
      && if d == 1 then Remainder(side[0], first).amount <= 0.0 else next[0] == Remainder(side[0], first)
  {
  }

  /** Where two orders of a side stand after its head was cut. */
  lemma {:induction false} PositionsAfterCut(side: seq<Order>, next: seq<Order>, first: seq<Trade>, i: nat, j: nat)
    requires i < j < |side| && Cut(side, next, first)
    ensures var d := |side| - |next|;
      && 0 <= d <= 1
      && next[j - d] == side[j] && Filled(first, side[j].terms) == 0.0
      && if i < d then Remainder(side[i], first).amount <= 0.0 else next[i - d] == Remainder(side[i], first)
  {
    PositionAfterCut(side, next, first, j);
    if i > 0 {
      PositionAfterCut(side, next, first, i);
    } else {
      HeadAfterCut(side, next, first);
    }
  }

  /** An order trades only after everything in front of it is exhausted. */
  ghost predicate InTurn(side: seq<Order>, trades: seq<Trade>) {
    forall i, j | 0 <= i < j < |side| && Filled(trades, side[j].terms) > 0.0 ::
      Remainder(side[i], trades).amount <= 0.0
  }

  lemma {:induction false} InTurnAfterCut(side: seq<Order>, next: seq<Order>, first: seq<Trade>, rest: seq<Trade>)
    requires Apart(side) && Cut(side, next, first) && InTurn(next, rest)
    requires forall t | t in rest :: t.qty > 0.0
    ensures InTurn(side, first + rest)
  {
    forall i, j | 0 <= i < j < |side| && Filled(first + rest, side[j].terms) > 0.0
      ensures Remainder(side[i], first + rest).amount <= 0.0
    {
      PositionsAfterCut(side, next, first, i, j);
      FilledJoins(first, rest, side[i].terms);
      FilledJoins(first, rest, side[j].terms);
      FilledNonNegative(rest, side[i].terms);
    }
  }

  /** In the order the sides were sorted into, the exhausted orders of a side form a prefix, up to
      one order that may be partly filled, and everything behind is untouched. */
  lemma {:induction false} MergeInTurn(asks: seq<Order>, bids: seq<Order>)
    requires Sides(asks, bids)
    ensures InTurn(asks, Merge(asks, bids)) && InTurn(bids, Merge(asks, bids))
    decreases |asks| + |bids|
  {
    if Stuck(asks, bids) {
      assert forall x :: Filled([], x) == 0.0;
    } else {
      var m := Advance(asks, bids);
      AdvanceFacts(asks, bids);
      AdvanceCutsHeads(asks, bids);
      MergeInTurn(m.asks, m.bids);
      MergeTrades(m.asks, m.bids);
      InTurnAfterCut(asks, m.asks, m.trades, Merge(m.asks, m.bids));
      InTurnAfterCut(bids, m.bids, m.trades, Merge(m.asks, m.bids));
    }
  }

  /** When both heads are open, the first trade of a merge involves them. */
  lemma {:induction false} HeadTradesFirst(asks: seq<Order>, bids: seq<Order>)
    requires Sides(asks, bids) && Merge(asks, bids) != []
    ensures asks[0].amount > 0.0 ==> Merge(asks, bids)[0].ask == asks[0].terms
    ensures bids[0].amount > 0.0 ==> Merge(asks, bids)[0].bid == bids[0].terms
    decreases |asks| + |bids|
  {
    var m := Advance(asks, bids);
    if m.trades == [] {
      AdvanceFacts(asks, bids);
      HeadTradesFirst(m.asks, m.bids);
    }
  }

  ghost predicate Sliced(o: Order, trades: seq<Trade>) {
    Filled(trades, o.terms) > 0.0 && Remainder(o, trades).amount > 0.0
  }

  /** An order sliced by a whole merge is sliced by the rest of it, or the rest is empty and the
      first move sliced it. */
  lemma {:induction false} SlicedWhen(asks: seq<Order>, bids: seq<Order>, o: Order)
    requires Sides(asks, bids) && !Stuck(asks, bids)
    requires o in asks || o in bids
    requires Sliced(o, Merge(asks, bids))
    ensures var m := Advance(asks, bids); var rest := Merge(m.asks, m.bids);
      || Sliced(Remainder(o, m.trades), rest)
      || (rest == [] && Filled(m.trades, o.terms) > 0.0 && Remainder(o, m.trades).amount > 0.0)
  {
    var m := Advance(asks, bids);
    var rest := Merge(m.asks, m.bids);
    AdvanceFacts(asks, bids);
    RemainderSplits(asks, bids, o);
    FilledJoins(m.trades, rest, o.terms);
    MergeTrades(m.asks, m.bids);
    FilledNonNegative(rest, o.terms);
    if Filled(rest, o.terms) == 0.0 && rest != [] {
      MoveFits(asks, bids, o);
      HeadTradesFirst(m.asks, m.bids);
      assert rest[0] in rest;
      FilledByOne(m.trades, o.terms);
      assert false;
    }
  }

  /** A move that trades exhausts one of the two heads. */
  lemma {:induction false} MoveSlicesOne(asks: seq<Order>, bids: seq<Order>, o1: Order, o2: Order)
    requires Sides(asks, bids) && !Stuck(asks, bids)
    requires o1 in asks || o1 in bids
    requires o2 in asks || o2 in bids
    requires Sliced(o1, Advance(asks, bids).trades) && Sliced(o2, Advance(asks, bids).trades)
    ensures o1 == o2
  {
    var m := Advance(asks, bids);
    MoveFits(asks, bids, o1);
    MoveFits(asks, bids, o2);
    FilledByOne(m.trades, asks[0].terms);
    FilledByOne(m.trades, bids[0].terms);
  }

  /** At most one order of the whole book is left partly filled. */
  lemma {:induction false} OneSliced(asks: seq<Order>, bids: seq<Order>, o1: Order, o2: Order)
    requires Sides(asks, bids)
    requires o1 in asks || o1 in bids
    requires o2 in asks || o2 in bids
    requires Sliced(o1, Merge(asks, bids)) && Sliced(o2, Merge(asks, bids))
    ensures o1 == o2
    decreases |asks| + |bids|
  {
    if Stuck(asks, bids) {
      assert false;
    } else {
      var m := Advance(asks, bids);
      SlicedWhen(asks, bids, o1);
      SlicedWhen(asks, bids, o2);
      if Merge(m.asks, m.bids) == [] {
        MoveSlicesOne(asks, bids, o1, o2);
      } else {
        AdvanceFacts(asks, bids);
        ExhaustedStays(asks, bids, o1);
        ExhaustedStays(asks, bids, o2);
        OneSliced(m.asks, m.bids, Remainder(o1, m.trades), Remainder(o2, m.trades));
      }
    }
  }

  // ---- what a nested loop may skip ----

  /** An exhausted bid in front of the others makes no difference. */
  lemma {:induction false} ExhaustedBidSkipped(asks: seq<Order>, bid: Order, bids: seq<Order>)
    requires bid.amount <= 0.0
    ensures Merge(asks, [bid] + bids) == Merge(asks, bids)
    decreases |asks|
  {
    assert ([bid] + bids)[1..] == bids;
    if asks != [] {
      if asks[0].amount <= 0.0 {
        ExhaustedBidSkipped(asks[1..], bid, bids);
        if bids == [] {
          ExhaustedBidsOnly(asks[1..], [bid] + bids);
        }
      }
    }
  }

  lemma {:induction false} ExhaustedBidsOnly(asks: seq<Order>, bids: seq<Order>)
    requires forall b | b in bids :: b.amount <= 0.0
    ensures Merge(asks, bids) == []
    decreases |asks| + |bids|
  {
    if asks != [] && bids != [] {
      assert bids[0] in bids;
      if asks[0].amount <= 0.0 {
        ExhaustedBidsOnly(asks[1..], bids);
      } else {
        ExhaustedBidsOnly(asks, bids[1..]);
      }
    }
  }

  /** Sides that do not cross do not trade. */
  lemma {:induction false} ApartPricesTradeNothing(asks: seq<Order>, bids: seq<Order>)
    requires forall a, b | a in asks && b in bids && a.amount > 0.0 && b.amount > 0.0 :: b.terms.price < a.terms.price
    ensures Merge(asks, bids) == []
    decreases |asks| + |bids|
  {
    if asks != [] && bids != [] {
      assert asks[0] in asks && bids[0] in bids;
      if asks[0].amount <= 0.0 {
        ApartPricesTradeNothing(asks[1..], bids);
      } else if bids[0].amount <= 0.0 {
        ApartPricesTradeNothing(asks, bids[1..]);
      }
    }
  }

  lemma {:induction false} ExhaustedPrefixSkipped(asks: seq<Order>, bids: seq<Order>, k: nat)
    requires k <= |bids| && forall j | 0 <= j < k :: bids[j].amount <= 0.0
    ensures Merge(asks, bids) == Merge(asks, bids[k..])
    decreases k
  {
    if k > 0 {
      assert bids == [bids[0]] + bids[1..] && bids[1..][k - 1..] == bids[k..];
      ExhaustedBidSkipped(asks, bids[0], bids[1..]);
      ExhaustedPrefixSkipped(asks, bids[1..], k - 1);
    }
  }

  /** The trade that two open orders make. */
  function FillOf(ask: Order, bid: Order): Trade {
    Trade(ask.terms, bid.terms, if ask.amount <= bid.amount then ask.amount else bid.amount)
  }

  function Cutting(o: Order, q: real): Order { o.(amount := o.amount - q) }

  /** The nested loop's fill of the first ask by the first open bid is the merge's next trade. */
  lemma {:induction false} NestedFill(asks: seq<Order>, bids: seq<Order>, k: nat)
    requires asks != [] && asks[0].amount > 0.0 && k < |bids| && bids[k].amount > 0.0
    requires forall j | 0 <= j < k :: bids[j].amount <= 0.0
    requires bids[k].terms.price >= asks[0].terms.price
    ensures var t := FillOf(asks[0], bids[k]);
      Merge(asks, bids) == [t] + Merge(
        if asks[0].amount <= bids[k].amount then asks[1..] else asks[0 := Cutting(asks[0], t.qty)],
        bids[k := Cutting(bids[k], t.qty)])
  {
    var t := FillOf(asks[0], bids[k]);
    var asks' := if asks[0].amount <= bids[k].amount then asks[1..] else asks[0 := Cutting(asks[0], t.qty)];
    var bids' := bids[k := Cutting(bids[k], t.qty)];
    ExhaustedPrefixSkipped(asks, bids, k);
    ExhaustedPrefixSkipped(asks', bids', k);
    NestedHeads(asks, bids[k..]);
    assert bids'[k..] == bids[k..][0 := Cutting(bids[k], t.qty)];
  }

  /** The same for the head bid. */
  lemma {:induction false} NestedHeads(asks: seq<Order>, bids: seq<Order>)
    requires asks != [] && asks[0].amount > 0.0 && bids != [] && bids[0].amount > 0.0
    requires bids[0].terms.price >= asks[0].terms.price
    ensures var t := FillOf(asks[0], bids[0]);
      Merge(asks, bids) == [t] + Merge(
        if asks[0].amount <= bids[0].amount then asks[1..] else asks[0 := Cutting(asks[0], t.qty)],
        bids[0 := Cutting(bids[0], t.qty)])
  {
    var t := FillOf(asks[0], bids[0]);
    var cutBids := bids[0 := Cutting(bids[0], t.qty)];
    assert cutBids == [Cutting(bids[0], t.qty)] + bids[1..];
    if asks[0].amount == bids[0].amount {
      ExhaustedBidSkipped(asks[1..], Cutting(bids[0], t.qty), bids[1..]);
    } else if asks[0].amount > bids[0].amount {
      var cutAsks := asks[0 := Cutting(asks[0], t.qty)];
      assert cutAsks == [Cutting(asks[0], t.qty)] + asks[1..];
      ExhaustedBidSkipped(cutAsks, Cutting(bids[0], t.qty), bids[1..]);
    }
  }

  lemma {:induction false} ExhaustedAskSkipped(asks: seq<Order>, bids: seq<Order>)
    requires asks != [] && asks[0].amount <= 0.0
    ensures Merge(asks, bids) == Merge(asks[1..], bids)
  {
  }
}
