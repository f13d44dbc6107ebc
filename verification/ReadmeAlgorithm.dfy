/** The matching algorithm as the README prints it, and how it relates to the code's. */
module ReadmeAlgorithm {
  import opened Orders
  import opened Trades
  import opened Matching

  /** The inner loop over the bids for one ask: the sales, and the bids as it leaves them. */
  datatype Scan = Scan(trades: seq<Trade>, bids: seq<Order>)

  /** README.md prints no test for an exhausted ask or bid: it compares amounts of zero too. */
  function ScanBids(ask: Order, bids: seq<Order>): (r: Scan)
    ensures |r.bids| == |bids|
    decreases |bids|
  {
    if bids == [] then Scan([], [])
    else
      var bid := bids[0];
      if bid.terms.price < ask.terms.price then
        var rest := ScanBids(ask, bids[1..]);
        Scan(rest.trades, [bid] + rest.bids)
      else if bid.amount == ask.amount then
        Scan([Trade(ask.terms, bid.terms, ask.amount)], [bid.(amount := 0.0)] + bids[1..])
      else if bid.amount > ask.amount then
        Scan([Trade(ask.terms, bid.terms, ask.amount)], [bid.(amount := bid.amount - ask.amount)] + bids[1..])
      else
        var rest := ScanBids(ask.(amount := ask.amount - bid.amount), bids[1..]);
        Scan([Trade(ask.terms, bid.terms, bid.amount)] + rest.trades, [bid.(amount := 0.0)] + rest.bids)
  }

  function ReadmePass(asks: seq<Order>, bids: seq<Order>): seq<Trade>
    decreases |asks|
  {
    if asks == [] then []
    else var scan := ScanBids(asks[0], bids); scan.trades + ReadmePass(asks[1..], scan.bids)
  }

  function NonZero(trades: seq<Trade>): seq<Trade> {
    if trades == [] then []
    else (if trades[0].qty == 0.0 then [] else [trades[0]]) + NonZero(trades[1..])
  }

  ghost predicate NonNegative(orders: seq<Order>) { forall o | o in orders :: o.amount >= 0.0 }

  lemma {:induction false} NonZeroJoins(first: seq<Trade>, second: seq<Trade>)
    ensures NonZero(first + second) == NonZero(first) + NonZero(second)
  {
    if first == [] {
      assert first + second == second;
    } else {
      assert (first + second)[1..] == first[1..] + second;
      NonZeroJoins(first[1..], second);
    }
  }

  /** Below the ask's price the scan does nothing. */
  lemma {:induction false} ScanBelow(ask: Order, bids: seq<Order>)
    requires forall b | b in bids :: b.terms.price < ask.terms.price
    ensures ScanBids(ask, bids) == Scan([], bids)
  {
    if bids != [] {
      assert bids[0] in bids;
      ScanBelow(ask, bids[1..]);
    }
  }

  /** What the scan leaves is still a list of bids in the same price order. */
  lemma {:induction false} ScanKeeps(ask: Order, bids: seq<Order>)
    requires ask.amount >= 0.0 && NonNegative(bids)
    ensures NonNegative(ScanBids(ask, bids).bids)
    ensures forall k | 0 <= k < |bids| :: ScanBids(ask, bids).bids[k].terms == bids[k].terms
    decreases |bids|
  {
    if bids != [] {
      assert bids[0] in bids;
      assert NonNegative(bids[1..]);
      var bid := bids[0];
      if bid.terms.price < ask.terms.price {
        ScanKeeps(ask, bids[1..]);
        HeadKept(bid, bid, ScanBids(ask, bids[1..]).bids, bids);
      } else if bid.amount < ask.amount {
        var less := ask.(amount := ask.amount - bid.amount);
        ScanKeeps(less, bids[1..]);
        HeadKept(bid.(amount := 0.0), bid, ScanBids(less, bids[1..]).bids, bids);
      } else {
        HeadKept(bid.(amount := bid.amount - ask.amount), bid, bids[1..], bids);
      }
    }
  }

  lemma {:induction false} HeadKept(head: Order, bid: Order, rest: seq<Order>, bids: seq<Order>)
    requires bids != [] && bid == bids[0] && head.terms == bid.terms && head.amount >= 0.0 && NonNegative(rest)
    requires |rest| == |bids| - 1 && forall k | 0 <= k < |rest| :: rest[k].terms == bids[1..][k].terms
    ensures NonNegative([head] + rest) && forall k | 0 <= k < |bids| :: ([head] + rest)[k].terms == bids[k].terms
  {
    assert forall k | 0 < k < |bids| :: ([head] + rest)[k] == rest[k - 1] && bids[1..][k - 1] == bids[k];
  }

  /** When not even the best bid reaches the ask, neither algorithm trades any further. */
  lemma {:induction false} UncrossedScanIsMerge(ask: Order, asks: seq<Order>, bids: seq<Order>)
    requires InRank([ask] + asks, Ask) && InRank(bids, Bid)
    requires bids != [] && bids[0].terms.price < ask.terms.price
    ensures ScanBids(ask, bids) == Scan([], bids)
    ensures Merge([ask] + asks, bids) == [] && Merge(asks, bids) == []
  {
    var all := [ask] + asks;
    ScanBelow(ask, bids);
    forall a | a in all ensures a.terms.price >= ask.terms.price {
      var i :| 0 <= i < |all| && all[i] == a;
      assert all[0].terms.price <= a.terms.price;
    }
    ApartPricesTradeNothing(all, bids);
    ApartPricesTradeNothing(asks, bids);
  }

  lemma {:induction false} ZeroAskIsMerge(ask: Order, asks: seq<Order>, bids: seq<Order>)
    requires bids != [] && 0.0 == ask.amount <= bids[0].amount && bids[0].terms.price >= ask.terms.price
    ensures NonZero(ScanBids(ask, bids).trades) == [] && ScanBids(ask, bids).bids == bids
    ensures Merge([ask] + asks, bids) == Merge(asks, bids)
  {
    assert ([ask] + asks)[1..] == asks;
    assert bids == [bids[0]] + bids[1..];
    var t := Trade(ask.terms, bids[0].terms, ask.amount);
    assert [t][1..] == [];
  }

  lemma {:induction false} CoveringBidMoves(ask: Order, asks: seq<Order>, bids: seq<Order>)
    requires bids != [] && 0.0 < ask.amount <= bids[0].amount && bids[0].terms.price >= ask.terms.price
    ensures var cut := bids[0].(amount := bids[0].amount - ask.amount);
      Merge([ask] + asks, bids) == [Trade(ask.terms, bids[0].terms, ask.amount)] + Merge(asks, [cut] + bids[1..])
  {
    assert ([ask] + asks)[1..] == asks;
    var bid, rest := bids[0], bids[1..];
    if bid.amount == ask.amount {
      ExhaustedBidSkipped(asks, bid.(amount := 0.0), rest);
    }
  }

  lemma {:induction false} CoveringBidScans(ask: Order, bids: seq<Order>)
    requires bids != [] && 0.0 < ask.amount <= bids[0].amount && bids[0].terms.price >= ask.terms.price
    ensures NonZero(ScanBids(ask, bids).trades) == [Trade(ask.terms, bids[0].terms, ask.amount)]
    ensures ScanBids(ask, bids).bids == [bids[0].(amount := bids[0].amount - ask.amount)] + bids[1..]
  {
    var t := Trade(ask.terms, bids[0].terms, ask.amount);
    assert [t][1..] == [];
  }

  /** The scan stops at the first bid that covers the ask. */
  lemma {:induction false} CoveringBidIsMerge(ask: Order, asks: seq<Order>, bids: seq<Order>)
    requires bids != [] && 0.0 <= ask.amount <= bids[0].amount && bids[0].terms.price >= ask.terms.price
    ensures Merge([ask] + asks, bids) == NonZero(ScanBids(ask, bids).trades) + Merge(asks, ScanBids(ask, bids).bids)
  {
    if ask.amount == 0.0 {
      ZeroAskIsMerge(ask, asks, bids);
      assert [] + Merge(asks, bids) == Merge(asks, bids);
    } else {
      CoveringBidMoves(ask, asks, bids);
      CoveringBidScans(ask, bids);
    }
  }

  /** One move of the merge over a bid that does not cover the ask. */
  lemma {:induction false} PartialBidMoves(ask: Order, asks: seq<Order>, bids: seq<Order>)
    requires bids != [] && 0.0 <= bids[0].amount < ask.amount && bids[0].terms.price >= ask.terms.price
    ensures var cut := ask.(amount := ask.amount - bids[0].amount);
      Merge([ask] + asks, bids)
      == NonZero([Trade(ask.terms, bids[0].terms, bids[0].amount)]) + Merge([cut] + asks, bids[1..])
  {
    assert ([ask] + asks)[1..] == asks;
    var t := Trade(ask.terms, bids[0].terms, bids[0].amount);
    assert [t][1..] == [];
    if bids[0].amount == 0.0 {
      assert ask.(amount := ask.amount - 0.0) == ask;
    }
  }

  /** The scan over it, zero-amount sales aside, and what the next ask makes of its bids. */
  lemma {:induction false} PartialBidScans(ask: Order, asks: seq<Order>, bids: seq<Order>)
    requires bids != [] && 0.0 <= bids[0].amount < ask.amount && bids[0].terms.price >= ask.terms.price
    ensures var scan := ScanBids(ask, bids);
      var rest := ScanBids(ask.(amount := ask.amount - bids[0].amount), bids[1..]);
      && NonZero(scan.trades)
         == NonZero([Trade(ask.terms, bids[0].terms, bids[0].amount)]) + NonZero(rest.trades)
      && Merge(asks, scan.bids) == Merge(asks, rest.bids)
  {
    var bid := bids[0];
    var rest := ScanBids(ask.(amount := ask.amount - bid.amount), bids[1..]);
    ExhaustedBidSkipped(asks, bid.(amount := 0.0), rest.bids);
    NonZeroJoins([Trade(ask.terms, bid.terms, bid.amount)], rest.trades);
  }

  /** A bid that does not cover the ask is used up, and the scan goes on with the ask cut. */
  lemma {:induction false} PartialBidIsMerge(ask: Order, asks: seq<Order>, bids: seq<Order>)
    requires bids != [] && 0.0 <= bids[0].amount < ask.amount && bids[0].terms.price >= ask.terms.price
    requires var cut := ask.(amount := ask.amount - bids[0].amount);
      var scan := ScanBids(cut, bids[1..]);
      Merge([cut] + asks, bids[1..]) == NonZero(scan.trades) + Merge(asks, scan.bids)
    ensures var scan := ScanBids(ask, bids);
      Merge([ask] + asks, bids) == NonZero(scan.trades) + Merge(asks, scan.bids)
  {
    PartialBidMoves(ask, asks, bids);
    PartialBidScans(ask, asks, bids);
    var cut := ask.(amount := ask.amount - bids[0].amount);
    var rest := ScanBids(cut, bids[1..]);
    Chained(Merge([ask] + asks, bids), NonZero([Trade(ask.terms, bids[0].terms, bids[0].amount)]),
            Merge([cut] + asks, bids[1..]), NonZero(rest.trades), Merge(asks, rest.bids));
  }

  lemma {:induction false} Chained(all: seq<Trade>, first: seq<Trade>, rest: seq<Trade>, middle: seq<Trade>,
                                   last: seq<Trade>)
    requires all == first + rest && rest == middle + last
    ensures all == (first + middle) + last
  {
  }

  /** The sales of one scan, zero-amount sales aside, are the merge's sales up to the next ask. */
  lemma {:induction false} ScanIsMerge(ask: Order, asks: seq<Order>, bids: seq<Order>)
    requires InRank([ask] + asks, Ask) && InRank(bids, Bid) && ask.amount >= 0.0 && NonNegative(bids)
    ensures var scan := ScanBids(ask, bids);
      Merge([ask] + asks, bids) == NonZero(scan.trades) + Merge(asks, scan.bids)
    decreases |bids|
  {
    if bids != [] {
      assert bids[0] in bids && NonNegative(bids[1..]);
      if bids[0].terms.price < ask.terms.price {
        UncrossedScanIsMerge(ask, asks, bids);
      } else if bids[0].amount < ask.amount {
        var cut := ask.(amount := ask.amount - bids[0].amount);
        assert forall k | 0 <= k <= |asks| :: ([cut] + asks)[k].terms == ([ask] + asks)[k].terms;
        ScanIsMerge(cut, asks, bids[1..]);
        PartialBidIsMerge(ask, asks, bids);
      } else {
        CoveringBidIsMerge(ask, asks, bids);
      }
    }
  }

  /** The README's algorithm makes the same sales as the code, in the same order, once its
      zero-amount sales are dropped. */
  lemma {:induction false} ReadmeAgrees(asks: seq<Order>, bids: seq<Order>)
    requires InRank(asks, Ask) && InRank(bids, Bid) && NonNegative(asks) && NonNegative(bids)
    ensures NonZero(ReadmePass(asks, bids)) == Merge(asks, bids)
    decreases |asks|
  {
    if asks != [] {
      var scan := ScanBids(asks[0], bids);
      assert asks == [asks[0]] + asks[1..] && asks[0] in asks;
      ScanIsMerge(asks[0], asks[1..], bids);
      ScanKeeps(asks[0], bids);
      ReadmeAgrees(asks[1..], scan.bids);
      NonZeroJoins(scan.trades, ReadmePass(asks[1..], scan.bids));
    }
  }
}
