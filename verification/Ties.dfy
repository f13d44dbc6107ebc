/** What the sort leaves open: std::sort is not stable, so equal prices may fall either way. */
module Ties {
  import opened Orders
  import opened Trades
  import opened Matching
  import opened TimeOrder

  function AskAt(stamp: string, id: nat): Order { Order(Terms(10.0, stamp, "A/B", Ask, "seller", id), 1.0) }

  const ONE_BID := Order(Terms(10.0, "3", "A/B", Bid, "buyer", 3), 1.0)

  const EARLY := AskAt("1", 1)
  const LATE := AskAt("2", 2)

  lemma {:induction false} SideCons(a: Order, rest: seq<Order>, t: OrderType)
    ensures Side([a] + rest, t) == (if a.terms.orderType == t then [a] + Side(rest, t) else Side(rest, t))
  {
    assert ([a] + rest)[1..] == rest;
  }

  lemma {:induction false} LateSides(t: OrderType)
    ensures Side([EARLY, LATE, ONE_BID], t) == if t == Ask then [EARLY, LATE] else if t == Bid then [ONE_BID] else []
  {
    SideCons(ONE_BID, [], t);
    SideCons(LATE, [ONE_BID], t);
    SideCons(EARLY, [LATE] + [ONE_BID], t);
    assert [EARLY, LATE, ONE_BID] == [EARLY] + ([LATE] + ([ONE_BID] + []));
    assert [ONE_BID] == [ONE_BID] + [];
  }

  lemma {:induction false} LateRanksFirst()
    ensures Ranked([EARLY, LATE, ONE_BID], [LATE, EARLY], [ONE_BID])
  {
    LateSides(Ask);
    LateSides(Bid);
    assert multiset([LATE, EARLY]) == multiset([EARLY, LATE]);
  }

  lemma {:induction false} LateMergesFirst()
    ensures Merge([LATE, EARLY], [ONE_BID]) == [LATE_SALE]
  {
    var m := Advance([LATE, EARLY], [ONE_BID]);
    assert m.bids == [] && Merge(m.asks, m.bids) == [];
  }

  const LATE_SALE := Trade(LATE.terms, ONE_BID.terms, 1.0)

  lemma {:induction false} OnlyLateIsFilled()
    ensures Remainder(LATE, [LATE_SALE]).amount == 0.0 && Remainder(EARLY, [LATE_SALE]) == EARLY
  {
    FilledByOne([LATE_SALE], EARLY.terms);
    FilledByOne([LATE_SALE], LATE.terms);
  }

  /** Price-time priority is not kept on ties: of two asks at one price the later may trade first, and the
      earlier not at all. The C++ standard permits this of std::sort; common libraries happen to sort short
      lists stably, and TimePriority.TornIsViolated gives such a pass for lists of every length. */
  lemma {:induction false} LaterMayTradeFirst()
    ensures IsPass([EARLY, LATE, ONE_BID], [LATE_SALE])
    ensures EARLY.terms.price == LATE.terms.price && Before(EARLY, LATE) && !Before(LATE, EARLY)
    ensures Remainder(LATE, [LATE_SALE]).amount == 0.0 && Remainder(EARLY, [LATE_SALE]) == EARLY
  {
    LateRanksFirst();
    LateMergesFirst();
    OnlyLateIsFilled();
  }
}
