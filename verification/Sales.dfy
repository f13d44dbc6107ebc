/** The log of finalized sales: what a pass appends to it, and what that says about the fills. */
module Sales {
  import opened Orders
  import opened Sequences
  import opened Tokenizer
  import opened Trades
  import opened Meters
  import opened Matching
  import opened Optimality
  import opened Settlement
  import opened Books
  import opened Exchanges
  import opened Reachable
  import opened Failures
  import opened Accounts
  import opened Payments
  import Stats

  /** What the fills of a pass cost their buyers. */
  function Costs(trades: seq<Trade>): real {
    if trades == [] then 0.0 else Cost(trades[0]) + Costs(trades[1..])
  }

  /** The sales record the fills one for one. */
  ghost predicate Record(sales: seq<Order>, trades: seq<Trade>) {
    |sales| == |trades| && forall k | 0 <= k < |sales| ::
      sales[k].terms.price == trades[k].ask.price && sales[k].amount == trades[k].qty
  }

  lemma {:induction false} RecordRest(sales: seq<Order>, trades: seq<Trade>)
    requires Record(sales, trades) && trades != []
    ensures Record(sales[1..], trades[1..])
  {
  }

  lemma {:induction false} HeadAdds(sales: seq<Order>)
    requires sales != []
    ensures Stats.Volume(sales) == sales[0].amount + Stats.Volume(sales[1..])
    ensures Stats.PriceTotal(sales) == sales[0].terms.price * sales[0].amount + Stats.PriceTotal(sales[1..])
  {
    Stats.HeadOut(sales);
  }

  /** So the recorded amounts add up to the quantity, and price times amount to the cost. */
  lemma {:induction false} RecordsAddUp(sales: seq<Order>, trades: seq<Trade>)
    requires Record(sales, trades)
    ensures Stats.Volume(sales) == Quantity(trades) && Stats.PriceTotal(sales) == Costs(trades)
    decreases |trades|
  {
    if trades != [] {
      RecordRest(sales, trades);
      RecordsAddUp(sales[1..], trades[1..]);
      HeadAdds(sales);
    }
  }

  // ---- the log of a pass ----

  /** What was appended between two logs. */
  function Appended(before: seq<Order>, after: seq<Order>): seq<Order> {
    if |before| <= |after| then after[|before|..] else []
  }

  /** What a step appends to the log. */
  function Recorded(s: Exchange, step: Step): seq<Order>
    requires Enabled(s, step)
  {
    Appended(s.book.sales, Next(s, step).book.sales)
  }

  lemma {:induction false} PassRecords(s: Exchange, step: Step)
    requires Sound(s) && Enabled(s, step) && step.Match? && Settles(s, step)
    ensures Next(s, step).book.sales == s.book.sales + Recorded(s, step)
    ensures Recorded(s, step) == SalesOf(Merge(step.asks, step.bids), step.product, step.now, s.nextId)
  {
    AfterPassKeeps(s.book, step.product, Merge(step.asks, step.bids),
                   SalesOf(Merge(step.asks, step.bids), step.product, step.now, s.nextId));
  }

  /** A pass that goes through appends one sale per fill, in the order of the fills: at the ask's price, in the
      quantity that changed hands, of the pass's product and time, owned by default, with the next ids. */
  lemma {:induction false} SaleRecordsFill(s: Exchange, step: Step, k: nat)
    requires Sound(s) && Enabled(s, step) && step.Match? && Settles(s, step) && k < |Merge(step.asks, step.bids)|
    ensures Next(s, step).book.sales == s.book.sales + Recorded(s, step)
    ensures |Recorded(s, step)| == |Merge(step.asks, step.bids)|
    ensures Recorded(s, step)[k].terms.price == Merge(step.asks, step.bids)[k].ask.price
    ensures Recorded(s, step)[k].amount == Merge(step.asks, step.bids)[k].qty
    ensures Recorded(s, step)[k].terms.product == step.product && Recorded(s, step)[k].terms.timestamp == step.now
    ensures Recorded(s, step)[k].terms.orderType == Sale && Recorded(s, step)[k].terms.username == DEFAULT_USER
    ensures Recorded(s, step)[k].terms.id == s.nextId + k
  {
    PassRecords(s, step);
    SalesHold(Merge(step.asks, step.bids), step.product, step.now, s.nextId);
  }

  lemma {:induction false} PassIsRecorded(s: Exchange, step: Step)
    requires Sound(s) && Enabled(s, step) && step.Match? && Settles(s, step)
    ensures Record(Recorded(s, step), Merge(step.asks, step.bids))
  {
    PassRecords(s, step);
    SalesHold(Merge(step.asks, step.bids), step.product, step.now, s.nextId);
  }

  /** Every step but such a pass leaves the log alone. */
  lemma {:induction false} OthersRecordNothing(s: Exchange, step: Step)
    requires Enabled(s, step) && !(step.Match? && Settles(s, step))
    ensures Next(s, step).book.sales == s.book.sales
  {
    match step
    case Match(product, now, asks, bids) =>
      var booked := Reached(s.ledger, Merge(asks, bids));
      assert Next(s, step).book == Booked(s.book, product, booked, []);
      BookingKeepsSales(s.book, product, booked);
    case CancelById(user, id) =>
      CancelKeepsSales(s, user, id);
    case _ =>
  }

  lemma {:induction false} BookingKeepsSales(b: Book, product: string, booked: seq<Trade>)
    ensures Booked(b, product, booked, []).sales == b.sales
  {
    assert b.sales + [] == b.sales;
  }

  lemma {:induction false} CancelKeepsSales(s: Exchange, user: string, id: nat)
    requires Client(s, user)
    ensures AfterCancel(s, user, id).book.sales == s.book.sales
  {
  }

  /** The laws of the recorded sales: prices never fall, each lies within both limits, the amounts are positive
      and add up to what each side of the list lost, and price times amount adds up to what the buyers' fills
      cost. */
  lemma {:induction false} RecordedLaws(s: Exchange, step: Step)
    requires Sound(s) && Enabled(s, step) && step.Match? && Settles(s, step)
    ensures forall i, j | 0 <= i < j < |Recorded(s, step)| ::
      Recorded(s, step)[i].terms.price <= Recorded(s, step)[j].terms.price
    ensures |Recorded(s, step)| == |Merge(step.asks, step.bids)|
    ensures forall k | 0 <= k < |Recorded(s, step)| ::
      Recorded(s, step)[k].amount > 0.0 && Recorded(s, step)[k].terms.price <= Merge(step.asks, step.bids)[k].bid.price
    ensures forall side | side == Ask || side == Bid ::
      Stats.Volume(Recorded(s, step)) == Measure(Volume(side), ListOf(s.book, step.product))
                                       - Measure(Volume(side), ListOf(Next(s, step).book, step.product))
    ensures Stats.PriceTotal(Recorded(s, step)) == Costs(Merge(step.asks, step.bids))
  {
    var orders, trades := ListOf(s.book, step.product), Merge(step.asks, step.bids);
    ListIsApart(s.book, step.product);
    PassIsRecorded(s, step);
    PassSales(orders, trades);
    RecordsAddUp(Recorded(s, step), trades);
    forall side | side == Ask || side == Bid
      ensures Measure(Volume(side), ListOf(Next(s, step).book, step.product)) == Measure(Volume(side), Apply(orders, trades))
    {
      ListAfterPass(s, step);
      PurgeKeepsMeasure(Volume(side), Apply(orders, trades));
    }
    forall k | 0 <= k < |trades| ensures trades[k].qty > 0.0 && trades[k].ask.price <= trades[k].bid.price {
      assert trades[k] in trades;
    }
  }

  lemma {:induction false} ListAfterPass(s: Exchange, step: Step)
    requires Sound(s) && Enabled(s, step) && step.Match? && Settles(s, step)
    ensures ListOf(Next(s, step).book, step.product) == Purge(Apply(ListOf(s.book, step.product), Merge(step.asks, step.bids)))
  {
    AfterPassKeeps(s.book, step.product, Merge(step.asks, step.bids),
                   SalesOf(Merge(step.asks, step.bids), step.product, step.now, s.nextId));
    assert Apply([], Merge(step.asks, step.bids)) == [];
  }

  // ---- the log and the wallets ----

  /** The sales whose buyer is the user ... */
  function SalesTo(sales: seq<Order>, trades: seq<Trade>, user: string): seq<Order>
    requires |sales| == |trades|
  {
    if trades == [] then []
    else (if trades[0].bid.username == user then [sales[0]] else []) + SalesTo(sales[1..], trades[1..], user)
  }

  /** ... and those whose seller is. */
  function SalesFrom(sales: seq<Order>, trades: seq<Trade>, user: string): seq<Order>
    requires |sales| == |trades|
  {
    if trades == [] then []
    else (if trades[0].ask.username == user then [sales[0]] else []) + SalesFrom(sales[1..], trades[1..], user)
  }

  ghost predicate Trading(trades: seq<Trade>, base: string, quote: string) {
    forall t | t in trades ::
      ExtractTokens(t.ask.product, '/') == [base, quote] && ExtractTokens(t.bid.product, '/') == [base, quote]
  }

  lemma {:induction false} OneMoreSale(sale: Order, some: bool, rest: seq<Order>)
    ensures var sales := (if some then [sale] else []) + rest;
      && Stats.Volume(sales) == (if some then sale.amount else 0.0) + Stats.Volume(rest)
      && Stats.PriceTotal(sales) == (if some then sale.terms.price * sale.amount else 0.0) + Stats.PriceTotal(rest)
  {
    if some {
      Stats.TotalsJoin([sale], rest);
      Stats.OneOrder(sale);
    } else {
      assert [] + rest == rest;
    }
  }

  lemma {:induction false} BoughtAsRecorded(sales: seq<Order>, trades: seq<Trade>, user: string, base: string, quote: string)
    requires Record(sales, trades) && Trading(trades, base, quote)
    ensures forall c :: PaidBy(trades, user, c) == if c == quote then Stats.PriceTotal(SalesTo(sales, trades, user)) else 0.0
    ensures forall c :: BoughtBy(trades, user, c) == if c == base then Stats.Volume(SalesTo(sales, trades, user)) else 0.0
    decreases |trades|
  {
    if trades != [] {
      assert trades[0] in trades;
      RecordRest(sales, trades);
      BoughtAsRecorded(sales[1..], trades[1..], user, base, quote);
      OneMoreSale(sales[0], trades[0].bid.username == user, SalesTo(sales[1..], trades[1..], user));
    }
  }

  lemma {:induction false} SoldAsRecorded(sales: seq<Order>, trades: seq<Trade>, user: string, base: string, quote: string)
    requires Record(sales, trades) && Trading(trades, base, quote)
    ensures (forall c ::
      EarnedBy(trades, user, c) == if c == quote then Stats.PriceTotal(SalesFrom(sales, trades, user)) else 0.0)
    ensures forall c :: SoldBy(trades, user, c) == if c == base then Stats.Volume(SalesFrom(sales, trades, user)) else 0.0
    decreases |trades|
  {
    if trades != [] {
      assert trades[0] in trades;
      RecordRest(sales, trades);
      SoldAsRecorded(sales[1..], trades[1..], user, base, quote);
      OneMoreSale(sales[0], trades[0].ask.username == user, SalesFrom(sales[1..], trades[1..], user));
    }
  }

  /** What a client holds, free and locked together, changes in a pass by what the log says: in the quote currency by
      the value of the recorded sales the client made, less that of those the client bought; in the base
      currency by their amounts, the other way round. */
  lemma {:induction false} WalletsFollowTheLog(s: Exchange, step: Step, user: string, base: string, quote: string)
    requires Sound(s) && Covered(s) && Enabled(s, step) && step.Match? && Settles(s, step) && user != DEFAULT_USER
    requires ExtractTokens(step.product, '/') == [base, quote]
    ensures |Recorded(s, step)| == |Merge(step.asks, step.bids)|
    ensures var bought, sold := SalesTo(Recorded(s, step), Merge(step.asks, step.bids), user),
                                SalesFrom(Recorded(s, step), Merge(step.asks, step.bids), user);
      forall c ::
        (FreeOf(Next(s, step).ledger, user, c) + LockedOf(Next(s, step).ledger, user, c)
          == FreeOf(s.ledger, user, c) + LockedOf(s.ledger, user, c)
           + (if c == quote then Stats.PriceTotal(sold) - Stats.PriceTotal(bought) else 0.0)
           + (if c == base then Stats.Volume(bought) - Stats.Volume(sold) else 0.0))
  {
    var orders, trades := ListOf(s.book, step.product), Merge(step.asks, step.bids);
    PassIsRecorded(s, step);
    FillsTrade(s, step, base, quote);
    BoughtAsRecorded(Recorded(s, step), trades, user, base, quote);
    SoldAsRecorded(Recorded(s, step), trades, user, base, quote);
    forall c
      ensures FreeOf(Next(s, step).ledger, user, c) + LockedOf(Next(s, step).ledger, user, c)
           == FreeOf(s.ledger, user, c) + LockedOf(s.ledger, user, c)
            + EarnedBy(trades, user, c) - PaidBy(trades, user, c) + BoughtBy(trades, user, c) - SoldBy(trades, user, c)
    {
      PassPays(s, step, user, c);
      assert Next(s, step).tape[|s.tape|..] == trades;
    }
  }

  lemma {:induction false} FillsTrade(s: Exchange, step: Step, base: string, quote: string)
    requires Sound(s) && Enabled(s, step) && step.Match? && ExtractTokens(step.product, '/') == [base, quote]
    ensures Trading(Merge(step.asks, step.bids), base, quote)
  {
    var orders, trades := ListOf(s.book, step.product), Merge(step.asks, step.bids);
    ListIsApart(s.book, step.product);
    forall t | t in trades
      ensures ExtractTokens(t.ask.product, '/') == [base, quote] && ExtractTokens(t.bid.product, '/') == [base, quote]
    {
      PassTradesIn(orders, trades, step.product, t);
    }
  }

  // ---- the log of a run ----

  /** The fills of a step, if it is a pass that goes through ... */
  function FillsOf(s: Exchange, step: Step): seq<Trade> {
    if step.Match? && Settles(s, step) then Merge(step.asks, step.bids) else []
  }

  /** ... and of the steps of a run. */
  ghost function SettledFills(s: Exchange, steps: seq<Step>): seq<Trade>
    decreases |steps|
  {
    if steps == [] || !Enabled(s, steps[0]) then []
    else FillsOf(s, steps[0]) + SettledFills(Next(s, steps[0]), steps[1..])
  }

  /** Sales with rising ids from a range, recording these fills. */
  ghost predicate Logged(sales: seq<Order>, fills: seq<Trade>, from: nat, to: nat) {
    && Record(sales, fills) && from <= to
    && (forall k | 0 <= k < |sales| :: from <= sales[k].terms.id < to)
    && (forall i, j | 0 <= i < j < |sales| :: sales[i].terms.id < sales[j].terms.id)
  }

  lemma {:induction false} RunIsLogged(s: Exchange, steps: seq<Step>, s': Exchange)
    requires Orderly(s) && Run(s, steps, s')
    ensures s'.book.sales == s.book.sales + Appended(s.book.sales, s'.book.sales)
    ensures Logged(Appended(s.book.sales, s'.book.sales), SettledFills(s, steps), s.nextId, s'.nextId)
    decreases |steps|
  {
    if steps != [] {
      var s1, fills := Next(s, steps[0]), FillsOf(s, steps[0]);
      StepIsOrderly(s, steps[0]);
      StepRecords(s, steps[0]);
      RunIsLogged(s1, steps[1..], s');
      LogJoins(s, s1, s', Recorded(s, steps[0]), Appended(s1.book.sales, s'.book.sales), fills, SettledFills(s1, steps[1..]));
    }
  }

  /** Over every run the log grows by one sale per fill of a pass that went through, in order, at the ask's
      price, in the fill's quantity, with ids that rise. */
  lemma {:induction false} LogOverRuns(s: Exchange, steps: seq<Step>, s': Exchange)
    requires Orderly(s) && Run(s, steps, s')
    ensures s.book.sales <= s'.book.sales && s.nextId <= s'.nextId
    ensures var sales, fills := s'.book.sales[|s.book.sales|..], SettledFills(s, steps);
      && |sales| == |fills|
      && (forall k | 0 <= k < |sales| :: sales[k].terms.price == fills[k].ask.price && sales[k].amount == fills[k].qty)
      && (forall k | 0 <= k < |sales| :: s.nextId <= sales[k].terms.id < s'.nextId)
      && (forall i, j | 0 <= i < j < |sales| :: sales[i].terms.id < sales[j].terms.id)
  {
    RunIsLogged(s, steps, s');
  }

  lemma {:induction false} StepRecords(s: Exchange, step: Step)
    requires Sound(s) && Enabled(s, step)
    ensures Next(s, step).book.sales == s.book.sales + Recorded(s, step)
    ensures Logged(Recorded(s, step), FillsOf(s, step), s.nextId, Next(s, step).nextId)
  {
    IdsGrow(s, step);
    if step.Match? && Settles(s, step) {
      PassRecords(s, step);
      SalesAreLogged(Merge(step.asks, step.bids), step.product, step.now, s.nextId);
    } else {
      OthersRecordNothing(s, step);
    }
  }

  lemma {:induction false} IdsGrow(s: Exchange, step: Step)
    requires Enabled(s, step)
    ensures Next(s, step).nextId >= s.nextId
    ensures step.Match? && Settles(s, step) ==> Next(s, step).nextId == s.nextId + |Merge(step.asks, step.bids)|
  {
  }

  lemma {:induction false} SalesAreLogged(trades: seq<Trade>, product: string, now: string, id: nat)
    ensures Logged(SalesOf(trades, product, now, id), trades, id, id + |trades|)
  {
    SalesHold(trades, product, now, id);
  }

  lemma {:induction false} LogJoins(s: Exchange, s1: Exchange, s': Exchange, first: seq<Order>, second: seq<Order>,
                                    fills: seq<Trade>, more: seq<Trade>)
    requires s1.book.sales == s.book.sales + first && s'.book.sales == s1.book.sales + second
    requires Logged(first, fills, s.nextId, s1.nextId) && Logged(second, more, s1.nextId, s'.nextId)
    ensures Appended(s.book.sales, s'.book.sales) == first + second && s'.book.sales == s.book.sales + (first + second)
    ensures Logged(first + second, fills + more, s.nextId, s'.nextId)
  {
    Associate(s.book.sales, first, second);
  }
}
