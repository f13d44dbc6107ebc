/** Bids with both signs negative. They and passes that throw (Accounts.ThrowLeaks) are what makes locked
    funds drift away from the orders. */
module Leaks {
  import opened Orders
  import opened Tokenizer
  import opened Trades
  import opened Meters
  import opened Matching
  import opened Purses
  import opened Settlement
  import opened Books
  import opened Exchanges
  import opened Reachable
  import opened Accounts

  lemma {:induction false} PairHolds(o: Order)
    requires NegativePair(o) && |ExtractTokens(o.terms.product, '/')| == 2
    ensures LockedFor(o, QuoteOf(o.terms)) == StuckIn(o, QuoteOf(o.terms)) == o.amount * o.terms.price > 0.0
  {
    assert (0.0 - o.amount) * (0.0 - o.terms.price) > 0.0;
  }

  /** A negative pair in the book: as long as no pass has run, CANCEL gives back all that it locked, and
      no slack is left. */
  lemma {:induction false} NegativePairCancels(s: Exchange, user: string, product: string, k: nat, id: nat)
    requires Sound(s) && Covered(s) && Client(s, user) && OwnedAt(s.book, product, k, user, id)
    requires NegativePair(ListOf(s.book, product)[k])
    ensures var s', o := CancelAt(s, user, product, k), ListOf(s.book, product)[k];
      && |ExtractTokens(o.terms.product, '/')| == 2 && !Live(s'.book, o.terms)
      && (var c := QuoteOf(o.terms);
          && LockedOf(s'.ledger, user, c) == LockedOf(s.ledger, user, c) - o.amount * o.terms.price
          && FreeOf(s'.ledger, user, c) == FreeOf(s.ledger, user, c) + o.amount * o.terms.price
          && Slack(s', user, c) == Slack(s, user, c))
  {
    var o := ListOf(s.book, product)[k];
    CancelMoves(s, user, product, k, id);
    CancelKeepsSlack(s, user, product, k, id);
    CancelIsSound(s, user, product, k, id);
    PairHolds(o);
  }

  /** A purge leaves nothing of an order with nothing left. */
  lemma {:induction false} ExhaustedIsDropped(orders: seq<Order>, trades: seq<Trade>, o: Order)
    requires Apart(orders) && o in orders && Remainder(o, trades).amount <= 0.0
    ensures !Holds(Purge(Apply(orders, trades)), o.terms)
  {
    var after, left := Apply(orders, trades), Purge(Apply(orders, trades));
    forall r | r in orders && r.terms == o.terms ensures r == o {
      ApartMembers(orders, r, o);
    }
    forall k | 0 <= k < |left| ensures left[k].terms != o.terms {
      assert left[k] in left;
      var i :| 0 <= i < |after| && after[i] == left[k];
      assert orders[i] in orders;
    }
  }

  lemma {:induction false} PurgedIsGone(s: Exchange, product: string, now: string, trades: seq<Trade>, o: Order)
    requires Sound(s) && IsPass(ListOf(s.book, product), trades) && o in ListOf(s.book, product) && o.amount <= 0.0
    ensures !Live(AfterSettled(s, product, now, trades).book, o.terms)
  {
    ListIsApart(s.book, product);
    MatchIsWithin(s, product, trades);
    ExhaustedIsDropped(ListOf(s.book, product), trades, o);
    AfterPassKeeps(s.book, product, trades, SalesOf(trades, product, now, s.nextId));
  }

  lemma {:induction false} PurgeLeaks(s: Exchange, step: Step, o: Order)
    requires Sound(s) && Covered(s) && step.Match? && Enabled(s, step) && Settles(s, step)
    requires o in ListOf(s.book, step.product) && NegativePair(o) && o.terms.username != DEFAULT_USER
    ensures |ExtractTokens(o.terms.product, '/')| == 2
    ensures var u, c := o.terms.username, QuoteOf(o.terms);
      Slack(Next(s, step), u, c) >= Slack(s, u, c) + o.amount * o.terms.price
  {
    ListIsApart(s.book, step.product);
    assert Listed(s, o);
    var c := QuoteOf(o.terms);
    PairHolds(o);
    StepLeaks(s, step);
    StuckIsMeasured(s, step.product, o, c);
  }

  /** A pass that goes through purges a negative pair, and what it had locked, amount times price, is
      slack from then on: it stays locked in every later run. */
  lemma {:induction false} NegativePairIsStranded(s: Exchange, step: Step, o: Order, later: seq<Step>, r: Exchange)
    requires Orderly(s) && Covered(s) && step.Match? && Enabled(s, step) && Settles(s, step)
    requires o in ListOf(s.book, step.product) && NegativePair(o) && o.terms.username != DEFAULT_USER
    requires Run(Next(s, step), later, r)
    ensures |ExtractTokens(o.terms.product, '/')| == 2 && !Live(Next(s, step).book, o.terms)
    ensures var u, c := o.terms.username, QuoteOf(o.terms);
      && Slack(Next(s, step), u, c) >= Slack(s, u, c) + o.amount * o.terms.price
      && LockedOf(r.ledger, u, c) >= o.amount * o.terms.price
  {
    PurgeLeaks(s, step, o);
    PurgedIsGone(s, step.product, step.now, Merge(step.asks, step.bids), o);
    StepLeaks(s, step);
    StepIsOrderly(s, step);
    SlackIsStranded(Next(s, step), later, r);
    assert Slack(s, o.terms.username, QuoteOf(o.terms)) >= 0.0;
  }

  lemma {:induction false} StuckIsMeasured(s: Exchange, product: string, o: Order, currency: string)
    requires Sound(s) && o in ListOf(s.book, product) && o.terms.username != DEFAULT_USER
    ensures StuckIn(o, currency) <= Measure(Stuck(o.terms.username, currency), ListOf(s.book, product))
  {
    var m := Stuck(o.terms.username, currency);
    forall q | q in ListOf(s.book, product) ensures Weight(m, q) >= 0.0 {
      PairWeight(q, m.user, m.currency);
    }
    OneOfMeasure(m, ListOf(s.book, product), o);
  }
}
