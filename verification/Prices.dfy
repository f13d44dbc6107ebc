/** What keeps passes from throwing, and slack from growing, over whole runs. */
module Prices {
  import opened Orders
  import opened Tokenizer
  import opened Trades
  import opened Meters
  import opened Matching
  import opened Purses
  import opened Settlement
  import opened Books
  import opened Exchanges
  import opened Reachable
  import opened Accounts

  /** No ask below zero, and every product names two currencies: placed orders are checked for the
      second, orders of the CSV file for neither. */
  predicate FairOrder(o: Order) {
    (o.terms.orderType == Ask ==> o.terms.price >= 0.0) && |ExtractTokens(o.terms.product, '/')| == 2
  }

  /** No negative pair of a client. */
  predicate NoClientPair(o: Order) { o.terms.username != DEFAULT_USER ==> !NegativePair(o) }

  /** A condition on every order that is in the book or on its way. */
  ghost predicate OnAll(s: Exchange, fair: Order -> bool) {
    (forall o | Listed(s, o) :: fair(o)) && forall o | o in s.accepted :: fair(o)
  }

  /** The step places no ask at a negative price. */
  predicate FairStep(step: Step) {
    step.Place? && step.order.terms.orderType == Ask ==> step.order.terms.price >= 0.0
  }

  /** The step places no negative pair. */
  predicate PairFree(step: Step) { step.Place? ==> !NegativePair(step.order) }

  lemma {:induction false} WellPricedSettles(s: Exchange, step: Step)
    requires Sound(s) && Covered(s) && OnAll(s, FairOrder) && Enabled(s, step)
    ensures Settles(s, step)
  {
    if step.Match? {
      var orders, trades := ListOf(s.book, step.product), Merge(step.asks, step.bids);
      NoPassThrows(s, step.product, trades);
      ListIsApart(s.book, step.product);
      forall o | o in orders ensures FairOrder(o) {
        assert Listed(s, o);
      }
    }
  }

  // ---- what holds of every order stays so ----

  /** Filling an order within its open amount keeps the condition. */
  ghost predicate Lasting(fair: Order -> bool) {
    forall o: Order, a: real {:trigger fair(o), fair(Order(o.terms, a))} | fair(o) && a >= 0.0 :: fair(Order(o.terms, a))
  }

  lemma {:induction false} FilledKeeps(s: Exchange, s': Exchange, product: string, booked: seq<Trade>, fair: Order -> bool)
    requires Sound(s) && OnAll(s, fair) && Lasting(fair) && Within(ListOf(s.book, product), booked)
    requires forall p | p != product :: ListOf(s'.book, p) == ListOf(s.book, p)
    requires forall x | x in ListOf(s'.book, product) :: x in Apply(ListOf(s.book, product), booked)
    requires s'.accepted == s.accepted
    ensures OnAll(s', fair)
  {
    forall q | Listed(s', q) ensures fair(q) {
      var o := ListedAfterFills(s.book, s'.book, product, booked, q);
      assert Listed(s, o) && fair(o);
      if q.terms.product == product {
        KeepsOne(fair, o, q);
      }
    }
  }

  lemma {:induction false} KeepsOne(fair: Order -> bool, o: Order, q: Order)
    requires Lasting(fair) && fair(o) && q.terms == o.terms && (o.amount >= 0.0 ==> q.amount >= 0.0)
    requires o.amount < 0.0 ==> q == o
    ensures fair(q)
  {
    assert q == Order(o.terms, q.amount);
  }

  lemma {:induction false} MatchKeeps(s: Exchange, product: string, now: string, trades: seq<Trade>, fair: Order -> bool)
    requires Sound(s) && OnAll(s, fair) && Lasting(fair) && IsPass(ListOf(s.book, product), trades)
    ensures OnAll(AfterMatch(s, product, now, trades), fair)
  {
    MatchIsWithin(s, product, trades);
    AfterMatchLists(s, product, now, trades);
    FilledKeeps(s, AfterMatch(s, product, now, trades), product, Reached(s.ledger, trades), fair);
  }

  lemma {:induction false} StepKeeps(s: Exchange, step: Step, fair: Order -> bool)
    requires Sound(s) && OnAll(s, fair) && Lasting(fair) && Enabled(s, step)
    requires step.Place? && Fulfill(s.ledger[step.order.terms.username], step.order).outcome == Returned(true) ==>
      fair(step.order)
    ensures OnAll(Next(s, step), fair)
  {
    var s' := Next(s, step);
    match step
    case Insert(k) =>
      var o := s.accepted[k];
      InsertMembers(ListOf(s.book, o.terms.product), o);
      forall q | Listed(s', q) ensures fair(q) {
        assert q == o || Listed(s, q);
      }
    case Match(product, now, asks, bids) =>
      MatchKeeps(s, product, now, Merge(asks, bids), fair);
    case CancelById(user, id) =>
      var found, product, k := CancelFinds(s, user, id);
      if found {
        forall q | Listed(s', q) ensures fair(q) {
          DropLeavesFewer(s.book, product, k, q.terms.product);
          assert Listed(s, q);
        }
      }
    case _ =>
      forall q | Listed(s', q) ensures fair(q) {
        assert Listed(s, q);
      }
  }

  lemma {:induction false} ConditionsLast()
    ensures Lasting(FairOrder) && Lasting(NoClientPair)
  {
  }

  // ---- whole runs ----

  /** When no ask that the CSV file holds or a client places has a negative price, and the CSV products
      name two currencies, no pass of the run throws. */
  lemma {:induction false} FairRunsAreCalm(s: Exchange, steps: seq<Step>, s': Exchange)
    requires Orderly(s) && Covered(s) && OnAll(s, FairOrder) && Run(s, steps, s')
    requires forall step | step in steps :: FairStep(step)
    ensures Calm(s, steps) && OnAll(s', FairOrder)
    decreases |steps|
  {
    if steps != [] {
      assert steps[0] in steps;
      ConditionsLast();
      WellPricedSettles(s, steps[0]);
      StepIsOrderly(s, steps[0]);
      StepLeaks(s, steps[0]);
      AcceptedIsFair(s, steps[0]);
      StepKeeps(s, steps[0], FairOrder);
      FairRunsAreCalm(Next(s, steps[0]), steps[1..], s');
    }
  }

  lemma {:induction false} AcceptedIsFair(s: Exchange, step: Step)
    requires Enabled(s, step) && FairStep(step)
    ensures step.Place? && Fulfill(s.ledger[step.order.terms.username], step.order).outcome == Returned(true) ==>
      FairOrder(step.order)
  {
    if step.Place? {
      AcceptedExactlyWhen(s.ledger[step.order.terms.username], step.order);
    }
  }

  /** When clients place no negative pair, no pass purges one. */
  lemma {:induction false} PairFreeRunsPurgeNone(s: Exchange, steps: seq<Step>, s': Exchange, user: string, currency: string)
    requires Orderly(s) && OnAll(s, NoClientPair) && Run(s, steps, s') && user != DEFAULT_USER
    requires forall step | step in steps :: PairFree(step)
    ensures Calm(s, steps) ==> !DriftsOver(s, steps, user, currency)
    ensures OnAll(s', NoClientPair)
    decreases |steps|
  {
    if steps != [] {
      assert steps[0] in steps;
      ConditionsLast();
      StepIsOrderly(s, steps[0]);
      StepKeeps(s, steps[0], NoClientPair);
      if steps[0].Match? {
        NoPairListed(s, steps[0].product, user, currency);
      }
      PairFreeRunsPurgeNone(Next(s, steps[0]), steps[1..], s', user, currency);
    }
  }

  lemma {:induction false} NoPairListed(s: Exchange, product: string, user: string, currency: string)
    requires Sound(s) && OnAll(s, NoClientPair) && user != DEFAULT_USER
    ensures !PairIn(ListOf(s.book, product), user, currency)
  {
    ListIsApart(s.book, product);
    forall o | o in ListOf(s.book, product) ensures !PairOf(o, user, currency) {
      assert Listed(s, o);
    }
  }

  lemma {:induction false} NothingStuck(s: Exchange, user: string, currency: string)
    requires Sound(s) && OnAll(s, NoClientPair) && user != DEFAULT_USER
    ensures StuckFunds(s, user, currency) == 0.0
  {
    var m := Stuck(user, currency);
    forall p | p in s.book.orders ensures Measure(m, s.book.orders[p]) == 0.0 {
      NoPairListed(s, p, user, currency);
      LeaksExactlyWhen(s.book.orders[p], user, currency);
    }
    TotalOfZeros(MeasuredLists(s.book, m));
    assert !PairIn(s.accepted, user, currency);
    LeaksExactlyWhen(s.accepted, user, currency);
  }

  /** So from a fair start, with fair prices and no negative pairs, locked funds are at every moment what
      they were at the start plus exactly what the client's live and accepted orders still need. */
  lemma {:induction false} FairRunsAccount(s: Exchange, steps: seq<Step>, s': Exchange, user: string, currency: string)
    requires Initial(s) && OnAll(s, FairOrder) && Run(s, steps, s') && user != DEFAULT_USER
    requires forall step | step in steps :: FairStep(step) && PairFree(step)
    ensures Calm(s, steps)
    ensures LockedOf(s'.ledger, user, currency)
         == LockedOf(s.ledger, user, currency) + Reserves(s', user, currency)
  {
    InitialIsOrderly(s);
    InitialSlack(s);
    FairRunsAreCalm(s, steps, s');
    forall o | Listed(s, o) ensures NoClientPair(o) {
      assert o in s.book.orders[o.terms.product];
    }
    PairFreeRunsPurgeNone(s, steps, s', user, currency);
    LockedEqualsReserves(s, steps, s', user, currency);
    OrderlyAlways(s, steps, s');
    NothingStuck(s', user, currency);
  }
}
