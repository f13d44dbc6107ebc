/** What the wallets see of an order's life: the locking, the payments, the release. */
module Payments {
  import opened Orders
  import opened Tokenizer
  import opened Trades
  import opened Meters
  import opened Matching
  import opened Purses
  import opened Settlement
  import opened Books
  import opened Exchanges
  import opened Reachable
  import opened Failures
  import opened Accounts

  // ---- what fills charge and pay a user, in one currency ----

  function PaidBy(trades: seq<Trade>, user: string, currency: string): real {
    if trades == [] then 0.0
    else (if Pays(trades[0], user, currency) then Cost(trades[0]) else 0.0) + PaidBy(trades[1..], user, currency)
  }

  function RefundedTo(trades: seq<Trade>, user: string, currency: string): real {
    if trades == [] then 0.0
    else (if Pays(trades[0], user, currency) then Refund(trades[0]) else 0.0) + RefundedTo(trades[1..], user, currency)
  }

  function BoughtBy(trades: seq<Trade>, user: string, currency: string): real {
    if trades == [] then 0.0
    else (if Buys(trades[0], user, currency) then trades[0].qty else 0.0) + BoughtBy(trades[1..], user, currency)
  }

  function SoldBy(trades: seq<Trade>, user: string, currency: string): real {
    if trades == [] then 0.0
    else (if Sells(trades[0], user, currency) then trades[0].qty else 0.0) + SoldBy(trades[1..], user, currency)
  }

  function EarnedBy(trades: seq<Trade>, user: string, currency: string): real {
    if trades == [] then 0.0
    else (if Earns(trades[0], user, currency) then Cost(trades[0]) else 0.0) + EarnedBy(trades[1..], user, currency)
  }

  lemma {:induction false} SumsAgree(trades: seq<Trade>, user: string, currency: string)
    requires forall t | t in trades :: SaneTrade(t) && |ExtractTokens(t.ask.product, '/')| == 2
    ensures Traded(Reserve(user, currency), trades)
         == PaidBy(trades, user, currency) + RefundedTo(trades, user, currency) + SoldBy(trades, user, currency)
    ensures ReceivedBy(trades, user, currency)
         == RefundedTo(trades, user, currency) + BoughtBy(trades, user, currency) + EarnedBy(trades, user, currency)
  {
    if trades != [] {
      assert trades[0] in trades;
      OwedIs(trades[0], user, currency);
      SumsAgree(trades[1..], user, currency);
    }
  }

  // ---- the three steps that move an order's funds ----

  /** Between two ledgers, an amount moved from a user's free to the user's locked funds, and nothing else. */
  ghost predicate Locks(l: Ledger, l': Ledger, user: string, currency: string, amount: real) {
    forall u, c :: var moved := if u == user && c == currency then amount else 0.0;
      LockedOf(l', u, c) == LockedOf(l, u, c) + moved && FreeOf(l', u, c) == FreeOf(l, u, c) - moved
  }

  /** A quantity at the price of an order. */
  function AtPrice(x: Terms, q: real): real { q * x.price }

  lemma {:induction false} BidHolds(o: Order)
    requires ClientOrder(o) && o.terms.orderType == Bid
    ensures forall c :: LockedFor(o, c) == if c == QuoteOf(o.terms) then AtPrice(o.terms, o.amount) else 0.0
  {
  }

  lemma {:induction false} FulfilLocks(l: Ledger, user: string, o: Order)
    requires user in l && Fulfill(l[user], o).outcome == Returned(true) && o.terms.orderType == Bid
    ensures ClientOrder(o)
    ensures Locks(l, l[user := Fulfill(l[user], o).purse], user, QuoteOf(o.terms), AtPrice(o.terms, o.amount))
  {
    FulfillReserves(l[user], o);
    BidHolds(o);
  }

  lemma {:induction false} CancelUnlocks(l: Ledger, user: string, o: Order)
    requires user in l && ClientOrder(o) && o.terms.orderType == Bid
    requires forall c :: Locked(l[user], c) >= LockedFor(o, c)
    ensures Locks(l[user := Cancel(l[user], o).purse], l, user, QuoteOf(o.terms), AtPrice(o.terms, o.amount))
  {
    CancelReleases(l[user], o);
    BidHolds(o);
  }

  /** The step that accepts a bid moves what it was placed with, times its price, from free to locked
      funds of its quote currency, and touches no other balance. */
  lemma {:induction false} AcceptingLocks(s: Exchange, step: Step, x: Terms)
    requires Enabled(s, step) && x !in s.placed && x in Next(s, step).placed && x.orderType == Bid
    ensures |ExtractTokens(x.product, '/')| == 2
    ensures Locks(s.ledger, Next(s, step).ledger, x.username, QuoteOf(x), AtPrice(x, Next(s, step).placed[x]))
  {
    assert step.order == Order(x, Next(s, step).placed[x]);
    FulfilLocks(s.ledger, x.username, step.order);
  }

  /** The order that a CANCEL closes is the client's own, and was in the book with what is left of it. */
  lemma {:induction false} CancelCloses(s: Exchange, user: string, id: nat, x: Terms) returns (product: string, k: nat)
    requires Sound(s) && Client(s, user)
    requires x !in s.closed && x in AfterCancel(s, user, id).closed
    ensures OwnedAt(s.book, product, k, user, id)
    ensures AfterCancel(s, user, id) == CancelAt(s, user, product, k)
    ensures ListOf(s.book, product)[k] == Order(x, AfterCancel(s, user, id).closed[x])
  {
    var found;
    found, product, k := CancelFinds(s, user, id);
  }

  lemma {:induction false} CancelAtUnlocks(s: Exchange, user: string, product: string, k: nat, id: nat, o: Order)
    requires Sound(s) && Covered(s) && Client(s, user) && OwnedAt(s.book, product, k, user, id)
    requires o == ListOf(s.book, product)[k] && o.terms.orderType == Bid
    ensures ClientOrder(o)
    ensures Locks(CancelAt(s, user, product, k).ledger, s.ledger, user, QuoteOf(o.terms), AtPrice(o.terms, o.amount))
  {
    OrderIsCovered(s, product, k, "");
    forall c ensures Locked(s.ledger[user], c) >= LockedFor(o, c) {
      OrderIsCovered(s, product, k, c);
    }
    CancelUnlocks(s.ledger, user, o);
  }

  lemma {:induction false} ClosingUnlocks(s: Exchange, user: string, id: nat, x: Terms)
    requires Sound(s) && Covered(s) && Client(s, user)
    requires x !in s.closed && x in AfterCancel(s, user, id).closed && x.orderType == Bid
    ensures x.username == user && x.id == id && |ExtractTokens(x.product, '/')| == 2
    ensures Locks(AfterCancel(s, user, id).ledger, s.ledger, user, QuoteOf(x), AtPrice(x, AfterCancel(s, user, id).closed[x]))
  {
    var product, k := CancelCloses(s, user, id, x);
    var s' := CancelAt(s, user, product, k);
    CancelAtUnlocks(s, user, product, k, id, Order(x, s'.closed[x]));
    assert Locks(s'.ledger, s.ledger, user, QuoteOf(x), AtPrice(x, s'.closed[x]));
  }

  /** In every reachable state the CANCEL that closes a bid moves what was left of it, times
      its price, back from locked to free funds of its quote currency, and touches no other balance. */
  lemma {:induction false} CancellingUnlocks(s0: Exchange, steps: seq<Step>, s: Exchange, user: string, id: nat, x: Terms)
    requires Initial(s0) && Run(s0, steps, s) && Client(s, user)
    requires x !in s.closed && x in AfterCancel(s, user, id).closed && x.orderType == Bid
    ensures x.username == user && x.id == id && |ExtractTokens(x.product, '/')| == 2
    ensures Locks(AfterCancel(s, user, id).ledger, s.ledger, user, QuoteOf(x), AtPrice(x, AfterCancel(s, user, id).closed[x]))
  {
    InitialIsOrderly(s0);
    InitialSlack(s0);
    SlackNeverChanges(s0, steps, s);
    ClosingUnlocks(s, user, id, x);
  }

  /** A pass that goes through takes from a client's locked funds what the client's fills cost, what they
      refund, and what the client sold; it adds to the free funds the refunds, what was bought, and what
      was earned. */
  lemma {:induction false} PassPays(s: Exchange, step: Step, user: string, currency: string)
    requires Sound(s) && Covered(s) && step.Match? && Enabled(s, step) && Settles(s, step) && user != DEFAULT_USER
    ensures s.tape <= Next(s, step).tape
    ensures var s' := Next(s, step);
      var fills := s'.tape[|s.tape|..];
      && LockedOf(s'.ledger, user, currency) == LockedOf(s.ledger, user, currency)
           - PaidBy(fills, user, currency) - RefundedTo(fills, user, currency) - SoldBy(fills, user, currency)
      && FreeOf(s'.ledger, user, currency) == FreeOf(s.ledger, user, currency)
           + RefundedTo(fills, user, currency) + BoughtBy(fills, user, currency) + EarnedBy(fills, user, currency)
  {
    var trades := Merge(step.asks, step.bids);
    ListIsApart(s.book, step.product);
    NoPassThrows(s, step.product, trades);
    SettledTradesAreSane(s.ledger, ListOf(s.book, step.product), step.product, trades);
    SumsAgree(trades, user, currency);
    assert Next(s, step).tape[|s.tape|..] == trades;
  }

  /** A pass that throws made one fill. It takes from a client's locked funds the goods sold and the negative
      price, which adds to them, and hands out the goods; nothing is refunded and nothing earned. */
  lemma {:induction false} ThrownPassPays(s: Exchange, step: Step, user: string, currency: string)
    requires Sound(s) && Covered(s) && step.Match? && Enabled(s, step) && !Settles(s, step) && user != DEFAULT_USER
    ensures s.tape <= Next(s, step).tape
    ensures var s' := Next(s, step);
      var fills := s'.tape[|s.tape|..];
      && |fills| == 1
      && LockedOf(s'.ledger, user, currency)
           == LockedOf(s.ledger, user, currency) - PaidBy(fills, user, currency) - SoldBy(fills, user, currency)
      && FreeOf(s'.ledger, user, currency) == FreeOf(s.ledger, user, currency) + BoughtBy(fills, user, currency)
  {
    var trades := Merge(step.asks, step.bids);
    CoveredThrowHalfSettles(s, step.product, trades);
    FirstFillPays(s.ledger, trades[0], user, currency);
    assert Next(s, step).tape[|s.tape|..] == [trades[0]];
  }

  lemma {:induction false} FirstFillPays(l: Ledger, t: Trade, user: string, currency: string)
    requires t.ask.product == t.bid.product && user != DEFAULT_USER
    requires (var tokens := ExtractTokens(t.ask.product, '/');
      |tokens| == 2 ==> NegativeTrade(t) && HalfSettled(l, Settle(l, t).ledger, t, tokens[0], tokens[1]))
    ensures var l' := Settle(l, t).ledger;
      && LockedOf(l', user, currency)
           == LockedOf(l, user, currency) - PaidBy([t], user, currency) - SoldBy([t], user, currency)
      && FreeOf(l', user, currency) == FreeOf(l, user, currency) + BoughtBy([t], user, currency)
  {
    assert [t][1..] == [];
    if |ExtractTokens(t.ask.product, '/')| != 2 {
      BadProductOpens(l, t);
    }
  }
}
