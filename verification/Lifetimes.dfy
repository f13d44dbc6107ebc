/** What becomes of the funds one order locked, from placement to the end. */
module Lifetimes {
  import opened Orders
  import opened Trades
  import opened Matching
  import opened Settlement
  import opened Books
  import opened Exchanges
  import opened Reachable
  import opened Accounts

  /** What a bid paid for its fills ... */
  function PaidFor(trades: seq<Trade>, x: Terms): real {
    if trades == [] then 0.0
    else (if trades[0].bid == x then Cost(trades[0]) else 0.0) + PaidFor(trades[1..], x)
  }

  /** ... and what it got back because it had bid above the asks. */
  function RefundedFor(trades: seq<Trade>, x: Terms): real {
    if trades == [] then 0.0
    else (if trades[0].bid == x then Refund(trades[0]) else 0.0) + RefundedFor(trades[1..], x)
  }

  lemma {:induction false} PaidAndRefunded(trades: seq<Trade>, x: Terms)
    requires x.orderType == Bid && forall t | t in trades :: t.ask.orderType == Ask
    ensures PaidFor(trades, x) + RefundedFor(trades, x) == x.price * Filled(trades, x)
  {
    if trades != [] {
      var t := trades[0];
      PaidAndRefunded(trades[1..], x);
      var q, rest := if t.bid == x then t.qty else 0.0, Filled(trades[1..], x);
      assert x.price * (q + rest) == x.price * q + x.price * rest;
      if t.bid == x {
        assert Cost(t) + Refund(t) == x.price * q;
      }
    }
  }

  /** The quantity of an accepted client order, wherever it is now: what it was placed with is what
      was filled plus what is left. */
  ghost predicate Traced(s: Exchange, x: Terms, left: real) {
    && x in s.placed && s.placed[x] == Filled(s.tape, x) + left
    && x.id < s.nextId && x.username != DEFAULT_USER
  }

  /** An order that has not left yet. */
  ghost predicate Whole(s: Exchange, o: Order) {
    Traced(s, o.terms, o.amount) && o.terms !in s.closed
  }

  ghost predicate TapeOk(s: Exchange) {
    forall t | t in s.tape :: t.ask.orderType == Ask && t.ask.id < s.nextId && t.bid.id < s.nextId
  }

  ghost predicate Tracing(s: Exchange) {
    && (forall o | Listed(s, o) && o.terms.username != DEFAULT_USER :: Whole(s, o))
    && (forall o | o in s.accepted :: Whole(s, o))
    && (forall x | x in s.closed :: Traced(s, x, s.closed[x]))
    && TapeOk(s)
  }

  /** A step that touches no order and no history. */
  lemma {:induction false} QuietIsTracing(s: Exchange, s': Exchange)
    requires Tracing(s)
    requires s'.book == s.book && s'.accepted == s.accepted && s'.tape == s.tape
    requires s'.placed == s.placed && s'.closed == s.closed && s'.nextId >= s.nextId
    ensures Tracing(s')
  {
    forall o | Listed(s', o) && o.terms.username != DEFAULT_USER ensures Whole(s', o) {
      assert Listed(s, o) && Whole(s, o);
    }
    forall o | o in s'.accepted ensures Whole(s', o) {
      assert Whole(s, o);
    }
    forall x | x in s'.closed ensures Traced(s', x, s'.closed[x]) {
      assert Traced(s, x, s.closed[x]);
    }
  }

  lemma {:induction false} PlaceIsTracing(s: Exchange, o: Order)
    requires Tracing(s) && Enabled(s, Place(o))
    ensures Tracing(AfterPlace(s, o))
  {
    var s' := AfterPlace(s, o);
    if s'.accepted == s.accepted + [o] && s'.placed == s.placed[o.terms := o.amount] {
      UntouchedNotFilled(s.tape, o.terms);
      forall x | x in s.closed ensures x.id < s.nextId {
        assert Traced(s, x, s.closed[x]);
      }
      forall q | Listed(s', q) && q.terms.username != DEFAULT_USER ensures Whole(s', q) {
        assert Listed(s, q) && Whole(s, q);
      }
      forall q | q in s'.accepted ensures Whole(s', q) {
        if q in s.accepted {
          assert Whole(s, q);
        }
      }
      forall x | x in s'.closed ensures Traced(s', x, s'.closed[x]) {
        assert Traced(s, x, s.closed[x]);
      }
    } else {
      QuietIsTracing(s, s');
    }
  }

  lemma {:induction false} InsertIsTracing(s: Exchange, k: nat)
    requires Tracing(s) && k < |s.accepted|
    ensures Tracing(AfterInsert(s, k))
  {
    var s', o := AfterInsert(s, k), s.accepted[k];
    assert o in s.accepted && Whole(s, o);
    InsertMembers(ListOf(s.book, o.terms.product), o);
    forall q | Listed(s', q) && q.terms.username != DEFAULT_USER ensures Whole(s', q) {
      assert q == o || (Listed(s, q) && Whole(s, q));
    }
    forall q | q in s'.accepted ensures Whole(s', q) {
      assert q in s.accepted && Whole(s, q);
    }
    forall x | x in s'.closed ensures Traced(s', x, s'.closed[x]) {
      assert Traced(s, x, s.closed[x]);
    }
  }

  lemma {:induction false} AcceptedIsNotLive(s: Exchange, q: Order, o: Order)
    requires Sound(s) && q in s.accepted && Live(s.book, o.terms)
    ensures q.terms != o.terms
  {
    assert AcceptedOk(s, q);
  }

  /** Closing one order that has not left yet, out of the book. */
  lemma {:induction false} CancelIsTracing(s: Exchange, user: string, product: string, k: nat, id: nat)
    requires Sound(s) && Tracing(s) && Client(s, user) && OwnedAt(s.book, product, k, user, id)
    ensures Tracing(CancelAt(s, user, product, k))
  {
    var s', orders := CancelAt(s, user, product, k), ListOf(s.book, product);
    var o := orders[k];
    assert o in orders && ListOk(orders, product) && Listed(s, o) && Whole(s, o);
    ListedIsLive(s.book, o);
    DropLoses(s.book, product, k);
    forall q | Listed(s', q) && q.terms.username != DEFAULT_USER ensures Whole(s', q) {
      ListedIsLive(s'.book, q);
      DropLeavesFewer(s.book, product, k, q.terms.product);
      assert Listed(s, q);
      assert Whole(s, q);
    }
    forall q | q in s'.accepted ensures Whole(s', q) {
      assert Whole(s, q);
      AcceptedIsNotLive(s, q, o);
    }
    forall x | x in s'.closed ensures Traced(s', x, s'.closed[x]) {
      if x != o.terms {
        assert Traced(s, x, s.closed[x]);
      }
    }
  }

  // ---- a match pass ----

  lemma {:induction false} FilledAfter(s: Exchange, trades: seq<Trade>, x: Terms)
    ensures Filled(s.tape + trades, x) == Filled(s.tape, x) + Filled(trades, x)
  {
    FilledJoins(s.tape, trades, x);
  }

  ghost predicate AllBetween(trades: seq<Trade>, orders: seq<Order>) { forall t | t in trades :: Between(t, orders) }

  /** Orders outside the product's list are not filled by a pass over it. */
  lemma {:induction false} OutsideNotFilled(s: Exchange, orders: seq<Order>, trades: seq<Trade>, x: Terms)
    requires AllBetween(trades, orders) && !Holds(orders, x)
    ensures Filled(s.tape + trades, x) == Filled(s.tape, x)
  {
    FilledAfter(s, trades, x);
    forall t | t in trades ensures t.ask != x && t.bid != x {
      assert Between(t, orders);
    }
    UntouchedNotFilled(trades, x);
  }

  /** What a pass leaves of a product's orders, and what becomes of the history: fills are put on the
      tape, and orders that leave the list are closed with what is left of them. */
  ghost predicate FilledInto(s: Exchange, s': Exchange, product: string, booked: seq<Trade>) {
    var orders := ListOf(s.book, product);
    && AllBetween(booked, orders)
    && (forall p | p != product :: ListOf(s'.book, p) == ListOf(s.book, p))
    && (forall q | q in ListOf(s'.book, product) :: q in Apply(orders, booked))
    && s'.tape == s.tape + booked && s'.placed == s.placed && s'.accepted == s.accepted && s'.nextId >= s.nextId
    && (forall x | x in s'.closed && x !in s.closed :: ClosedBy(orders, booked, x, s'.closed[x]))
    && (forall x | x in s'.closed && x in s.closed && !Holds(orders, x) :: s'.closed[x] == s.closed[x])
    && (forall q | q in ListOf(s'.book, product) && q.terms in s'.closed :: q.terms in s.closed)
  }

  ghost predicate ClosedBy(orders: seq<Order>, booked: seq<Trade>, x: Terms, left: real) {
    exists o :: o in orders && o.terms == x && x.username != DEFAULT_USER && left == Remainder(o, booked).amount
  }

  /** An order of the list after the pass: what it had is what it still has plus its fills. */
  lemma {:induction false} InsideTraced(s: Exchange, s': Exchange, product: string, booked: seq<Trade>, o: Order)
    requires Tracing(s) && FilledInto(s, s', product, booked) && Listed(s, o) && o.terms.username != DEFAULT_USER
    ensures Traced(s', o.terms, Remainder(o, booked).amount)
  {
    assert Whole(s, o);
    FilledAfter(s, booked, o.terms);
  }

  /** A client order that is not in the product's list. */
  lemma {:induction false} OutsideTraced(s: Exchange, s': Exchange, product: string, booked: seq<Trade>, q: Order)
    requires FilledInto(s, s', product, booked) && Whole(s, q) && !Holds(ListOf(s.book, product), q.terms)
    ensures Whole(s', q)
  {
    OutsideNotFilled(s, ListOf(s.book, product), booked, q.terms);
    if q.terms in s'.closed && q.terms !in s.closed {
      ClosedIsHeld(ListOf(s.book, product), booked, q.terms, s'.closed[q.terms]);
    }
  }

  lemma {:induction false} ClosedIsHeld(orders: seq<Order>, booked: seq<Trade>, x: Terms, left: real)
    requires ClosedBy(orders, booked, x, left)
    ensures Holds(orders, x)
  {
    var o :| o in orders && o.terms == x;
    var k :| 0 <= k < |orders| && orders[k] == o;
  }

  lemma {:induction false} MatchListedTraced(s: Exchange, s': Exchange, product: string, booked: seq<Trade>, q: Order)
    requires Sound(s) && Tracing(s) && FilledInto(s, s', product, booked)
    requires Listed(s', q) && q.terms.username != DEFAULT_USER
    ensures Whole(s', q)
  {
    var o := ListedAfterFills(s.book, s'.book, product, booked, q);
    assert Listed(s, o) && Whole(s, o);
    if q.terms.product == product {
      InsideTraced(s, s', product, booked, o);
    } else {
      ForeignNotHeld(s, product, q.terms);
      OutsideTraced(s, s', product, booked, q);
    }
  }

  lemma {:induction false} MatchAcceptedTraced(s: Exchange, s': Exchange, product: string, booked: seq<Trade>, q: Order)
    requires Sound(s) && Tracing(s) && FilledInto(s, s', product, booked) && q in s.accepted
    ensures Whole(s', q)
  {
    assert AcceptedOk(s, q) && Whole(s, q);
    if q.terms.product == product {
      assert !Live(s.book, q.terms);
    } else {
      ForeignNotHeld(s, product, q.terms);
    }
    OutsideTraced(s, s', product, booked, q);
  }

  lemma {:induction false} MatchTapeOk(s: Exchange, s': Exchange, product: string, booked: seq<Trade>)
    requires Sound(s) && TapeOk(s) && FilledInto(s, s', product, booked)
    ensures TapeOk(s')
  {
    var orders := ListOf(s.book, product);
    ListIsApart(s.book, product);
    forall t | t in booked ensures t.ask.orderType == Ask && t.ask.id < s.nextId && t.bid.id < s.nextId {
      assert Between(t, orders);
      var a :| 0 <= a < |orders| && orders[a].terms == t.ask;
      var b :| 0 <= b < |orders| && orders[b].terms == t.bid;
      assert orders[a] in orders && orders[b] in orders;
      assert Listed(s, orders[a]) && Listed(s, orders[b]);
    }
  }

  lemma {:induction false} MatchClosedTraced(s: Exchange, s': Exchange, product: string, booked: seq<Trade>, x: Terms)
    requires Sound(s) && Tracing(s) && FilledInto(s, s', product, booked) && x in s'.closed
    ensures Traced(s', x, s'.closed[x])
  {
    var orders := ListOf(s.book, product);
    if x in s.closed {
      assert Traced(s, x, s.closed[x]);
      ClosedNotHeld(s, product, x);
      OutsideNotFilled(s, orders, booked, x);
    } else {
      var o :| o in orders && o.terms == x && x.username != DEFAULT_USER && s'.closed[x] == Remainder(o, booked).amount;
      ListIsApart(s.book, product);
      assert Listed(s, o);
      InsideTraced(s, s', product, booked, o);
    }
  }

  lemma {:induction false} MatchIsTracing(s: Exchange, s': Exchange, product: string, booked: seq<Trade>)
    requires Sound(s) && Tracing(s) && FilledInto(s, s', product, booked)
    ensures Tracing(s')
  {
    forall o | Listed(s', o) && o.terms.username != DEFAULT_USER ensures Whole(s', o) {
      MatchListedTraced(s, s', product, booked, o);
    }
    forall o | o in s'.accepted ensures Whole(s', o) {
      MatchAcceptedTraced(s, s', product, booked, o);
    }
    forall x | x in s'.closed ensures Traced(s', x, s'.closed[x]) {
      MatchClosedTraced(s, s', product, booked, x);
    }
    MatchTapeOk(s, s', product, booked);
  }

  lemma {:induction false} ForeignNotHeld(s: Exchange, product: string, x: Terms)
    requires WellFormed(s.book) && x.product != product
    ensures !Holds(ListOf(s.book, product), x)
  {
    if product in s.book.orders {
      assert ListOk(s.book.orders[product], product);
    }
  }

  /** A client's closed order is in no list any more. */
  lemma {:induction false} ClosedNotHeld(s: Exchange, product: string, x: Terms)
    requires Sound(s) && Tracing(s) && x in s.closed && x.username != DEFAULT_USER
    ensures !Holds(ListOf(s.book, product), x)
  {
    var orders := ListOf(s.book, product);
    if Holds(orders, x) {
      var k :| 0 <= k < |orders| && orders[k].terms == x;
      assert orders[k] in orders && ListOk(orders, product) && Listed(s, orders[k]);
    }
  }

  // ---- the two outcomes of a pass ----

  lemma {:induction false} AmountFound(orders: seq<Order>, o: Order)
    requires Apart(orders) && o in orders
    ensures AmountOf(orders, o.terms) == o.amount
  {
    if o != orders[0] {
      var k :| 0 <= k < |orders| && orders[k] == o;
      assert orders[0].terms != orders[k].terms;
      assert o in orders[1..];
      AmountFound(orders[1..], o);
    }
  }

  lemma {:induction false} LeavingIsClosed(orders: seq<Order>, trades: seq<Trade>, x: Terms)
    requires Apart(orders) && x in Leaving(orders, trades)
    ensures ClosedBy(orders, trades, x, Leaving(orders, trades)[x])
    ensures exists o :: o in orders && o.terms == x && Remainder(o, trades).amount <= 0.0
  {
    var o :| o in orders && Remainder(o, trades).amount <= 0.0 && o.terms.username != DEFAULT_USER && o.terms == x;
    var after := Apply(orders, trades);
    var k :| 0 <= k < |orders| && orders[k] == o;
    assert after[k] == Remainder(o, trades);
    AmountFound(after, after[k]);
  }

  lemma {:induction false} SettledIsFilledInto(s: Exchange, product: string, now: string, trades: seq<Trade>)
    requires Sound(s) && Tracing(s) && AllBetween(trades, ListOf(s.book, product))
    ensures FilledInto(s, AfterSettled(s, product, now, trades), product, trades)
  {
    var s', orders := AfterSettled(s, product, now, trades), ListOf(s.book, product);
    ListIsApart(s.book, product);
    AfterPassKeeps(s.book, product, trades, SalesOf(trades, product, now, s.nextId));
    forall x | x in s'.closed && x !in s.closed ensures ClosedBy(orders, trades, x, s'.closed[x]) {
      LeavingIsClosed(orders, trades, x);
    }
    forall x | x in s'.closed && x in s.closed && !Holds(orders, x) ensures s'.closed[x] == s.closed[x] {
      if x in Leaving(orders, trades) {
        LeavingIsClosed(orders, trades, x);
      }
    }
    forall q | q in ListOf(s'.book, product) && q.terms in s'.closed ensures q.terms in s.closed {
      if q.terms in Leaving(orders, trades) {
        StayingDoesNotLeave(orders, trades, q);
      }
    }
  }

  lemma {:induction false} StayingDoesNotLeave(orders: seq<Order>, trades: seq<Trade>, q: Order)
    requires Apart(orders) && q in Apply(orders, trades) && q.amount > 0.0
    ensures q.terms !in Leaving(orders, trades)
  {
    var after := Apply(orders, trades);
    var k :| 0 <= k < |after| && after[k] == q;
    forall o | o in orders && o.terms == q.terms ensures Remainder(o, trades).amount > 0.0 {
      ApartMembers(orders, o, orders[k]);
    }
  }

  lemma {:induction false} ThrowIsFilledInto(s: Exchange, product: string, trades: seq<Trade>)
    requires AllBetween(Reached(s.ledger, trades), ListOf(s.book, product))
    ensures FilledInto(s, AfterThrow(s, product, trades), product, Reached(s.ledger, trades))
  {
    assert Apply([], Reached(s.ledger, trades)) == [];
  }

  lemma {:induction false} AfterMatchIsTracing(s: Exchange, product: string, now: string, trades: seq<Trade>)
    requires Sound(s) && Tracing(s) && IsPass(ListOf(s.book, product), trades)
    ensures Tracing(AfterMatch(s, product, now, trades))
  {
    PassUsersKnown(s, product, trades);
    ReachedIsPrefix(s.ledger, trades);
    var booked := Reached(s.ledger, trades);
    assert forall t | t in booked :: t in trades;
    if SettleAll(s.ledger, trades).error.None? {
      SettledIsFilledInto(s, product, now, trades);
      MatchIsTracing(s, AfterMatch(s, product, now, trades), product, trades);
    } else {
      ThrowIsFilledInto(s, product, trades);
      MatchIsTracing(s, AfterMatch(s, product, now, trades), product, booked);
    }
  }

  lemma {:induction false} StepIsTracing(s: Exchange, step: Step)
    requires Sound(s) && Tracing(s) && Enabled(s, step)
    ensures Tracing(Next(s, step))
  {
    match step
    case Place(o) =>
      PlaceIsTracing(s, o);
    case Insert(k) =>
      InsertIsTracing(s, k);
    case Match(product, now, asks, bids) =>
      AfterMatchIsTracing(s, product, now, Merge(asks, bids));
    case CancelById(user, id) =>
      var found, product, k := CancelFinds(s, user, id);
      if found {
        CancelIsTracing(s, user, product, k, id);
      }
    case _ =>
      QuietIsTracing(s, Next(s, step));
  }

  lemma {:induction false} TracingAlways(s: Exchange, steps: seq<Step>, s': Exchange)
    requires Orderly(s) && Tracing(s) && Run(s, steps, s')
    ensures Tracing(s') && Orderly(s')
    decreases |steps|
  {
    if steps != [] {
      StepIsOrderly(s, steps[0]);
      StepIsTracing(s, steps[0]);
      TracingAlways(Next(s, steps[0]), steps[1..], s');
    }
  }

  // ---- no accepted order is ever lost ----

  /** On its way in, in the book, or closed. */
  ghost predicate Somewhere(s: Exchange, x: Terms) {
    Holds(s.accepted, x) || Live(s.book, x) || x in s.closed
  }

  ghost predicate NoneLost(s: Exchange) { forall x | x in s.placed :: Somewhere(s, x) }

  lemma {:induction false} PlaceLosesNone(s: Exchange, o: Order)
    requires NoneLost(s) && Enabled(s, Place(o))
    ensures NoneLost(AfterPlace(s, o))
  {
    var s' := AfterPlace(s, o);
    forall x | x in s'.placed ensures Somewhere(s', x) {
      HoldsJoins(s.accepted, [o], x);
      assert Holds([o], o.terms) by { HoldsHead([o], o.terms); }
      assert x in s.placed ==> Somewhere(s, x);
    }
  }

  lemma {:induction false} InsertLosesNone(s: Exchange, k: nat)
    requires Orderly(s) && NoneLost(s) && k < |s.accepted|
    ensures NoneLost(AfterInsert(s, k))
  {
    var s' := AfterInsert(s, k);
    InsertIsSound(s, k);
    RemoveAtHoldsOthers(s.accepted, k);
    forall x | x in s'.placed ensures Somewhere(s', x) {
      assert Somewhere(s, x);
    }
  }

  lemma {:induction false} RemoveAtHoldsOthers(orders: seq<Order>, k: nat)
    requires k < |orders|
    ensures forall x | Holds(orders, x) && x != orders[k].terms :: Holds(RemoveAt(orders, k), x)
  {
    var r := RemoveAt(orders, k);
    forall x | Holds(orders, x) && x != orders[k].terms ensures Holds(r, x) {
      var i :| 0 <= i < |orders| && orders[i].terms == x;
      assert r[if i < k then i else i - 1] == orders[i];
    }
  }

  lemma {:induction false} CancelLosesNone(s: Exchange, user: string, product: string, k: nat, id: nat)
    requires Sound(s) && NoneLost(s) && Client(s, user) && OwnedAt(s.book, product, k, user, id)
    ensures NoneLost(CancelAt(s, user, product, k))
  {
    var s' := CancelAt(s, user, product, k);
    CancelIsSound(s, user, product, k, id);
    forall x | x in s'.placed ensures Somewhere(s', x) {
      assert Somewhere(s, x);
    }
  }

  /** A client order that a pass takes out of the book is closed by it. */
  lemma {:induction false} MatchClosesGone(s: Exchange, product: string, now: string, trades: seq<Trade>, x: Terms)
    requires Sound(s) && Live(s.book, x) && x.username != DEFAULT_USER
    ensures Somewhere(AfterSettled(s, product, now, trades), x)
  {
    var s', orders := AfterSettled(s, product, now, trades), ListOf(s.book, product);
    AfterPassKeeps(s.book, product, trades, SalesOf(trades, product, now, s.nextId));
    var o := LiveIsListed(s.book, x);
    if x.product == product {
      var k :| 0 <= k < |orders| && orders[k] == o;
      var r := Remainder(o, trades);
      assert r in Apply(orders, trades);
      if r.amount > 0.0 {
        assert r in Purge(Apply(orders, trades));
        ListedIsLive(s'.book, r);
      } else {
        assert x in Exhausted(orders, trades);
      }
    } else {
      ListedIsLive(s'.book, o);
    }
  }

  lemma {:induction false} MatchLosesNone(s: Exchange, product: string, now: string, trades: seq<Trade>)
    requires Sound(s) && NoneLost(s) && forall x | x in s.placed :: x.username != DEFAULT_USER
    ensures NoneLost(AfterMatch(s, product, now, trades))
  {
    var s' := AfterMatch(s, product, now, trades);
    forall x | x in s'.placed ensures Somewhere(s', x) {
      assert Somewhere(s, x);
      if SettleAll(s.ledger, trades).error.Some? {
        BookedLives(s.book, product, Reached(s.ledger, trades), [], x);
      } else if Live(s.book, x) {
        MatchClosesGone(s, product, now, trades, x);
      }
    }
  }

  ghost predicate Kept(s: Exchange) {
    NoneLost(s) && forall x | x in s.placed :: x.username != DEFAULT_USER
  }

  lemma {:induction false} StepIsKept(s: Exchange, step: Step)
    requires Orderly(s) && Kept(s) && Enabled(s, step)
    ensures Kept(Next(s, step))
  {
    match step
    case Place(o) =>
      PlaceLosesNone(s, o);
    case Insert(k) =>
      InsertLosesNone(s, k);
    case Match(product, now, asks, bids) =>
      MatchLosesNone(s, product, now, Merge(asks, bids));
    case CancelById(user, id) =>
      var found, product, k := CancelFinds(s, user, id);
      if found {
        CancelLosesNone(s, user, product, k, id);
      }
    case _ =>
      assert forall x | x in s.placed :: Somewhere(s, x);
  }

  lemma {:induction false} KeptAlways(s: Exchange, steps: seq<Step>, s': Exchange)
    requires Orderly(s) && Kept(s) && Run(s, steps, s')
    ensures Kept(s')
    decreases |steps|
  {
    if steps != [] {
      StepIsOrderly(s, steps[0]);
      StepIsKept(s, steps[0]);
      KeptAlways(Next(s, steps[0]), steps[1..], s');
    }
  }

  // ---- the lifetime of a bid ----

  /** The order is on its way in, in the book or closed, with this much left. */
  ghost predicate LeftWith(s: Exchange, x: Terms, left: real) {
    || Order(x, left) in s.accepted
    || Listed(s, Order(x, left))
    || (x in s.closed && s.closed[x] == left)
  }

  lemma {:induction false} LeftIsTraced(s: Exchange, x: Terms, left: real)
    requires Tracing(s) && x.username != DEFAULT_USER && LeftWith(s, x, left)
    ensures Traced(s, x, left)
  {
    if Order(x, left) in s.accepted {
      assert Whole(s, Order(x, left));
    } else if Listed(s, Order(x, left)) {
      assert Whole(s, Order(x, left));
    }
  }

  lemma {:induction false} SomewhereLeft(s: Exchange, x: Terms) returns (left: real)
    requires Somewhere(s, x)
    ensures LeftWith(s, x, left)
  {
    if Holds(s.accepted, x) {
      var k :| 0 <= k < |s.accepted| && s.accepted[k].terms == x;
      left := s.accepted[k].amount;
      assert s.accepted[k] == Order(x, left);
    } else if Live(s.book, x) {
      var o := LiveIsListed(s.book, x);
      left := o.amount;
      assert o == Order(x, left);
    } else {
      left := s.closed[x];
    }
  }

  lemma {:induction false} TracedBalances(s: Exchange, x: Terms, left: real)
    requires Traced(s, x, left) && TapeOk(s) && x.orderType == Bid
    ensures s.placed[x] * x.price == PaidFor(s.tape, x) + RefundedFor(s.tape, x) + left * x.price
  {
    PaidAndRefunded(s.tape, x);
    var f := Filled(s.tape, x);
    assert (f + left) * x.price == x.price * f + left * x.price;
  }

  /** Lifetime accounting: every bid ever accepted is still somewhere, and what was locked for it
      at placement - its amount times its price - is what its fills paid, plus what they refunded,
      plus the worth of what is left of it: still reserved while it lives, released when it was
      cancelled, nothing when it was filled. The module Payments says of each of the three steps that
      these are the amounts the wallets move. */
  lemma {:induction false} BidLifetime(s: Exchange, steps: seq<Step>, s': Exchange, x: Terms) returns (left: real)
    requires Initial(s) && Run(s, steps, s')
    requires x in s'.placed && x.orderType == Bid
    ensures LeftWith(s', x, left)
    ensures s'.placed[x] * x.price == PaidFor(s'.tape, x) + RefundedFor(s'.tape, x) + left * x.price
  {
    InitialIsOrderly(s);
    InitialIsTracing(s);
    TracingAlways(s, steps, s');
    KeptAlways(s, steps, s');
    left := SomewhereLeft(s', x);
    LeftIsTraced(s', x, left);
    TracedBalances(s', x, left);
  }

  lemma {:induction false} InitialIsTracing(s: Exchange)
    requires Initial(s)
    ensures Tracing(s)
  {
    forall o | Listed(s, o) ensures o.terms.username == DEFAULT_USER {
      assert o in s.book.orders[o.terms.product];
    }
  }
}
