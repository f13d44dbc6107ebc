/** What every reachable state of the exchange looks like: the book, its index and the ids. */
module Reachable {
  import opened Orders
  import opened TimeOrder
  import opened Trades
  import opened Matching
  import opened Optimality
  import opened Purses
  import opened Settlement
  import opened Books
  import opened Exchanges

  ghost predicate Listed(s: Exchange, o: Order) { o in ListOf(s.book, o.terms.product) }

  ghost predicate Known(s: Exchange, user: string) { user in s.ledger || user == DEFAULT_USER }

  /** An order in the book. */
  ghost predicate ListedOk(s: Exchange, o: Order) {
    && Known(s, o.terms.username) && o.terms.id < s.nextId
    && (o.terms.username != DEFAULT_USER ==> ClientOrder(o))
  }

  /** An order whose funds are locked and which is on its way into the book. */
  ghost predicate AcceptedOk(s: Exchange, o: Order) {
    && ClientOrder(o) && Client(s, o.terms.username) && o.terms.id < s.nextId
    && (forall x | Live(s.book, x) :: x.id != o.terms.id)
    && o.terms !in s.log
  }

  ghost predicate IdsApart(orders: seq<Order>) {
    forall i, j | 0 <= i < j < |orders| :: orders[i].terms.id != orders[j].terms.id
  }

  ghost predicate Sound(s: Exchange) {
    && BookOk(s.book)
    && (forall o | Listed(s, o) :: ListedOk(s, o))
    && (forall o | o in s.accepted :: AcceptedOk(s, o))
    && IdsApart(s.accepted)
  }

  lemma {:induction false} LiveIsListed(b: Book, x: Terms) returns (o: Order)
    requires Live(b, x)
    ensures o.terms == x && o in ListOf(b, x.product)
  {
    var orders := ListOf(b, x.product);
    var k :| 0 <= k < |orders| && orders[k].terms == x;
    o := orders[k];
  }

  lemma {:induction false} ListedIsLive(b: Book, o: Order)
    requires o in ListOf(b, o.terms.product)
    ensures Live(b, o.terms)
  {
    var orders := ListOf(b, o.terms.product);
    var k :| 0 <= k < |orders| && orders[k] == o;
  }

  /** A live order's id has been handed out already. */
  lemma {:induction false} LiveIdsHandedOut(s: Exchange)
    requires Sound(s)
    ensures forall x | Live(s.book, x) :: x.id < s.nextId
  {
    forall x | Live(s.book, x) ensures x.id < s.nextId {
      var o := LiveIsListed(s.book, x);
      assert Listed(s, o);
    }
  }

  lemma {:induction false} InsertIsSound(s: Exchange, k: nat)
    requires Sound(s) && k < |s.accepted|
    requires forall x | x in s.log :: x.username != DEFAULT_USER
    ensures Sound(AfterInsert(s, k))
    ensures Gained(s.book, AfterInsert(s, k).book, s.accepted[k].terms)
  {
    var s', o := AfterInsert(s, k), s.accepted[k];
    assert o in s.accepted && AcceptedOk(s, o);
    InsertKeeps(s.book, o);
    InsertMembers(ListOf(s.book, o.terms.product), o);
    forall q | Listed(s', q) ensures ListedOk(s', q) {
      if q != o {
        assert Listed(s, q);
      }
    }
    forall q | q in s'.accepted ensures AcceptedOk(s', q) {
      var j :| 0 <= j < |s'.accepted| && s'.accepted[j] == q;
      assert q == s.accepted[if j < k then j else j + 1];
      assert q in s.accepted && AcceptedOk(s, q);
    }
  }

  lemma {:induction false} PlaceIsSound(s: Exchange, o: Order)
    requires Sound(s) && Enabled(s, Place(o))
    requires forall x | x in s.log :: x.id < s.nextId
    ensures Sound(AfterPlace(s, o))
  {
    var s' := AfterPlace(s, o);
    LiveIdsHandedOut(s);
    if Fulfill(s.ledger[o.terms.username], o).outcome == Returned(true) {
      FulfillReserves(s.ledger[o.terms.username], o);
    }
    forall q | Listed(s', q) ensures ListedOk(s', q) {
      assert Listed(s, q);
    }
    forall q | q in s'.accepted ensures AcceptedOk(s', q) {
      if q in s.accepted {
        assert AcceptedOk(s, q);
      }
    }
    forall i, j | 0 <= i < j < |s'.accepted| ensures s'.accepted[i].terms.id != s'.accepted[j].terms.id {
      assert s'.accepted[i] in s.accepted;
      assert AcceptedOk(s, s'.accepted[i]);
    }
  }

  // ---- a match pass ----

  lemma {:induction false} ListIsApart(b: Book, product: string)
    requires WellFormed(b)
    ensures Apart(ListOf(b, product)) && forall o | o in ListOf(b, product) :: o.terms.product == product
  {
    if product in b.orders {
      assert ListOk(b.orders[product], product);
    }
  }

  lemma {:induction false} SignsAfter(o: Order, trades: seq<Trade>)
    requires ClientOrder(o) && 0.0 <= Filled(trades, o.terms) <= Open(o)
    ensures ClientOrder(Remainder(o, trades))
  {
  }

  /** No order is filled a negative quantity, or beyond its open amount. */
  ghost predicate Within(orders: seq<Order>, trades: seq<Trade>) {
    forall o | o in orders :: 0.0 <= Filled(trades, o.terms) <= Open(o)
  }

  lemma {:induction false} FeasibleIsWithin(orders: seq<Order>, trades: seq<Trade>, first: seq<Trade>)
    requires Feasible(orders, trades) && first <= trades
    ensures Within(orders, first)
  {
    var rest := trades[|first|..];
    assert trades == first + rest;
    forall o | o in orders ensures 0.0 <= Filled(first, o.terms) <= Open(o) {
      FilledJoins(first, rest, o.terms);
      FilledNonNegative(first, o.terms);
      FilledNonNegative(rest, o.terms);
    }
  }

  /** What a pass makes of one order of its product: its remainder, or, of others, nothing. */
  lemma {:induction false} ListedAfterFills(b: Book, b': Book, product: string, trades: seq<Trade>, q: Order) returns (o: Order)
    requires WellFormed(b) && q in ListOf(b', q.terms.product)
    requires forall p | p != product :: ListOf(b', p) == ListOf(b, p)
    requires forall x | x in ListOf(b', product) :: x in Apply(ListOf(b, product), trades)
    ensures o in ListOf(b, o.terms.product) && o.terms == q.terms
    ensures q == if q.terms.product == product then Remainder(o, trades) else o
  {
    o := q;
    if q.terms.product == product {
      var orders := ListOf(b, product);
      var after := Apply(orders, trades);
      var i :| 0 <= i < |after| && after[i] == q;
      o := orders[i];
    }
  }

  /** The book after fills of one product's orders, some orders perhaps purged. */
  lemma {:induction false} FilledIsSound(s: Exchange, s': Exchange, product: string, trades: seq<Trade>)
    requires Sound(s) && BookOk(s'.book) && Within(ListOf(s.book, product), trades)
    requires forall p | p != product :: ListOf(s'.book, p) == ListOf(s.book, p)
    requires forall x | x in ListOf(s'.book, product) :: x in Apply(ListOf(s.book, product), trades)
    requires s'.accepted == s.accepted && s'.log == s.log && s'.nextId >= s.nextId && s.ledger.Keys <= s'.ledger.Keys
    ensures Sound(s') && forall x :: Live(s'.book, x) ==> Live(s.book, x)
  {
    forall q | Listed(s', q) ensures ListedOk(s', q) && Live(s.book, q.terms) {
      var o := ListedAfterFills(s.book, s'.book, product, trades, q);
      assert Listed(s, o);
      ListedIsLive(s.book, o);
      if q.terms.product == product && q.terms.username != DEFAULT_USER {
        SignsAfter(o, trades);
      }
    }
    forall x | Live(s'.book, x) ensures Live(s.book, x) {
      var q := LiveIsListed(s'.book, x);
      assert Listed(s', q);
    }
    forall q | q in s'.accepted ensures AcceptedOk(s', q) {
      assert AcceptedOk(s, q);
    }
  }

  lemma {:induction false} SettledIsSound(s: Exchange, product: string, now: string, trades: seq<Trade>)
    requires Sound(s) && Within(ListOf(s.book, product), trades)
    ensures var s' := AfterSettled(s, product, now, trades);
      Sound(s') && forall x :: Live(s'.book, x) ==> Live(s.book, x)
  {
    var s' := AfterSettled(s, product, now, trades);
    AfterPassKeeps(s.book, product, trades, SalesOf(trades, product, now, s.nextId));
    SettleAllKeepsUsers(s.ledger, trades);
    FilledIsSound(s, s', product, trades);
  }

  lemma {:induction false} ThrowIsSound(s: Exchange, product: string, trades: seq<Trade>)
    requires Sound(s) && Within(ListOf(s.book, product), Reached(s.ledger, trades))
    ensures var s' := AfterThrow(s, product, trades);
      Sound(s') && forall x :: Live(s'.book, x) ==> Live(s.book, x)
  {
    BookedKeeps(s.book, product, Reached(s.ledger, trades), []);
    SettleAllKeepsUsers(s.ledger, trades);
    FilledIsSound(s, AfterThrow(s, product, trades), product, Reached(s.ledger, trades));
  }

  lemma {:induction false} MatchIsWithin(s: Exchange, product: string, trades: seq<Trade>)
    requires Sound(s) && IsPass(ListOf(s.book, product), trades)
    ensures Within(ListOf(s.book, product), trades) && Within(ListOf(s.book, product), Reached(s.ledger, trades))
  {
    ListIsApart(s.book, product);
    PassIsFeasible(ListOf(s.book, product), trades);
    ReachedIsPrefix(s.ledger, trades);
    FeasibleIsWithin(ListOf(s.book, product), trades, trades);
    FeasibleIsWithin(ListOf(s.book, product), trades, Reached(s.ledger, trades));
  }

  /** The lists after a pass, whether it threw or not. */
  lemma {:induction false} AfterMatchLists(s: Exchange, product: string, now: string, trades: seq<Trade>)
    requires Sound(s)
    ensures var s', booked := AfterMatch(s, product, now, trades), Reached(s.ledger, trades);
      && (forall p | p != product :: ListOf(s'.book, p) == ListOf(s.book, p))
      && (forall x | x in ListOf(s'.book, product) :: x in Apply(ListOf(s.book, product), booked))
  {
    ReachedIsPrefix(s.ledger, trades);
    AfterPassKeeps(s.book, product, trades, SalesOf(trades, product, now, s.nextId));
    assert Apply([], Reached(s.ledger, trades)) == [];
  }

  // ---- cancel ----

  /** CANCEL of the order at position k of a product's list. */
  function CancelAt(s: Exchange, user: string, product: string, k: nat): Exchange
    requires Client(s, user) && k < |ListOf(s.book, product)|
  {
    var o := ListOf(s.book, product)[k];
    WithPurse(s, user, Cancel(s.ledger[user], o).purse)
      .(book := Drop(s.book, product, k), closed := s.closed[o.terms := o.amount])
  }

  lemma {:induction false} OwnedIsReported(b: Book, product: string, k: nat, user: string, id: nat)
    requires BookOk(b) && user != DEFAULT_USER && OwnedAt(b, product, k, user, id)
    ensures ListOf(b, product)[k] in OrdersForUser(b, user)
  {
    OrdersForUserScans(b, user);
    assert ListOf(b, product)[k] in b.orders[product] && ListOk(b.orders[product], product);
  }

  /** CANCEL finds the client's own live order with that id, or does nothing at all. */
  lemma {:induction false} CancelFinds(s: Exchange, user: string, id: nat) returns (found: bool, product: string,
                                       k: nat)
    requires Sound(s) && Client(s, user)
    ensures !found ==> AfterCancel(s, user, id) == s && forall p, i: nat :: !OwnedAt(s.book, p, i, user, id)
    ensures found ==> OwnedAt(s.book, product, k, user, id)
    ensures found ==> AfterCancel(s, user, id) == CancelAt(s, user, product, k)
  {
    var orders := OrdersForUser(s.book, user);
    OrdersForUserScans(s.book, user);
    var f := FindOrder(orders, id);
    found, product, k := f < |orders|, "", 0;
    if found {
      var o := orders[f];
      assert o in orders;
      product := o.terms.product;
      k :| 0 <= k < |ListOf(s.book, product)| && ListOf(s.book, product)[k] == o;
      RemoveByIdDrops(s.book, user, id, product, k);
    } else {
      forall p, i: nat ensures !OwnedAt(s.book, p, i, user, id) {
        if OwnedAt(s.book, p, i, user, id) {
          OwnedIsReported(s.book, p, i, user, id);
        }
      }
    }
  }

  lemma {:induction false} CancelIsSound(s: Exchange, user: string, product: string, k: nat, id: nat)
    requires Sound(s) && Client(s, user) && OwnedAt(s.book, product, k, user, id)
    ensures Sound(CancelAt(s, user, product, k))
    ensures Lost(s.book, CancelAt(s, user, product, k).book, ListOf(s.book, product)[k].terms)
  {
    var s' := CancelAt(s, user, product, k);
    DropKeeps(s.book, product, k);
    forall q | Listed(s', q) ensures ListedOk(s', q) {
      assert Listed(s, q);
    }
    forall q | q in s'.accepted ensures AcceptedOk(s', q) {
      assert AcceptedOk(s, q);
    }
  }

  // ---- every step ----

  ghost predicate LogOk(s: Exchange) {
    && (forall x | x in s.log :: x.username != DEFAULT_USER && x.id < s.nextId)
    && InSubmissionOrder(s.book, s.log)
  }

  ghost predicate Orderly(s: Exchange) { Sound(s) && LogOk(s) }

  /** A step that leaves the book, the accepted orders and the log alone, and loses no user. */
  lemma {:induction false} QuietIsOrderly(s: Exchange, s': Exchange)
    requires Orderly(s)
    requires s'.book == s.book && s'.accepted == s.accepted && s'.log == s.log
    requires s'.nextId >= s.nextId && s.ledger.Keys <= s'.ledger.Keys
    ensures Orderly(s')
  {
    forall q | Listed(s', q) ensures ListedOk(s', q) {
      assert Listed(s, q);
    }
    forall q | q in s'.accepted ensures AcceptedOk(s', q) {
      assert AcceptedOk(s, q);
    }
  }

  lemma {:induction false} InsertIsOrderly(s: Exchange, k: nat)
    requires Orderly(s) && k < |s.accepted|
    ensures Orderly(AfterInsert(s, k))
  {
    var o := s.accepted[k];
    assert o in s.accepted && AcceptedOk(s, o);
    InsertIsSound(s, k);
    forall u | u in s.book.index ensures o.terms !in s.book.index[u] {
      assert BucketOk(s.book, u, s.book.index[u]);
    }
    InsertKeepsSubmissionOrder(s.book, s.log, o);
  }

  lemma {:induction false} MatchIsOrderly(s: Exchange, product: string, now: string, trades: seq<Trade>)
    requires Orderly(s) && IsPass(ListOf(s.book, product), trades)
    ensures Orderly(AfterMatch(s, product, now, trades))
  {
    MatchIsWithin(s, product, trades);
    if SettleAll(s.ledger, trades).error.None? {
      SettledIsSound(s, product, now, trades);
      RemoveMatchedKeepsSubmissionOrder(
        Booked(s.book, product, trades, SalesOf(trades, product, now, s.nextId)), s.log, product, 0);
    } else {
      ThrowIsSound(s, product, trades);
    }
  }

  lemma {:induction false} CancelIsOrderly(s: Exchange, user: string, id: nat)
    requires Orderly(s) && Client(s, user)
    ensures Orderly(AfterCancel(s, user, id))
  {
    var found, product, k := CancelFinds(s, user, id);
    if found {
      CancelIsSound(s, user, product, k, id);
      DropKeepsSubmissionOrder(s.book, s.log, product, k);
    }
  }

  /** Settling never forgets a user. */
  lemma {:induction false} SettleAllKeepsUsers(l: Ledger, trades: seq<Trade>)
    ensures l.Keys <= SettleAll(l, trades).ledger.Keys
    decreases |trades|
  {
    if trades != [] {
      assert l.Keys <= Settle(l, trades[0]).ledger.Keys;
      SettleAllKeepsUsers(Settle(l, trades[0]).ledger, trades[1..]);
    }
  }

  lemma {:induction false} StepIsOrderly(s: Exchange, step: Step)
    requires Orderly(s) && Enabled(s, step)
    ensures Orderly(Next(s, step))
  {
    match step
    case Place(o) =>
      PlaceIsSound(s, o);
    case Insert(k) =>
      InsertIsOrderly(s, k);
    case Match(product, now, asks, bids) =>
      MatchIsOrderly(s, product, now, Merge(asks, bids));
    case CancelById(user, id) =>
      CancelIsOrderly(s, user, id);
    case _ =>
      QuietIsOrderly(s, Next(s, step));
  }

  lemma {:induction false} InitialIsOrderly(s: Exchange)
    requires Initial(s)
    ensures Orderly(s)
  {
    forall x | Live(s.book, x) ensures x.username == DEFAULT_USER {
      var o := LiveIsListed(s.book, x);
      assert o in s.book.orders[x.product];
    }
    forall o | Listed(s, o) ensures ListedOk(s, o) && o.terms.username == DEFAULT_USER {
      assert o in s.book.orders[o.terms.product];
    }
  }

  lemma {:induction false} OrderlyAlways(s: Exchange, steps: seq<Step>, s': Exchange)
    requires Orderly(s) && Run(s, steps, s')
    ensures Orderly(s')
    decreases |steps|
  {
    if steps != [] {
      StepIsOrderly(s, steps[0]);
      OrderlyAlways(Next(s, steps[0]), steps[1..], s');
    }
  }

  /** In every reachable state the user index agrees with the product lists: for each client it
      lists exactly the client's live orders, each once, in submission order, and looking a client
      up reports exactly the client's orders in the book. */
  lemma {:induction false} IndexAgreesAlways(s: Exchange, steps: seq<Step>, s': Exchange)
    requires Initial(s) && Run(s, steps, s')
    ensures IndexAgrees(s'.book) && InSubmissionOrder(s'.book, s'.log)
    ensures forall user, o | user != DEFAULT_USER ::
      o in OrdersForUser(s'.book, user) <==> o.terms.username == user && Listed(s', o)
  {
    InitialIsOrderly(s);
    OrderlyAlways(s, steps, s');
    forall user | user != DEFAULT_USER
      ensures forall o :: o in OrdersForUser(s'.book, user) <==> o.terms.username == user && Listed(s', o)
    {
      OrdersForUserScans(s'.book, user);
    }
  }

  /** Every product's list stays sorted by timestamp, and holds each order once. */
  lemma {:induction false} ListsStaySorted(s: Exchange, steps: seq<Step>, s': Exchange)
    requires Initial(s) && Run(s, steps, s')
    ensures forall p | p in s'.book.orders :: InTimeOrder(s'.book.orders[p]) && Apart(s'.book.orders[p])
  {
    InitialIsOrderly(s);
    OrderlyAlways(s, steps, s');
    forall p | p in s'.book.orders ensures InTimeOrder(s'.book.orders[p]) && Apart(s'.book.orders[p]) {
      assert ListOk(s'.book.orders[p], p);
    }
  }
}
