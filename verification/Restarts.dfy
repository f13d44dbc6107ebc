/** From one session to the next: the book goes through the CSV file, the wallets do not. */
module Restarts {
  import opened Orders
  import opened TimeOrder
  import opened Settlement
  import opened Books
  import opened Exchanges
  import opened Reachable
  import opened Accounts
  import opened Csv
  import opened CsvRoundTrip

  /** A server that comes up with these lists and wallets. */
  function ComeUp(lists: map<string, seq<Order>>, ledger: Ledger, nextId: nat): Exchange {
    Exchange(Book(lists, map[], []), ledger, nextId, [], multiset{}, Fresh, [], multiset{}, [], [], map[], map[])
  }

  lemma {:induction false} SortedMembers(sorted: seq<Order>, orders: seq<Order>)
    requires IsStableSort(sorted, orders)
    ensures forall o :: o in sorted <==> o in orders
  {
    forall o ensures o in sorted <==> o in orders {
      AtMembers(sorted, o.terms.timestamp);
      AtMembers(orders, o.terms.timestamp);
      assert o in At(sorted, o.terms.timestamp) <==> o in At(orders, o.terms.timestamp);
    }
  }

  lemma {:induction false} OfProductMembers(orders: seq<Order>, product: string)
    ensures forall o :: o in OfProduct(orders, product) <==> o in orders && o.terms.product == product
  {
    if orders != [] {
      var n := |orders| - 1;
      OfProductMembers(orders[..n], product);
      assert orders == orders[..n] + [orders[n]];
    }
  }

  ghost predicate IdsRise(orders: seq<Order>) {
    forall i, j | 0 <= i < j < |orders| :: orders[i].terms.id < orders[j].terms.id
  }

  lemma {:induction false} OfProductRises(orders: seq<Order>, product: string)
    requires IdsRise(orders)
    ensures IdsRise(OfProduct(orders, product))
  {
    if orders != [] {
      var n := |orders| - 1;
      OfProductRises(orders[..n], product);
      OfProductMembers(orders[..n], product);
      forall o | o in OfProduct(orders[..n], product) ensures o.terms.id < orders[n].terms.id {
        var k :| 0 <= k < n && orders[..n][k] == o;
      }
    }
  }

  lemma {:induction false} AtRises(orders: seq<Order>, stamp: string)
    requires IdsRise(orders)
    ensures IdsRise(At(orders, stamp))
  {
    if orders != [] {
      AtRises(orders[1..], stamp);
      AtMembers(orders[1..], stamp);
      forall o | o in At(orders[1..], stamp) ensures orders[0].terms.id < o.terms.id {
        var k :| 0 <= k < |orders| - 1 && orders[1..][k] == o;
        assert orders[k + 1] == o;
      }
    }
  }

  /** Sorting stably keeps orders apart: two alike would share a timestamp. */
  lemma {:induction false} TiesRiseSoApart(sorted: seq<Order>)
    requires forall stamp :: IdsRise(At(sorted, stamp))
    ensures Apart(sorted)
  {
    if sorted != [] {
      var stamp := sorted[0].terms.timestamp;
      assert IdsRise(At(sorted, stamp)) && At(sorted, stamp) == [sorted[0]] + At(sorted[1..], stamp);
      forall s ensures IdsRise(At(sorted[1..], s)) {
        assert IdsRise(At(sorted, s));
        TailRises(sorted, s);
      }
      TiesRiseSoApart(sorted[1..]);
      AtMembers(sorted[1..], stamp);
      forall j | 0 < j < |sorted| ensures sorted[j].terms != sorted[0].terms {
        assert sorted[1..][j - 1] == sorted[j];
        if sorted[j].terms.timestamp == stamp {
          var rest := At(sorted[1..], stamp);
          var k :| 0 <= k < |rest| && rest[k] == sorted[j];
          assert At(sorted, stamp)[0] == sorted[0] && At(sorted, stamp)[k + 1] == sorted[j];
        }
      }
    }
  }

  lemma {:induction false} TailRises(sorted: seq<Order>, stamp: string)
    requires sorted != [] && IdsRise(At(sorted, stamp))
    ensures IdsRise(At(sorted[1..], stamp))
  {
    var all, rest := At(sorted, stamp), At(sorted[1..], stamp);
    var d := |all| - |rest|;
    assert forall k | 0 <= k < |rest| :: rest[k] == all[k + d];
  }

  /** A list that was read and sorted is as the book wants it. */
  lemma {:induction false} LoadedListOk(list: seq<Order>, orders: seq<Order>, product: string)
    requires IsStableSort(list, OfProduct(orders, product)) && IdsRise(orders)
    ensures ListOk(list, product) && forall o | o in list :: o in orders
  {
    SortedMembers(list, OfProduct(orders, product));
    OfProductMembers(orders, product);
    OfProductRises(orders, product);
    forall stamp ensures IdsRise(At(list, stamp)) {
      AtRises(OfProduct(orders, product), stamp);
      assert At(list, stamp) == At(OfProduct(orders, product), stamp);
    }
    TiesRiseSoApart(list);
  }

  lemma {:induction false} RisingIdsDiffer(orders: seq<Order>, o: Order, q: Order)
    requires IdsRise(orders) && o in orders && q in orders && o.terms.id == q.terms.id
    ensures o == q
  {
    var i :| 0 <= i < |orders| && orders[i] == o;
    var j :| 0 <= j < |orders| && orders[j] == q;
    assert i == j;
  }

  lemma {:induction false} LoadedIsWellFormed(lists: map<string, seq<Order>>, orders: seq<Order>)
    requires Loaded(lists, orders) && IdsRise(orders)
    ensures WellFormed(Book(lists, map[], []))
    ensures forall p, o | p in lists && o in lists[p] :: o in orders
  {
    var b := Book(lists, map[], []);
    forall p | p in lists ensures ListOk(lists[p], p) && forall o | o in lists[p] :: o in orders {
      LoadedListOk(lists[p], orders, p);
    }
    forall x, y | Live(b, x) && Live(b, y) && x.id == y.id ensures x == y {
      var o := LiveIsListed(b, x);
      var q := LiveIsListed(b, y);
      RisingIdsDiffer(orders, o, q);
    }
  }

  /** A book that was read from any text is a legal start. */
  lemma {:induction false} LoadedIsInitial(lists: map<string, seq<Order>>, lines: seq<string>, read: Reader,
                                           first: nat, ledger: Ledger)
    requires Loaded(lists, Parsed(lines, read, first))
    requires forall u, c | u != DEFAULT_USER :: LockedOf(ledger, u, c) >= 0.0
    ensures Initial(ComeUp(lists, ledger, first + |Parsed(lines, read, first)|))
  {
    var orders := Parsed(lines, read, first);
    ParsedFresh(lines, read, first);
    LoadedIsWellFormed(lists, orders);
    forall o | o in orders ensures o.terms.username == DEFAULT_USER && o.terms.id < first + |orders| {
      var k :| 0 <= k < |orders| && orders[k] == o;
    }
  }

  /** The orders of a state can be written and read back without loss. */
  ghost predicate AllWritable(s: Exchange, show: Shower, read: Reader) {
    forall p, o | p in s.book.orders && o in s.book.orders[p] :: Writable(o, show, read)
  }

  /** The lines that saving the book leaves, for one order of enumerating the products. */
  function SavedLines(s: Exchange, keys: seq<string>, show: Shower): seq<string>
    requires forall p | p in keys :: p in s.book.orders
  {
    Lines(Written(AllOrders(s.book.orders, keys), show))
  }

  /** The next session: wallets as they were, the book read from these lines. */
  ghost predicate NextSession(s: Exchange, lines: seq<string>, read: Reader, first: nat, r: Exchange) {
    && Loaded(r.book.orders, Parsed(lines, read, first))
    && r == ComeUp(r.book.orders, s.ledger, first + |Parsed(lines, read, first)|)
  }

  lemma {:induction false} NextSessionIsInitial(s: Exchange, lines: seq<string>, read: Reader, first: nat, r: Exchange)
    requires Sound(s) && Covered(s) && NextSession(s, lines, read, first, r)
    ensures Initial(r)
  {
    LockedStaysPositive(s);
    LoadedIsInitial(r.book.orders, lines, read, first, s.ledger);
  }

  /** Saving a reachable book and starting on the file: every list is back in its order, but the orders
      are default's now, and orders that were accepted but not inserted are lost. What a client's orders
      held stays locked, no order accounts for it, and no later run of this session unlocks it. */
  lemma {:induction false} RestartStrandsReserves(s0: Exchange, steps: seq<Step>, s: Exchange, keys: seq<string>,
                                                  show: Shower, read: Reader, first: nat, r: Exchange)
    requires Initial(s0) && Run(s0, steps, s) && AllWritable(s, show, read)
    requires NoDuplicates(keys) && forall p :: p in keys <==> p in s.book.orders
    requires NextSession(s, SavedLines(s, keys, show), read, first, r)
    ensures Initial(r)
    ensures forall p :: p in r.book.orders <==> p in s.book.orders && s.book.orders[p] != []
    ensures forall p | p in r.book.orders :: AllAlike(r.book.orders[p], s.book.orders[p])
    ensures (forall u, c | u != DEFAULT_USER ::
      Slack(r, u, c) == LockedOf(s.ledger, u, c) == Slack(s, u, c) + Reserves(s, u, c) + StuckFunds(s, u, c))
    ensures (forall later, r', u, c | Run(r, later, r') && u != DEFAULT_USER ::
      LockedOf(r'.ledger, u, c) >= LockedOf(s.ledger, u, c))
  {
    InitialIsOrderly(s0);
    InitialSlack(s0);
    SlackNeverChanges(s0, steps, s);
    OrderlyIsSavable(s, show, read);
    NextSessionIsInitial(s, SavedLines(s, keys, show), read, first, r);
    InitialSlack(r);
    SavedAndLoaded(s.book.orders, keys, show, read, first, r.book.orders);
    forall later, r', u, c | Run(r, later, r') && u != DEFAULT_USER
      ensures LockedOf(r'.ledger, u, c) >= LockedOf(s.ledger, u, c)
    {
      InitialIsOrderly(r);
      SlackIsStranded(r, later, r');
    }
  }

  lemma {:induction false} OrderlyIsSavable(s: Exchange, show: Shower, read: Reader)
    requires Orderly(s) && AllWritable(s, show, read)
    ensures Savable(s.book.orders, show, read)
  {
    forall p | p in s.book.orders ensures ListOk(s.book.orders[p], p) {
    }
  }

  lemma {:induction false} LockedStaysPositive(s: Exchange)
    requires Sound(s) && Covered(s)
    ensures forall u, c | u != DEFAULT_USER :: LockedOf(s.ledger, u, c) >= 0.0
  {
    forall u, c | u != DEFAULT_USER ensures LockedOf(s.ledger, u, c) >= 0.0 {
      CoveredLocks(s, u, c);
    }
  }
}
