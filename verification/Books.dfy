/** The order book as a value: product lists, the per-user index into them, finalized sales. */
module Books {
  import opened Orders
  import opened TimeOrder
  import opened Trades

  /** The index lists orders by their terms, which is what its pointers can be told apart by. */
  datatype Book = Book(
    orders: map<string, seq<Order>>,
    index: map<string, seq<Terms>>,
    sales: seq<Order>)

  function ListOf(b: Book, product: string): seq<Order> {
    if product in b.orders then b.orders[product] else []
  }

  function IndexOf(b: Book, user: string): seq<Terms> {
    if user in b.index then b.index[user] else []
  }

  function RemoveAt<T>(s: seq<T>, k: nat): seq<T>
    requires k < |s|
  {
    s[..k] + s[k + 1..]
  }

  /** The record of one fill: sold at the ask's price, owned by default. */
  function SaleOf(t: Trade, product: string, now: string, id: nat): Order {
    Order(Terms(t.ask.price, now, product, Sale, DEFAULT_USER, id), t.qty)
  }

  function SalesOf(trades: seq<Trade>, product: string, now: string, id: nat): (r: seq<Order>)
    ensures |r| == |trades|
  {
    if trades == [] then []
    else [SaleOf(trades[0], product, now, id)] + SalesOf(trades[1..], product, now, id + 1)
  }

  /** Sale k records fill k: its price is the ask's, its amount what changed hands, and its ids count on. */
  lemma {:induction false} SalesHold(trades: seq<Trade>, product: string, now: string, id: nat)
    ensures forall k | 0 <= k < |trades| ::
      SalesOf(trades, product, now, id)[k]
        == Order(Terms(trades[k].ask.price, now, product, Sale, DEFAULT_USER, id + k), trades[k].qty)
  {
    if trades != [] {
      SalesHold(trades[1..], product, now, id + 1);
      forall k | 0 < k < |trades|
        ensures SalesOf(trades, product, now, id)[k]
             == Order(Terms(trades[k].ask.price, now, product, Sale, DEFAULT_USER, id + k), trades[k].qty)
      {
        assert trades[k] == trades[1..][k - 1];
      }
    }
  }

  // ---- the operations ----

  function InsertOrder(b: Book, o: Order): Book {
    b.(orders := b.orders[o.terms.product := InsertByTime(ListOf(b, o.terms.product), o)],
       index := b.index[o.terms.username := IndexOf(b, o.terms.username) + [o.terms]])
  }

  /** The first entry with this id, or the length. */
  function FindEntry(entries: seq<Terms>, id: nat): (k: nat)
    ensures k <= |entries|
    ensures forall i | 0 <= i < k :: entries[i].id != id
    ensures k < |entries| ==> entries[k].id == id
  {
    if entries == [] || entries[0].id == id then 0 else 1 + FindEntry(entries[1..], id)
  }

  function FindOrder(orders: seq<Order>, id: nat): (k: nat)
    ensures k <= |orders|
    ensures forall i | 0 <= i < k :: orders[i].terms.id != id
    ensures k < |orders| ==> orders[k].terms.id == id
  {
    if orders == [] || orders[0].terms.id == id then 0 else 1 + FindOrder(orders[1..], id)
  }

  function WithBucket(index: map<string, seq<Terms>>, user: string, bucket: seq<Terms>): map<string, seq<Terms>> {
    if bucket == [] then index - {user} else index[user := bucket]
  }

  /** removeOrderById: None stands for the result false, which changes nothing. */
  function RemoveById(b: Book, user: string, id: nat): Option<Book> {
    var entries := IndexOf(b, user);
    var e := FindEntry(entries, id);
    if e == |entries| then None
    else
      var orders := ListOf(b, entries[e].product);
      var k := FindOrder(orders, id);
      if k == |orders| then None
      else Some(b.(orders := b.orders[entries[e].product := RemoveAt(orders, k)],
                   index := WithBucket(b.index, user, RemoveAt(entries, e))))
  }

  function Without(entries: seq<Terms>, id: nat): (r: seq<Terms>)
    ensures forall x :: x in r <==> x in entries && x.id != id
  {
    if entries == [] then []
    else (if entries[0].id == id then [] else [entries[0]]) + Without(entries[1..], id)
  }

  /** removeFromUserIndex. */
  function Unindex(index: map<string, seq<Terms>>, user: string, id: nat): map<string, seq<Terms>> {
    if user in index then WithBucket(index, user, Without(index[user], id)) else index
  }

  /** Erase the order at position k of a product's list, index entry first. */
  function Drop(b: Book, product: string, k: nat): Book
    requires k < |ListOf(b, product)|
  {
    var x := ListOf(b, product)[k].terms;
    b.(orders := b.orders[product := RemoveAt(ListOf(b, product), k)],
       index := Unindex(b.index, x.username, x.id))
  }

  /** removeMatchedOrders, from position k of the list onwards. */
  function RemoveMatched(b: Book, product: string, k: nat): Book
    requires k <= |ListOf(b, product)|
    decreases |ListOf(b, product)| - k
  {
    if k == |ListOf(b, product)| then b
    else if ListOf(b, product)[k].amount <= 0.0 then RemoveMatched(Drop(b, product, k), product, k)
    else RemoveMatched(b, product, k + 1)
  }

  /** What the pass has made of the book before it purges: fills booked, sales recorded. */
  function Booked(b: Book, product: string, trades: seq<Trade>, sales: seq<Order>): Book {
    if product in b.orders then
      b.(orders := b.orders[product := Apply(b.orders[product], trades)], sales := b.sales + sales)
    else b.(sales := b.sales + sales)
  }

  function AfterPass(b: Book, product: string, trades: seq<Trade>, sales: seq<Order>): Book {
    RemoveMatched(Booked(b, product, trades, sales), product, 0)
  }

  /** Follow one index entry to its order. */
  function Deref(b: Book, x: Terms): seq<Order> {
    var orders := ListOf(b, x.product);
    var k := FindOrder(orders, x.id);
    if k == |orders| then [] else [orders[k]]
  }

  function DerefAll(b: Book, entries: seq<Terms>): seq<Order> {
    if entries == [] then [] else Deref(b, entries[0]) + DerefAll(b, entries[1..])
  }

  function OrdersForUser(b: Book, user: string): seq<Order> { DerefAll(b, IndexOf(b, user)) }

  ghost predicate NoDuplicates(keys: seq<string>) { forall i, j | 0 <= i < j < |keys| :: keys[i] != keys[j] }

  /** getAllOrders, for one order of enumerating the products. */
  function AllOrders(lists: map<string, seq<Order>>, keys: seq<string>): seq<Order>
    requires forall p | p in keys :: p in lists
  {
    if keys == [] then [] else lists[keys[0]] + AllOrders(lists, keys[1..])
  }

  /** Every list once, each in one piece, in some order of the products. */
  ghost predicate ListByList(all: seq<Order>, lists: map<string, seq<Order>>) {
    exists keys ::
      NoDuplicates(keys) && (forall p :: p in keys <==> p in lists) && all == AllOrders(lists, keys)
  }

  lemma {:induction false} AllOrdersSnoc(lists: map<string, seq<Order>>, keys: seq<string>, key: string)
    requires key in lists && forall p | p in keys :: p in lists
    ensures AllOrders(lists, keys + [key]) == AllOrders(lists, keys) + lists[key]
  {
    if keys == [] {
      assert [] + [key] == [key] && [key][1..] == [];
    } else {
      assert (keys + [key])[1..] == keys[1..] + [key];
      AllOrdersSnoc(lists, keys[1..], key);
    }
  }

  // ---- the invariants ----

  ghost predicate Live(b: Book, x: Terms) { Holds(ListOf(b, x.product), x) }

  /** A product's list: its own product's orders, in time order, no two alike. */
  ghost predicate ListOk(orders: seq<Order>, product: string) {
    && (forall o | o in orders :: o.terms.product == product)
    && Apart(orders) && InTimeOrder(orders)
  }

  ghost predicate WellFormed(b: Book) {
    && (forall p | p in b.orders :: ListOk(b.orders[p], p))
    && (forall x, y | Live(b, x) && Live(b, y) && x.id == y.id :: x == y)
  }

  ghost predicate Distinct(entries: seq<Terms>) {
    forall i, j | 0 <= i < j < |entries| :: entries[i] != entries[j]
  }

  /** One client's bucket: not empty, no entry twice, only the client's own live orders. */
  ghost predicate BucketOk(b: Book, user: string, bucket: seq<Terms>) {
    && user != DEFAULT_USER && bucket != [] && Distinct(bucket)
    && forall x | x in bucket :: x.username == user && Live(b, x)
  }

  ghost predicate Indexed(b: Book, x: Terms) { x in IndexOf(b, x.username) }

  /** The index lists, for each client, exactly the client's live orders, each once: nothing
      dangles, nothing is missing and no bucket is empty. */
  ghost predicate IndexAgrees(b: Book) {
    && (forall u | u in b.index :: BucketOk(b, u, b.index[u]))
    && (forall x | Live(b, x) && x.username != DEFAULT_USER :: Indexed(b, x))
  }

  ghost predicate BookOk(b: Book) { WellFormed(b) && IndexAgrees(b) }

  lemma {:induction false} RemoveAtHolds(orders: seq<Order>, k: nat, x: Terms)
    requires k < |orders| && Apart(orders)
    ensures Holds(RemoveAt(orders, k), x) <==> Holds(orders, x) && x != orders[k].terms
    ensures Apart(RemoveAt(orders, k))
    ensures InTimeOrder(orders) ==> InTimeOrder(RemoveAt(orders, k))
  {
    var r := RemoveAt(orders, k);
    assert forall i | 0 <= i < |r| :: r[i] == orders[if i < k then i else i + 1];
    if Holds(orders, x) && x != orders[k].terms {
      var i :| 0 <= i < |orders| && orders[i].terms == x;
      assert r[if i < k then i else i - 1] == orders[i];
    }
  }

  lemma {:induction false} WithoutDistinct(entries: seq<Terms>, id: nat)
    requires Distinct(entries)
    ensures Distinct(Without(entries, id))
  {
    if entries != [] {
      WithoutDistinct(entries[1..], id);
      assert entries[0] !in entries[1..];
    }
  }

  /** The book without one order, the index not looked at. */
  ghost predicate Lost(b: Book, b': Book, gone: Terms) {
    forall x :: Live(b', x) <==> Live(b, x) && x != gone
  }

  lemma {:induction false} DropLoses(b: Book, product: string, k: nat)
    requires WellFormed(b) && k < |ListOf(b, product)|
    ensures WellFormed(Drop(b, product, k))
    ensures Live(b, ListOf(b, product)[k].terms)
    ensures Lost(b, Drop(b, product, k), ListOf(b, product)[k].terms)
  {
    var b' := Drop(b, product, k);
    var orders, gone := ListOf(b, product), ListOf(b, product)[k].terms;
    assert orders[k] in orders && gone.product == product;
    forall x ensures Live(b', x) <==> Live(b, x) && x != gone {
      RemoveAtHolds(orders, k, x);
    }
    RemoveAtHolds(orders, k, gone);
    assert forall o | o in RemoveAt(orders, k) :: o in orders;
  }

  lemma {:induction false} DropLeavesFewer(b: Book, product: string, k: nat, p: string)
    requires k < |ListOf(b, product)|
    ensures forall o | o in ListOf(Drop(b, product, k), p) :: o in ListOf(b, p)
  {
  }

  /** Taking an order's entry out of the index when the order itself is gone. */
  lemma {:induction false} UnindexAgrees(b: Book, b': Book, gone: Terms)
    requires IndexAgrees(b) && Live(b, gone) && Lost(b, b', gone)
    requires forall x | Live(b, x) && x.id == gone.id :: x == gone
    requires b'.index == Unindex(b.index, gone.username, gone.id)
    ensures IndexAgrees(b')
  {
    var u := gone.username;
    if u in b.index {
      assert BucketOk(b, u, b.index[u]);
      WithoutDistinct(b.index[u], gone.id);
    }
    forall v | v in b'.index ensures BucketOk(b', v, b'.index[v]) {
      assert BucketOk(b, v, b.index[v]);
      if v != u {
        assert b'.index[v] == b.index[v];
      }
    }
    forall x | Live(b', x) && x.username != DEFAULT_USER ensures Indexed(b', x) {
      assert Indexed(b, x) && x.id != gone.id;
    }
  }

  /** Erasing an order together with its index entry keeps the book in agreement, and removes that
      order and nothing else. */
  lemma {:induction false} DropKeeps(b: Book, product: string, k: nat)
    requires BookOk(b) && k < |ListOf(b, product)|
    ensures BookOk(Drop(b, product, k))
    ensures Lost(b, Drop(b, product, k), ListOf(b, product)[k].terms)
  {
    DropLoses(b, product, k);
    UnindexAgrees(b, Drop(b, product, k), ListOf(b, product)[k].terms);
  }

  // ---- insert ----

  lemma {:induction false} InsertMembers(orders: seq<Order>, o: Order)
    ensures forall y :: y in InsertByTime(orders, o) <==> y in orders || y == o
    ensures forall x :: Holds(InsertByTime(orders, o), x) <==> Holds(orders, x) || x == o.terms
  {
    var k := InsertSplits(orders, o);
    assert orders == orders[..k] + orders[k..];
    forall x ensures Holds(InsertByTime(orders, o), x) <==> Holds(orders, x) || x == o.terms {
      HoldsJoins(orders[..k], orders[k..], x);
      HoldsJoins(orders[..k] + [o], orders[k..], x);
      HoldsJoins(orders[..k], [o], x);
      assert Holds([o], x) <==> x == o.terms by { HoldsHead([o], x); }
    }
  }

  lemma {:induction false} HoldsJoins(first: seq<Order>, second: seq<Order>, x: Terms)
    ensures Holds(first + second, x) <==> Holds(first, x) || Holds(second, x)
  {
    if Holds(first, x) {
      var i :| 0 <= i < |first| && first[i].terms == x;
      assert (first + second)[i].terms == x;
    }
    if Holds(second, x) {
      var i :| 0 <= i < |second| && second[i].terms == x;
      assert (first + second)[|first| + i].terms == x;
    }
  }

  lemma {:induction false} InsertApart(orders: seq<Order>, o: Order)
    requires Apart(orders) && !Holds(orders, o.terms)
    ensures Apart(InsertByTime(orders, o))
  {
    var k := InsertSplits(orders, o);
    var r := InsertByTime(orders, o);
    assert forall i | 0 <= i < |r| && i != k :: r[i] == orders[if i < k then i else i - 1];
  }

  ghost predicate Gained(b: Book, b': Book, x: Terms) {
    forall y :: Live(b', y) <==> Live(b, y) || y == x
  }

  lemma {:induction false} InsertLists(b: Book, o: Order)
    requires WellFormed(b) && forall x | Live(b, x) :: x.id != o.terms.id
    ensures WellFormed(InsertOrder(b, o)) && Gained(b, InsertOrder(b, o), o.terms)
  {
    var orders := ListOf(b, o.terms.product);
    assert !Live(b, o.terms);
    InsertMembers(orders, o);
    InsertApart(orders, o);
    InsertKeepsTimeOrder(orders, o);
  }

  /** Inserting a client's new order keeps the book in agreement and adds that order alone. */
  lemma {:induction false} InsertKeeps(b: Book, o: Order)
    requires BookOk(b) && o.terms.username != DEFAULT_USER
    requires forall x | Live(b, x) :: x.id != o.terms.id
    ensures BookOk(InsertOrder(b, o)) && Gained(b, InsertOrder(b, o), o.terms)
  {
    InsertLists(b, o);
    var b', u := InsertOrder(b, o), o.terms.username;
    assert !Live(b, o.terms);
    forall v | v in b'.index ensures BucketOk(b', v, b'.index[v]) {
      if v in b.index {
        assert BucketOk(b, v, b.index[v]);
      }
    }
    forall x | Live(b', x) && x.username != DEFAULT_USER ensures Indexed(b', x) {
      if x != o.terms {
        assert Indexed(b, x);
      }
    }
  }

  // ---- cancel ----

  lemma {:induction false} FindEntryAt(entries: seq<Terms>, x: Terms)
    requires x in entries && forall y | y in entries && y.id == x.id :: y == x
    ensures FindEntry(entries, x.id) < |entries| && entries[FindEntry(entries, x.id)] == x
  {
    var i :| 0 <= i < |entries| && entries[i] == x;
  }

  lemma {:induction false} RemoveBehind<T>(s: seq<T>, k: nat)
    requires 0 < k < |s|
    ensures RemoveAt(s, k) == [s[0]] + RemoveAt(s[1..], k - 1)
    ensures RemoveAt(s, k)[1..] == RemoveAt(s[1..], k - 1)
  {
  }

  lemma {:induction false} WithoutOne(entries: seq<Terms>, k: nat)
    requires k < |entries| && forall i | 0 <= i < |entries| && entries[i].id == entries[k].id :: i == k
    ensures Without(entries, entries[k].id) == RemoveAt(entries, k)
  {
    if k == 0 {
      WithoutNone(entries[1..], entries[0].id);
      assert RemoveAt(entries, 0) == entries[1..];
    } else {
      WithoutOne(entries[1..], k - 1);
      RemoveBehind(entries, k);
    }
  }

  lemma {:induction false} WithoutNone(entries: seq<Terms>, id: nat)
    requires forall x | x in entries :: x.id != id
    ensures Without(entries, id) == entries
  {
    if entries != [] {
      assert entries[0] in entries;
      WithoutNone(entries[1..], id);
    }
  }

  /** An order of this client with this id, at position k of its product's list. */
  ghost predicate OwnedAt(b: Book, product: string, k: nat, user: string, id: nat) {
    && k < |ListOf(b, product)|
    && ListOf(b, product)[k].terms.username == user && ListOf(b, product)[k].terms.id == id
  }

  /** Cancelling a client's live order erases it with its index entry, as a purge would. */
  lemma {:induction false} RemoveByIdDrops(b: Book, user: string, id: nat, product: string, k: nat)
    requires BookOk(b) && user != DEFAULT_USER && OwnedAt(b, product, k, user, id)
    ensures RemoveById(b, user, id) == Some(Drop(b, product, k))
  {
    var orders := ListOf(b, product);
    var x := orders[k].terms;
    assert orders[k] in orders && ListOk(orders, product);
    assert Live(b, x);
    assert Indexed(b, x) && BucketOk(b, user, b.index[user]);
    var entries := b.index[user];
    FindEntryAt(entries, x);
    WithoutOne(entries, FindEntry(entries, id));
    var f := FindOrder(orders, id);
    assert orders[f] in orders;
    assert Live(b, orders[f].terms);
  }

  /** Nothing but a client's own live order can be cancelled. */
  lemma {:induction false} RemoveByIdFinds(b: Book, user: string, id: nat)
    requires BookOk(b) && user != DEFAULT_USER
    ensures RemoveById(b, user, id).Some? ==> exists p, k :: OwnedAt(b, p, k, user, id)
  {
    if RemoveById(b, user, id).Some? {
      var entries := IndexOf(b, user);
      var x := entries[FindEntry(entries, id)];
      assert x in entries && BucketOk(b, user, entries);
      var k :| 0 <= k < |ListOf(b, x.product)| && ListOf(b, x.product)[k].terms == x;
      assert OwnedAt(b, x.product, k, user, id);
    }
  }

  // ---- purge ----

  lemma {:induction false} PurgeSkips(orders: seq<Order>, k: nat)
    requires k < |orders| && orders[k].amount <= 0.0
    ensures Purge(RemoveAt(orders, k)) == Purge(orders)
  {
    if k == 0 {
      assert RemoveAt(orders, 0) == orders[1..];
      assert Purge(orders) == [] + Purge(orders[1..]);
    } else {
      PurgeSkips(orders[1..], k - 1);
      RemoveBehind(orders, k);
    }
  }

  /** The orders map with one product's list replaced, if the product is known at all. */
  function WithList(b: Book, product: string, orders: seq<Order>): map<string, seq<Order>> {
    if product in b.orders then b.orders[product := orders] else b.orders
  }

  lemma {:induction false} SameList(b: Book, product: string)
    ensures WithList(b, product, ListOf(b, product)) == b.orders
  {
  }

  lemma {:induction false} ListOfDropped(b: Book, product: string, k: nat, orders: seq<Order>)
    requires k < |ListOf(b, product)|
    ensures ListOf(Drop(b, product, k), product) == RemoveAt(ListOf(b, product), k)
    ensures WithList(Drop(b, product, k), product, orders) == WithList(b, product, orders)
    ensures Drop(b, product, k).sales == b.sales
  {
  }

  /** The purge loop leaves the purged list and touches no other list. */
  lemma {:induction false} RemoveMatchedPurges(b: Book, product: string, k: nat)
    requires k <= |ListOf(b, product)|
    requires forall i | 0 <= i < k :: ListOf(b, product)[i].amount > 0.0
    ensures RemoveMatched(b, product, k).sales == b.sales
    ensures RemoveMatched(b, product, k).orders == WithList(b, product, Purge(ListOf(b, product)))
    decreases |ListOf(b, product)| - k
  {
    var orders := ListOf(b, product);
    if k == |orders| {
      PurgeOpen(orders);
      SameList(b, product);
    } else if orders[k].amount <= 0.0 {
      PurgeSkips(orders, k);
      ListOfDropped(b, product, k, Purge(orders));
      RemoveMatchedPurges(Drop(b, product, k), product, k);
    } else {
      RemoveMatchedPurges(b, product, k + 1);
    }
  }

  lemma {:induction false} RemoveMatchedKeeps(b: Book, product: string, k: nat)
    requires BookOk(b) && k <= |ListOf(b, product)|
    ensures BookOk(RemoveMatched(b, product, k))
    decreases |ListOf(b, product)| - k
  {
    var orders := ListOf(b, product);
    if k < |orders| {
      if orders[k].amount <= 0.0 {
        DropKeeps(b, product, k);
        RemoveMatchedKeeps(Drop(b, product, k), product, k);
      } else {
        RemoveMatchedKeeps(b, product, k + 1);
      }
    }
  }

  /** Booking fills changes amounts only. */
  lemma {:induction false} BookedLives(b: Book, product: string, trades: seq<Trade>, sales: seq<Order>, x: Terms)
    ensures Live(Booked(b, product, trades, sales), x) <==> Live(b, x)
  {
    var b' := Booked(b, product, trades, sales);
    var orders, orders' := ListOf(b, x.product), ListOf(b', x.product);
    assert |orders'| == |orders| && forall k | 0 <= k < |orders| :: orders'[k].terms == orders[k].terms;
    if Live(b, x) {
      var k :| 0 <= k < |orders| && orders[k].terms == x;
      assert orders'[k].terms == x;
    }
    if Live(b', x) {
      var k :| 0 <= k < |orders'| && orders'[k].terms == x;
      assert orders[k].terms == x;
    }
  }

  lemma {:induction false} ApplyKeepsList(orders: seq<Order>, product: string, trades: seq<Trade>)
    requires ListOk(orders, product)
    ensures ListOk(Apply(orders, trades), product)
  {
    var after := Apply(orders, trades);
    forall o | o in after ensures o.terms.product == product {
      var k :| 0 <= k < |after| && after[k] == o;
      assert orders[k] in orders;
    }
    forall i, j | 0 <= i < j < |after| ensures Before(after[i], after[j]) {
      assert Before(orders[i], orders[j]);
    }
  }

  lemma {:induction false} BookedKeeps(b: Book, product: string, trades: seq<Trade>, sales: seq<Order>)
    requires BookOk(b)
    ensures BookOk(Booked(b, product, trades, sales))
    ensures forall x :: Live(Booked(b, product, trades, sales), x) <==> Live(b, x)
  {
    var b' := Booked(b, product, trades, sales);
    forall x ensures Live(b', x) <==> Live(b, x) {
      BookedLives(b, product, trades, sales, x);
    }
    if product in b.orders {
      ApplyKeepsList(b.orders[product], product, trades);
    }
    forall u | u in b'.index ensures BucketOk(b', u, b'.index[u]) {
      assert BucketOk(b, u, b.index[u]);
    }
    forall x | Live(b', x) && x.username != DEFAULT_USER ensures Indexed(b', x) {
      assert Indexed(b, x);
    }
  }

  /** A whole pass: the product's list becomes what the fills leave of it, purged. */
  lemma {:induction false} AfterPassKeeps(b: Book, product: string, trades: seq<Trade>, sales: seq<Order>)
    requires BookOk(b)
    ensures var b' := AfterPass(b, product, trades, sales);
      && BookOk(b') && b'.sales == b.sales + sales
      && b'.orders == WithList(b, product, Purge(Apply(ListOf(b, product), trades)))
  {
    BookedKeeps(b, product, trades, sales);
    var b' := Booked(b, product, trades, sales);
    RemoveMatchedKeeps(b', product, 0);
    RemoveMatchedPurges(b', product, 0);
    assert Apply([], trades) == [];
  }

  // ---- looking a client's orders up ----

  lemma {:induction false} DerefFinds(b: Book, entries: seq<Terms>)
    requires WellFormed(b) && forall x | x in entries :: Live(b, x)
    ensures |DerefAll(b, entries)| == |entries|
    ensures forall i | 0 <= i < |entries| ::
      DerefAll(b, entries)[i].terms == entries[i] && DerefAll(b, entries)[i] in ListOf(b, entries[i].product)
  {
    if entries != [] {
      var x := entries[0];
      assert x in entries;
      var orders := ListOf(b, x.product);
      var k :| 0 <= k < |orders| && orders[k].terms == x;
      var f := FindOrder(orders, x.id);
      assert orders[f] in orders && ListOk(orders, x.product);
      assert Live(b, orders[f].terms);
      DerefFinds(b, entries[1..]);
    }
  }

  /** getOrdersForUser is a scan of the whole book for the client's orders, each reported once. */
  lemma {:induction false} OrdersForUserScans(b: Book, user: string)
    requires BookOk(b) && user != DEFAULT_USER
    ensures forall o :: o in OrdersForUser(b, user) <==>
      o.terms.username == user && o in ListOf(b, o.terms.product)
    ensures Apart(OrdersForUser(b, user))
  {
    var entries := IndexOf(b, user);
    if user in b.index {
      assert BucketOk(b, user, entries);
    }
    DerefFinds(b, entries);
    var found := OrdersForUser(b, user);
    forall o ensures o in found <==> o.terms.username == user && o in ListOf(b, o.terms.product) {
      if o in ListOf(b, o.terms.product) && o.terms.username == user {
        OwnIsFound(b, o);
      }
    }
  }

  lemma {:induction false} OwnIsFound(b: Book, o: Order)
    requires BookOk(b) && o in ListOf(b, o.terms.product) && o.terms.username != DEFAULT_USER
    ensures o in OrdersForUser(b, o.terms.username)
  {
    var orders, entries := ListOf(b, o.terms.product), IndexOf(b, o.terms.username);
    var found := OrdersForUser(b, o.terms.username);
    var k :| 0 <= k < |orders| && orders[k] == o;
    assert Live(b, o.terms) && Indexed(b, o.terms);
    assert BucketOk(b, o.terms.username, entries);
    DerefFinds(b, entries);
    var i :| 0 <= i < |entries| && entries[i] == o.terms;
    var j :| 0 <= j < |orders| && orders[j] == found[i];
    assert j == k;
  }

  // ---- submission order ----

  /** The entries of a log that are still listed, in log order. */
  function Still(log: seq<Terms>, entries: seq<Terms>): seq<Terms> {
    if log == [] then []
    else (if log[0] in entries then [log[0]] else []) + Still(log[1..], entries)
  }

  lemma {:induction false} StillJoins(log: seq<Terms>, x: Terms, entries: seq<Terms>)
    ensures Still(log + [x], entries) == Still(log, entries) + (if x in entries then [x] else [])
  {
    if log == [] {
      assert log + [x] == [x];
      assert Still([x][1..], entries) == [];
    } else {
      assert (log + [x])[1..] == log[1..] + [x];
      StillJoins(log[1..], x, entries);
      var head := if log[0] in entries then [log[0]] else [];
      var last := if x in entries then [x] else [];
      assert head + (Still(log[1..], entries) + last) == head + Still(log[1..], entries) + last;
    }
  }

  lemma {:induction false} StillGrows(log: seq<Terms>, entries: seq<Terms>, x: Terms)
    requires x !in log
    ensures Still(log, entries + [x]) == Still(log, entries)
  {
    if log != [] {
      assert log[0] in log;
      StillGrows(log[1..], entries, x);
    }
  }

  lemma {:induction false} StillWithout(log: seq<Terms>, entries: seq<Terms>, id: nat)
    ensures Still(log, Without(entries, id)) == Without(Still(log, entries), id)
  {
    if log != [] {
      StillWithout(log[1..], entries, id);
      if log[0] in entries {
        assert Still(log, entries)[1..] == Still(log[1..], entries);
      } else {
        assert Still(log, entries) == Still(log[1..], entries);
      }
    }
  }

  /** Every client's bucket is in the order the orders were submitted in. */
  ghost predicate InSubmissionOrder(b: Book, log: seq<Terms>) {
    forall u | u in b.index :: b.index[u] == Still(log, b.index[u])
  }

  lemma {:induction false} InsertKeepsSubmissionOrder(b: Book, log: seq<Terms>, o: Order)
    requires InSubmissionOrder(b, log) && o.terms !in log
    requires forall u | u in b.index :: o.terms !in b.index[u]
    ensures InSubmissionOrder(InsertOrder(b, o), log + [o.terms])
  {
    var b' := InsertOrder(b, o);
    assert forall entries: seq<Terms> :: entries == [] ==> Still(log, entries) == Still(log, []);
    forall u | u in b'.index ensures b'.index[u] == Still(log + [o.terms], b'.index[u]) {
      StillJoins(log, o.terms, b'.index[u]);
      if u == o.terms.username {
        StillGrows(log, IndexOf(b, u), o.terms);
        StillNothing(log);
      }
    }
  }

  lemma {:induction false} StillNothing(log: seq<Terms>)
    ensures Still(log, []) == []
  {
    if log != [] {
      StillNothing(log[1..]);
    }
  }

  lemma {:induction false} DropKeepsSubmissionOrder(b: Book, log: seq<Terms>, product: string, k: nat)
    requires InSubmissionOrder(b, log) && k < |ListOf(b, product)|
    ensures InSubmissionOrder(Drop(b, product, k), log)
  {
    var x := ListOf(b, product)[k].terms;
    StillWithout(log, IndexOf(b, x.username), x.id);
  }

  lemma {:induction false} RemoveMatchedKeepsSubmissionOrder(b: Book, log: seq<Terms>, product: string, k: nat)
    requires InSubmissionOrder(b, log) && k <= |ListOf(b, product)|
    ensures InSubmissionOrder(RemoveMatched(b, product, k), log)
    decreases |ListOf(b, product)| - k
  {
    if k < |ListOf(b, product)| {
      if ListOf(b, product)[k].amount <= 0.0 {
        DropKeepsSubmissionOrder(b, log, product, k);
        RemoveMatchedKeepsSubmissionOrder(Drop(b, product, k), log, product, k);
      } else {
        RemoveMatchedKeepsSubmissionOrder(b, log, product, k + 1);
      }
    }
  }
}
