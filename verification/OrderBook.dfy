/** The order book object: lists of order entries, and an index of pointers into them. */
module OrderBooks {
  import opened Orders
  import opened Sequences
  import opened TimeOrder
  import opened Trades
  import opened Matching
  import opened Entries
  import opened Purses
  import opened Settlement
  import opened Passes
  import opened UserStores
  import opened Books

  /** The order inserted among the first i, the others behind. */
  ghost function InsertedAmong(orders: seq<Order>, i: nat, o: Order): seq<Order>
    requires i <= |orders|
  {
    InsertByTime(orders[..i], o) + orders[i..]
  }

  lemma {:induction false} ScanStarts(orders: seq<Order>, o: Order)
    ensures InsertedAmong(orders, |orders|, o) == InsertByTime(orders, o)
  {
    assert orders[..|orders|] == orders;
  }

  lemma {:induction false} ScanPasses(orders: seq<Order>, i: nat, o: Order)
    requires 0 < i <= |orders| && !Before(orders[i - 1], o)
    ensures InsertedAmong(orders, i, o) == InsertedAmong(orders, i - 1, o)
  {
    assert orders[..i][..i - 1] == orders[..i - 1];
    assert [orders[i - 1]] + orders[i..] == orders[i - 1..];
  }

  lemma {:induction false} ScanStops(orders: seq<Order>, i: nat, o: Order)
    requires i <= |orders| && (i > 0 ==> Before(orders[i - 1], o))
    ensures InsertedAmong(orders, i, o) == orders[..i] + [o] + orders[i..]
  {
  }

  /** The entries that are in some list. */
  ghost function EntriesOf(lists: map<string, seq<Entry>>): set<Entry> {
    set p, e | p in lists && e in lists[p] :: e
  }

  ghost predicate ListsOk(lists: map<string, seq<Entry>>) {
    forall p | p in lists :: NoRepeats(lists[p]) && forall e | e in lists[p] :: e.terms.product == p
  }

  ghost predicate IdsDiffer(entries: set<Entry>) {
    forall e, f | e in entries && f in entries && e.terms.id == f.terms.id :: e == f
  }

  ghost predicate PointsInto(index: map<string, seq<Entry>>, entries: set<Entry>) {
    forall u | u in index ::
      NoRepeats(index[u]) && forall e | e in index[u] :: e in entries && e.terms.username == u
  }

  /** Lists hold their own product's entries, no entry or id occurs twice, and the index points
      only at entries that are in a list. */
  ghost predicate Consistent(lists: map<string, seq<Entry>>, index: map<string, seq<Entry>>) {
    ListsOk(lists) && IdsDiffer(EntriesOf(lists)) && PointsInto(index, EntriesOf(lists))
  }

  function ListValues(lists: map<string, seq<Entry>>): map<string, seq<Order>>
    reads EntriesOf(lists)
  {
    map p | p in lists :: Values(lists[p])
  }

  function IndexTerms(index: map<string, seq<Entry>>): map<string, seq<Terms>> {
    map u | u in index :: TermsOf(index[u])
  }

  lemma {:induction false} InsertEntries(lists: map<string, seq<Entry>>, entries: seq<Entry>, product: string,
                                         e: Entry, i: nat)
    requires entries == if product in lists then lists[product] else []
    requires i <= |entries|
    ensures EntriesOf(lists[product := entries[..i] + [e] + entries[i..]]) == EntriesOf(lists) + {e}
  {
    var longer := entries[..i] + [e] + entries[i..];
    var lists' := lists[product := longer];
    assert forall f :: f in longer <==> f in entries || f == e by {
      assert entries == entries[..i] + entries[i..];
    }
    forall f ensures f in EntriesOf(lists') <==> f in EntriesOf(lists) || f == e {
      if f in EntriesOf(lists) {
        var p :| p in lists && f in lists[p];
        assert f in lists'[p];
      }
      assert e in lists'[product];
    }
  }

  lemma {:induction false} InsertListsOk(lists: map<string, seq<Entry>>, entries: seq<Entry>, e: Entry, i: nat)
    requires ListsOk(lists) && i <= |entries| && e !in EntriesOf(lists)
    requires entries == if e.terms.product in lists then lists[e.terms.product] else []
    ensures ListsOk(lists[e.terms.product := entries[..i] + [e] + entries[i..]])
  {
    var longer := entries[..i] + [e] + entries[i..];
    assert forall k | 0 <= k < |longer| && k != i :: longer[k] == entries[if k < i then k else k - 1];
    assert forall f | f in entries :: f in EntriesOf(lists);
  }

  lemma {:induction false} ValuesSnoc(entries: seq<Entry>, e: Entry)
    ensures Values(entries + [e]) == Values(entries) + [e.Value()]
  {
  }

  lemma {:induction false} ValuesSplice(entries: seq<Entry>, i: nat, e: Entry)
    requires i <= |entries|
    ensures Values(entries[..i] + [e] + entries[i..]) == Values(entries)[..i] + [e.Value()] + Values(entries)[i..]
  {
    var r := Values(entries[..i] + [e] + entries[i..]);
    var want := Values(entries)[..i] + [e.Value()] + Values(entries)[i..];
    assert |r| == |want|;
    forall k | 0 <= k < |r| ensures r[k] == want[k] {
      if k > i {
        assert want[k] == Values(entries)[k - 1];
      }
    }
  }

  lemma {:induction false} ListValuesUpdate(lists: map<string, seq<Entry>>, product: string, entries: seq<Entry>)
    ensures ListValues(lists[product := entries]) == ListValues(lists)[product := Values(entries)]
  {
  }

  lemma {:induction false} IndexTermsUpdate(index: map<string, seq<Entry>>, user: string, bucket: seq<Entry>)
    ensures IndexTerms(index[user := bucket]) == IndexTerms(index)[user := TermsOf(bucket)]
    ensures IndexTerms(index - {user}) == IndexTerms(index) - {user}
  {
  }

  lemma {:induction false} InsertConsistent(lists: map<string, seq<Entry>>, index: map<string, seq<Entry>>,
                                            entries: seq<Entry>, bucket: seq<Entry>, e: Entry, i: nat)
    requires Consistent(lists, index)
    requires entries == if e.terms.product in lists then lists[e.terms.product] else []
    requires bucket == if e.terms.username in index then index[e.terms.username] else []
    requires i <= |entries| && forall f | f in EntriesOf(lists) :: f.terms.id != e.terms.id
    ensures var lists' := lists[e.terms.product := entries[..i] + [e] + entries[i..]];
      EntriesOf(lists') == EntriesOf(lists) + {e} && Consistent(lists', index[e.terms.username := bucket + [e]])
  {
    InsertEntries(lists, entries, e.terms.product, e, i);
    InsertListsOk(lists, entries, e, i);
  }

  lemma {:induction false} InsertAbstract(lists: map<string, seq<Entry>>, index: map<string, seq<Entry>>,
                                          sales: seq<Order>,
                                          entries: seq<Entry>, bucket: seq<Entry>, e: Entry, i: nat)
    requires entries == if e.terms.product in lists then lists[e.terms.product] else []
    requires bucket == if e.terms.username in index then index[e.terms.username] else []
    requires i <= |entries|
    requires InsertByTime(Values(entries), e.Value()) == Values(entries)[..i] + [e.Value()] + Values(entries)[i..]
    ensures InsertOrder(Book(ListValues(lists), IndexTerms(index), sales), e.Value())
         == Book(ListValues(lists[e.terms.product := entries[..i] + [e] + entries[i..]]),
                 IndexTerms(index[e.terms.username := bucket + [e]]), sales)
  {
    ValuesSplice(entries, i, e);
    ListValuesUpdate(lists, e.terms.product, entries[..i] + [e] + entries[i..]);
    IndexTermsUpdate(index, e.terms.username, bucket + [e]);
    assert TermsOf(bucket + [e]) == TermsOf(bucket) + [e.terms];
  }

  lemma {:induction false} BothInserted(lists: map<string, seq<Entry>>, index: map<string, seq<Entry>>, sales: seq<Order>,
                                        e: Entry, i: nat, lists': map<string, seq<Entry>>, index': map<string, seq<Entry>>)
    requires Consistent(lists, index) && forall f | f in EntriesOf(lists) :: f.terms.id != e.terms.id
    requires (var entries := if e.terms.product in lists then lists[e.terms.product] else [];
      && i <= |entries| && lists' == lists[e.terms.product := entries[..i] + [e] + entries[i..]]
      && InsertByTime(Values(entries), e.Value()) == Values(entries)[..i] + [e.Value()] + Values(entries)[i..])
    requires index' == index[e.terms.username := (if e.terms.username in index then index[e.terms.username] else []) + [e]]
    ensures EntriesOf(lists') == EntriesOf(lists) + {e} && Consistent(lists', index')
    ensures InsertOrder(Book(ListValues(lists), IndexTerms(index), sales), e.Value())
         == Book(ListValues(lists'), IndexTerms(index'), sales)
  {
    var entries := if e.terms.product in lists then lists[e.terms.product] else [];
    var bucket := if e.terms.username in index then index[e.terms.username] else [];
    InsertConsistent(lists, index, entries, bucket, e, i);
    InsertAbstract(lists, index, sales, entries, bucket, e, i);
  }

  lemma {:induction false} WithoutSnoc(entries: seq<Terms>, x: Terms, id: nat)
    ensures Without(entries + [x], id) == Without(entries, id) + (if x.id == id then [] else [x])
  {
    if entries == [] {
      assert [] + [x] == [x] && [x][1..] == [];
    } else {
      assert (entries + [x])[1..] == entries[1..] + [x];
      WithoutSnoc(entries[1..], x, id);
    }
  }

  lemma {:induction false} FirstEntry(entries: seq<Terms>, id: nat, k: nat)
    requires k <= |entries| && forall i | 0 <= i < k :: entries[i].id != id
    requires k < |entries| ==> entries[k].id == id
    ensures FindEntry(entries, id) == k
  {
    var f := FindEntry(entries, id);
  }

  lemma {:induction false} FindInList(entries: seq<Entry>, id: nat)
    ensures FindOrder(Values(entries), id) == FindEntry(TermsOf(entries), id)
  {
  }

  /** What removeOrderById leaves when both the pointer and the order are found. */
  lemma {:induction false} FoundIsErased(b: Book, user: string, id: nat, i: nat, product: string, k: nat)
    requires user in b.index && i < |b.index[user]| && i == FindEntry(b.index[user], id)
    requires product == b.index[user][i].product && product in b.orders
    requires k < |b.orders[product]| && k == FindOrder(b.orders[product], id)
    ensures RemoveById(b, user, id)
         == Some(b.(orders := b.orders[product := RemoveAt(b.orders[product], k)],
                    index := WithBucket(b.index, user, RemoveAt(b.index[user], i))))
  {
  }

  lemma {:induction false} TermsOfDrop(bucket: seq<Entry>, k: nat)
    requires k < |bucket|
    ensures TermsOf(RemoveAt(bucket, k)) == RemoveAt(TermsOf(bucket), k)
    ensures forall e | e in RemoveAt(bucket, k) :: e in bucket
  {
    var r, want := TermsOf(RemoveAt(bucket, k)), RemoveAt(TermsOf(bucket), k);
    assert forall i | 0 <= i < |r| :: r[i] == want[i];
  }

  lemma {:induction false} ValuesDrop(entries: seq<Entry>, k: nat)
    requires k < |entries|
    ensures Values(RemoveAt(entries, k)) == RemoveAt(Values(entries), k)
  {
    var r, want := Values(RemoveAt(entries, k)), RemoveAt(Values(entries), k);
    assert forall i | 0 <= i < |r| :: r[i] == want[i];
  }

  lemma {:induction false} RemoveAtMembers(entries: seq<Entry>, k: nat)
    requires k < |entries| && NoRepeats(entries)
    ensures forall f :: f in RemoveAt(entries, k) <==> f in entries && f != entries[k]
    ensures NoRepeats(RemoveAt(entries, k))
  {
    var fewer := RemoveAt(entries, k);
    assert forall i | 0 <= i < |fewer| :: fewer[i] == entries[if i < k then i else i + 1];
    assert forall i | 0 <= i < |entries| && i != k :: entries[i] == fewer[if i < k then i else i - 1];
  }

  /** Erasing an entry from its list: it leaves the set of entries, and nothing else does. */
  lemma {:induction false} DropEntries(lists: map<string, seq<Entry>>, product: string, k: nat)
    requires ListsOk(lists) && product in lists && k < |lists[product]|
    ensures ListsOk(lists[product := RemoveAt(lists[product], k)])
    ensures EntriesOf(lists[product := RemoveAt(lists[product], k)]) == EntriesOf(lists) - {lists[product][k]}
  {
    var entries := lists[product];
    var e := entries[k];
    var lists' := lists[product := RemoveAt(entries, k)];
    RemoveAtMembers(entries, k);
    assert e in entries;
    forall p, f | p in lists ensures f in lists'[p] <==> f in lists[p] && f != e {
    }
  }

  /** Following a pointer is the same as looking its order up. */
  lemma {:induction false} PointerDerefs(b: Book, lists: map<string, seq<Entry>>, e: Entry)
    requires ListsOk(lists) && IdsDiffer(EntriesOf(lists)) && e in EntriesOf(lists)
    requires b.orders == ListValues(lists)
    ensures Deref(b, e.terms) == [e.Value()]
  {
    var p :| p in lists && e in lists[p];
    var entries := lists[p];
    var k := FindOrder(Values(entries), e.terms.id);
    var i :| 0 <= i < |entries| && entries[i] == e;
    assert Values(entries)[i].terms.id == e.terms.id;
    assert entries[k] in entries && entries[k] in EntriesOf(lists);
  }

  lemma {:induction false} DerefAllSnoc(b: Book, entries: seq<Terms>, x: Terms)
    ensures DerefAll(b, entries + [x]) == DerefAll(b, entries) + Deref(b, x)
  {
    if entries == [] {
      assert [] + [x] == [x] && [x][1..] == [];
    } else {
      assert (entries + [x])[1..] == entries[1..] + [x];
      DerefAllSnoc(b, entries[1..], x);
    }
  }

  /** Distinct objects that hold the orders of a list. */
  ghost predicate Made(list: seq<Order>, entries: seq<Entry>)
    reads set e | e in entries
  {
    NoRepeats(entries) && Values(entries) == list
  }

  lemma {:induction false} MadeTogether(lists: map<string, seq<Order>>, made: map<string, seq<Entry>>,
                                        p: string, q: string, e: Entry, f: Entry)
    requires WellFormed(Book(lists, map[], [])) && p in made && q in made && p in lists && q in lists
    requires Made(lists[p], made[p]) && Made(lists[q], made[q])
    requires e in made[p] && f in made[q] && e.terms.id == f.terms.id
    ensures e == f
  {
    var b := Book(lists, map[], []);
    var i :| 0 <= i < |made[p]| && made[p][i] == e;
    var j :| 0 <= j < |made[q]| && made[q][j] == f;
    assert ListOk(lists[p], p) && ListOk(lists[q], q);
    assert lists[p][i] in lists[p] && lists[p][i].terms == e.terms;
    assert lists[q][j] in lists[q] && lists[q][j].terms == f.terms;
    assert Live(b, e.terms) && Live(b, f.terms);
  }

  lemma {:induction false} MadeIsValid(lists: map<string, seq<Order>>, made: map<string, seq<Entry>>)
    requires WellFormed(Book(lists, map[], [])) && made.Keys == lists.Keys
    requires forall p | p in made :: Made(lists[p], made[p])
    ensures Consistent(made, map[]) && Book(ListValues(made), IndexTerms(map[]), []) == Book(lists, map[], [])
  {
    forall p, e | p in made && e in made[p] ensures e.terms.product == p {
      var i :| 0 <= i < |made[p]| && made[p][i] == e;
      assert ListOk(lists[p], p) && lists[p][i] in lists[p];
    }
    forall e, f | e in EntriesOf(made) && f in EntriesOf(made) && e.terms.id == f.terms.id ensures e == f {
      var p :| p in made && e in made[p];
      var q :| q in made && f in made[q];
      MadeTogether(lists, made, p, q, e, f);
    }
  }

  /** What std::remove_if keeps. */
  ghost predicate KeptOf(kept: seq<Entry>, entries: seq<Entry>, id: nat) {
    && TermsOf(kept) == Without(TermsOf(entries), id)
    && (forall e | e in kept :: e in entries && e.terms.id != id)
    && (forall e | e in entries && e.terms.id != id :: e in kept)
    && (NoRepeats(entries) ==> NoRepeats(kept))
  }

  lemma {:induction false} TermsSnoc(entries: seq<Entry>, e: Entry)
    ensures TermsOf(entries + [e]) == TermsOf(entries) + [e.terms]
  {
  }

  lemma {:induction false} KeepTerms(kept: seq<Entry>, entries: seq<Entry>, e: Entry, id: nat)
    requires TermsOf(kept) == Without(TermsOf(entries), id)
    ensures TermsOf(if e.terms.id != id then kept + [e] else kept) == Without(TermsOf(entries + [e]), id)
  {
    TermsSnoc(entries, e);
    TermsSnoc(kept, e);
    WithoutSnoc(TermsOf(entries), e.terms, id);
    assert TermsOf(kept) + [] == TermsOf(kept);
  }

  lemma {:induction false} SnocNoRepeats(kept: seq<Entry>, entries: seq<Entry>, e: Entry)
    requires NoRepeats(entries) ==> NoRepeats(kept)
    requires (forall f | f in kept :: f in entries) && NoRepeats(entries + [e])
    ensures NoRepeats(kept + [e]) && NoRepeats(kept)
  {
    PrefixNoRepeats(entries, e);
  }

  lemma {:induction false} KeepOneMore(kept: seq<Entry>, entries: seq<Entry>, e: Entry, id: nat, kept': seq<Entry>)
    requires KeptOf(kept, entries, id) && kept' == if e.terms.id != id then kept + [e] else kept
    ensures KeptOf(kept', entries + [e], id)
  {
    KeepTerms(kept, entries, e, id);
    if NoRepeats(entries + [e]) {
      SnocNoRepeats(kept, entries, e);
    }
  }

  lemma {:induction false} PrefixNoRepeats(entries: seq<Entry>, e: Entry)
    requires NoRepeats(entries + [e])
    ensures NoRepeats(entries) && e !in entries
  {
    var longer := entries + [e];
    assert longer[|entries|] == e;
    assert forall i | 0 <= i < |entries| :: longer[i] == entries[i];
  }

  /** Erasing one entry from its list and from its owner's bucket. */
  lemma {:induction false} BothErased(lists: map<string, seq<Entry>>, index: map<string, seq<Entry>>,
                                      user: string, i: nat, product: string, k: nat)
    requires Consistent(lists, index) && user in index && i < |index[user]|
    requires product in lists && k < |lists[product]| && lists[product][k] == index[user][i]
    ensures var fewer := RemoveAt(index[user], i);
      var lists' := lists[product := RemoveAt(lists[product], k)];
      var index' := if fewer == [] then index - {user} else index[user := fewer];
      && Consistent(lists', index') && EntriesOf(lists') <= EntriesOf(lists)
      && IndexTerms(index') == WithBucket(IndexTerms(index), user, RemoveAt(TermsOf(index[user]), i))
  {
    var bucket := index[user];
    var fewer := RemoveAt(bucket, i);
    DropEntries(lists, product, k);
    TermsOfDrop(bucket, i);
    IndexTermsUpdate(index, user, fewer);
    assert forall j | 0 <= j < |fewer| :: fewer[j] == bucket[if j < i then j else j + 1];
    OtherBuckets(index, EntriesOf(lists), user, i);
  }

  /** No other bucket holds the entry: buckets hold their own user's entries. */
  lemma {:induction false} OtherBuckets(index: map<string, seq<Entry>>, entries: set<Entry>, user: string, i: nat)
    requires PointsInto(index, entries) && user in index && i < |index[user]|
    ensures forall u | u in index && u != user :: index[user][i] !in index[u]
    ensures index[user][i] !in RemoveAt(index[user], i)
  {
    var e := index[user][i];
    assert e in index[user];
    assert forall j | 0 <= j < |RemoveAt(index[user], i)| ::
      RemoveAt(index[user], i)[j] == index[user][if j < i then j else j + 1];
  }

  class OrderBook {
    var orderMap: map<string, seq<Entry>>
    var userOrders: map<string, seq<Entry>>
    var finalizedSales: seq<Order>

    ghost function Entries(): set<Entry>
      reads this
    {
      EntriesOf(orderMap)
    }

    ghost predicate Valid()
      reads this
    {
      Consistent(orderMap, userOrders)
    }

    /** The book as a value. */
    ghost function Abstract(): Book
      reads this, Entries()
    {
      Book(ListValues(orderMap), IndexTerms(userOrders), finalizedSales)
    }

    /** A book over the lists of a CSV file. */
    constructor (lists: map<string, seq<Order>>)
      requires WellFormed(Book(lists, map[], []))
      ensures Valid() && fresh(Entries()) && Abstract() == Book(lists, map[], [])
    {
      orderMap, userOrders, finalizedSales := map[], map[], [];
      new;
      var made := NewLists(lists);
      orderMap := made;
      MadeIsValid(lists, made);
    }

    static method NewLists(lists: map<string, seq<Order>>) returns (made: map<string, seq<Entry>>)
      ensures made.Keys == lists.Keys && forall p | p in made :: Made(lists[p], made[p])
      ensures forall e | e in EntriesOf(made) :: fresh(e)
    {
      made := map[];
      var todo := lists.Keys;
      while todo != {}
        invariant todo <= lists.Keys && made.Keys == lists.Keys - todo
        invariant forall p | p in made :: Made(lists[p], made[p])
        invariant forall p, e | p in made && e in made[p] :: fresh(e)
      {
        var p :| p in todo;
        var entries := NewEntries(lists[p]);
        made := made[p := entries];
        todo := todo - {p};
      }
    }

    static method NewEntries(list: seq<Order>) returns (entries: seq<Entry>)
      ensures Made(list, entries) && forall e | e in entries :: fresh(e)
    {
      entries := [];
      for k := 0 to |list|
        invariant Made(list[..k], entries) && forall e | e in entries :: fresh(e)
      {
        TakeOneMore(list, k);
        var e := new Entry(list[k]);
        ValuesSnoc(entries, e);
        entries := entries + [e];
      }
      assert list[..|list|] == list;
    }

    /** Where a new order goes in a list: at the back, or past every later entry from the back. */
    static method FindPlace(entries: seq<Entry>, order: Order) returns (i: nat)
      ensures i <= |entries|
      ensures InsertByTime(Values(entries), order) == Values(entries)[..i] + [order] + Values(entries)[i..]
    {
      ghost var orders := Values(entries);
      i := |entries|;
      ScanStarts(orders, order);
      if i == 0 || NotAfter(entries[i - 1].terms.timestamp, order.terms.timestamp) {
        ScanStops(orders, i, order);
        return;
      }
      i := ScanBack(entries, order);
      ScanStops(orders, i, order);
    }

    /** The reverse scan. */
    static method ScanBack(entries: seq<Entry>, order: Order) returns (i: nat)
      ensures i <= |entries| && (i > 0 ==> Before(Values(entries)[i - 1], order))
      ensures InsertedAmong(Values(entries), i, order) == InsertByTime(Values(entries), order)
    {
      ghost var orders := Values(entries);
      i := |entries|;
      ScanStarts(orders, order);
      while i > 0 && !NotAfter(entries[i - 1].terms.timestamp, order.terms.timestamp)
        invariant 0 <= i <= |entries|
        invariant InsertedAmong(orders, i, order) == InsertByTime(orders, order)
      {
        ScanPasses(orders, i, order);
        i := i - 1;
      }
    }

    /** The new entry goes into its list at i, and into its user's bucket. */
    method Link(e: Entry, entries: seq<Entry>, i: nat)
      requires Valid() && forall f | f in Entries() :: f.terms.id != e.terms.id
      requires entries == if e.terms.product in orderMap then orderMap[e.terms.product] else []
      requires i <= |entries|
      requires InsertByTime(Values(entries), e.Value()) == Values(entries)[..i] + [e.Value()] + Values(entries)[i..]
      modifies this
      ensures Valid() && Entries() == old(Entries()) + {e}
      ensures Abstract() == InsertOrder(old(Abstract()), e.Value())
    {
      var product, user := e.terms.product, e.terms.username;
      var bucket := if user in userOrders then userOrders[user] else [];
      var lists, index := orderMap[product := entries[..i] + [e] + entries[i..]], userOrders[user := bucket + [e]];
      BothInserted(orderMap, userOrders, finalizedSales, e, i, lists, index);
      SetMaps(lists, index);
    }

    /** New lists and a new index; the entries stay as they are. */
    method SetMaps(lists: map<string, seq<Entry>>, index: map<string, seq<Entry>>)
      modifies this
      ensures orderMap == lists && userOrders == index
      ensures Abstract() == old(Book(ListValues(lists), IndexTerms(index), finalizedSales))
    {
      orderMap, userOrders := lists, index;
    }

    /** insertOrder. The id comes from the entry's constructor, so it is new. */
    method InsertNewOrder(order: Order)
      requires Valid() && forall e | e in Entries() :: e.terms.id != order.terms.id
      modifies this
      ensures Valid() && fresh(Entries() - old(Entries()))
      ensures Abstract() == InsertOrder(old(Abstract()), order)
    {
      var entries := if order.terms.product in orderMap then orderMap[order.terms.product] else [];
      var i := FindPlace(entries, order);
      var e := new Entry(order);
      Link(e, entries, i);
    }

    /** std::find_if over pointers or list entries: the position of the first with this id. */
    static method FindById(entries: seq<Entry>, id: nat) returns (k: nat)
      ensures k == FindEntry(TermsOf(entries), id)
    {
      k := 0;
      while k < |entries| && entries[k].terms.id != id
        invariant 0 <= k <= |entries|
        invariant forall i | 0 <= i < k :: entries[i].terms.id != id
      {
        k := k + 1;
      }
      FirstEntry(TermsOf(entries), id, k);
    }

    /** std::remove_if over pointers: the entries with another id, in order. */
    static method KeepOthers(entries: seq<Entry>, id: nat) returns (kept: seq<Entry>)
      ensures KeptOf(kept, entries, id)
    {
      kept := [];
      var k := 0;
      ghost var taken: seq<Entry> := [];
      while k < |entries|
        invariant 0 <= k <= |entries|
        invariant taken == entries[..k] && KeptOf(kept, taken, id)
      {
        TakeOneMore(entries, k);
        ghost var before := kept;
        if entries[k].terms.id != id {
          kept := kept + [entries[k]];
        }
        KeepOneMore(before, taken, entries[k], id, kept);
        taken := taken + [entries[k]];
        k := k + 1;
      }
      assert taken == entries;
    }

    /** removeFromUserIndex. */
    method RemoveFromUserIndex(user: string, id: nat)
      modifies this`userOrders
      ensures IndexTerms(userOrders) == Unindex(old(IndexTerms(userOrders)), user, id)
      ensures forall u | u in userOrders ::
        (u in old(userOrders) && (NoRepeats(old(userOrders)[u]) ==> NoRepeats(userOrders[u]))
         && forall e | e in userOrders[u] :: e in old(userOrders)[u] && (u == user ==> e.terms.id != id))
    {
      if user in userOrders {
        var kept := KeepOthers(userOrders[user], id);
        IndexTermsUpdate(userOrders, user, kept);
        if kept == [] {
          assert TermsOf(kept) == [];
          userOrders := userOrders - {user};
        } else {
          userOrders := userOrders[user := kept];
        }
      }
    }

    /** One erasure of the purge loop: the index entry first, then the order itself. */
    method DropAt(product: string, k: nat)
      requires Valid() && product in orderMap && k < |orderMap[product]|
      modifies this
      ensures Valid() && Abstract() == Drop(old(Abstract()), product, k)
      ensures orderMap == old(orderMap)[product := RemoveAt(old(orderMap)[product], k)]
      ensures Entries() <= old(Entries())
    {
      var e := orderMap[product][k];
      DropEntries(orderMap, product, k);
      ValuesDrop(orderMap[product], k);
      ListValuesUpdate(orderMap, product, RemoveAt(orderMap[product], k));
      assert e in orderMap[product];
      RemoveFromUserIndex(e.terms.username, e.terms.id);
      orderMap := orderMap[product := RemoveAt(orderMap[product], k)];
    }

    /** removeMatchedOrders. */
    method RemoveMatchedOrders(product: string)
      requires Valid()
      modifies this
      ensures Valid() && Abstract() == RemoveMatched(old(Abstract()), product, 0)
      ensures Entries() <= old(Entries())
    {
      if product !in orderMap {
        return;
      }
      var k := 0;
      while k < |orderMap[product]|
        invariant Valid() && product in orderMap && k <= |orderMap[product]|
        invariant RemoveMatched(Abstract(), product, k) == RemoveMatched(old(Abstract()), product, 0)
        invariant Entries() <= old(Entries())
        decreases |orderMap[product]| - k
      {
        if orderMap[product][k].amount <= 0.0 {
          DropAt(product, k);
        } else {
          k := k + 1;
        }
      }
    }

    /** removeOrderById. */
    method RemoveOrderById(user: string, id: nat) returns (found: bool)
      requires Valid()
      modifies this
      ensures Valid() && Entries() <= old(Entries())
      ensures found <==> RemoveById(old(Abstract()), user, id).Some?
      ensures Abstract() == RemoveById(old(Abstract()), user, id).GetOr(old(Abstract()))
    {
      if user !in userOrders {
        return false;
      }
      var bucket := userOrders[user];
      var i := FindById(bucket, id);
      if i == |bucket| {
        return false;
      }
      var product := bucket[i].terms.product;
      if product !in orderMap {
        return false;
      }
      var k := FindById(orderMap[product], id);
      FindInList(orderMap[product], id);
      if k == |orderMap[product]| {
        return false;
      }
      assert bucket[i] in bucket && orderMap[product][k] in orderMap[product];
      FoundIsErased(Abstract(), user, id, i, product, k);
      RemoveBoth(user, i, product, k);
      return true;
    }

    /** The two erasures of removeOrderById, once both positions are found. */
    method RemoveBoth(user: string, i: nat, product: string, k: nat)
      requires Valid() && user in userOrders && i < |userOrders[user]|
      requires product in orderMap && k < |orderMap[product]| && orderMap[product][k] == userOrders[user][i]
      modifies this
      ensures Valid() && Entries() <= old(Entries())
      ensures ListValues(orderMap)
           == old(ListValues(orderMap))[product := RemoveAt(old(Values(orderMap[product])), k)]
      ensures IndexTerms(userOrders)
           == WithBucket(old(IndexTerms(userOrders)), user, RemoveAt(old(TermsOf(userOrders[user])), i))
      ensures finalizedSales == old(finalizedSales)
    {
      var fewer := RemoveAt(userOrders[user], i);
      BothErased(orderMap, userOrders, user, i, product, k);
      ValuesDrop(orderMap[product], k);
      ListValuesUpdate(orderMap, product, RemoveAt(orderMap[product], k));
      orderMap := orderMap[product := RemoveAt(orderMap[product], k)];
      userOrders := if fewer == [] then userOrders - {user} else userOrders[user := fewer];
    }

    /** getKnownProducts, in whatever order the map is iterated. */
    method GetKnownProducts() returns (products: seq<string>)
      ensures NoDuplicates(products) && forall p :: p in products <==> p in orderMap
    {
      products := [];
      var todo := orderMap.Keys;
      while todo != {}
        invariant todo <= orderMap.Keys
        invariant NoDuplicates(products) && forall p :: p in products <==> p in orderMap && p !in todo
      {
        var p :| p in todo;
        products := products + [p];
        todo := todo - {p};
      }
    }

    /** getAllOrders: copies, list by list, in whatever order the map is iterated. */
    method GetAllOrders() returns (all: seq<Order>)
      ensures ListByList(all, Abstract().orders)
    {
      var products := GetKnownProducts();
      all := [];
      for k := 0 to |products|
        invariant all == AllOrders(ListValues(orderMap), products[..k])
      {
        TakeOneMore(products, k);
        AllOrdersSnoc(ListValues(orderMap), products[..k], products[k]);
        all := all + Values(orderMap[products[k]]);
      }
      assert products[..|products|] == products;
    }

    /** getOrdersForUser: copies of what the user's pointers point at. */
    method GetOrdersForUser(user: string) returns (orders: seq<Order>)
      requires Valid()
      ensures orders == OrdersForUser(Abstract(), user)
    {
      orders := [];
      if user !in userOrders {
        return;
      }
      var bucket := userOrders[user];
      var k := 0;
      while k < |bucket|
        invariant 0 <= k <= |bucket|
        invariant orders == DerefAll(Abstract(), TermsOf(bucket)[..k])
      {
        TakeOneMore(TermsOf(bucket), k);
        DerefAllSnoc(Abstract(), TermsOf(bucket)[..k], bucket[k].terms);
        assert bucket[k] in bucket;
        PointerDerefs(Abstract(), orderMap, bucket[k]);
        orders := orders + [bucket[k].Value()];
        k := k + 1;
      }
      assert TermsOf(bucket)[..k] == TermsOf(bucket);
    }

    /** getOrders for one side: pointers to its entries, in list order. */
    method GetOrders(product: string, side: OrderType) returns (found: seq<Entry>)
      requires Valid()
      ensures Values(found) == Side(ListOf(Abstract(), product), side)
      ensures NoRepeats(found) && forall e | e in found ::
        e.terms.orderType == side && product in orderMap && e in orderMap[product]
    {
      found := [];
      if product !in orderMap {
        return;
      }
      found := OfSide(orderMap[product], side);
    }

    /** One side of a product, sorted by price. */
    method SortedSide(product: string, side: OrderType) returns (sorted: seq<Entry>)
      requires Valid()
      ensures multiset(Values(sorted)) == multiset(Side(ListOf(Abstract(), product), side))
      ensures SideOf(orderMap, product, sorted, side)
    {
      var found := GetOrders(product, side);
      sorted := SortByPrice(found, side);
    }

    /** The sides of a product, as the pass sorts them. */
    method SortedSides(product: string) returns (asks: seq<Entry>, bids: seq<Entry>)
      requires Valid()
      ensures Ranked(ListOf(Abstract(), product), Values(asks), Values(bids))
      ensures SideOf(orderMap, product, asks, Ask) && SideOf(orderMap, product, bids, Bid)
    {
      bids := SortedSide(product, Bid);
      asks := SortedSide(product, Ask);
    }

    /** The two loops of the pass, before anything is recorded or purged: amounts and wallets change,
        the lists and the index do not. Booked are the fills whose amounts were sliced: all trades,
        unless an exception ended the pass. */
    method MakeFills(product: string, now: string, store: UserStore, ids: IdSource, ghost b: Book)
      returns (sales: seq<Order>, error: Option<Error>, ghost trades: seq<Trade>, ghost booked: seq<Trade>)
      requires Valid() && store.Valid() && b == Abstract()
      modifies Entries(), store, store.WalletSet(), ids
      ensures store.Valid()
      ensures IsPass(ListOf(b, product), trades)
      ensures Posting(store.Accounts(), error) == SettleAll(old(store.Accounts()), trades)
      ensures booked == Reached(old(store.Accounts()), trades)
      ensures sales == SalesOf(booked, product, now, old(ids.nextId)) && ids.nextId == old(ids.nextId) + |booked|
      ensures Abstract() == Booked(b, product, booked, [])
    {
      var asks, bids := SortedSides(product);
      sales, error, trades, booked := RunSides(orderMap, asks, bids, product, now, store, ids);
      BookedFills(b, product, booked, []);
    }

    /** The end of a pass: insertSales, then the purge. */
    method RecordAndPurge(product: string, sales: seq<Order>, ghost store: UserStore)
      requires Valid()
      modifies this
      ensures Valid() && store.Accounts() == old(store.Accounts())
      ensures Abstract() == RemoveMatched(old(Abstract()).(sales := old(finalizedSales) + sales), product, 0)
    {
      ghost var b := Abstract().(sales := finalizedSales + sales);
      finalizedSales := finalizedSales + sales;
      assert Abstract() == b;
      RemoveMatchedOrders(product);
    }

    /** matchAsksToBids. When a fill throws, what came before it stands: wallets and amounts keep
        the fills made so far, nothing is recorded and nothing is purged. */
    method MatchAsksToBids(product: string, now: string, store: UserStore, ids: IdSource)
      returns (sales: seq<Order>, error: Option<Error>, ghost trades: seq<Trade>, ghost booked: seq<Trade>)
      requires Valid() && store.Valid()
      modifies this, Entries(), store, store.WalletSet(), ids
      ensures Valid() && store.Valid()
      ensures IsPass(ListOf(old(Abstract()), product), trades)
      ensures Posting(store.Accounts(), error) == SettleAll(old(store.Accounts()), trades)
      ensures booked == Reached(old(store.Accounts()), trades) && (error.None? ==> booked == trades)
      ensures sales == SalesOf(booked, product, now, old(ids.nextId)) && ids.nextId == old(ids.nextId) + |booked|
      ensures |sales| == |booked|
      ensures forall k | 0 <= k < |sales| ::
        sales[k] == Order(Terms(booked[k].ask.price, now, product, Sale, DEFAULT_USER, old(ids.nextId) + k), booked[k].qty)
      ensures error.None? ==> Abstract() == AfterPass(old(Abstract()), product, trades, sales)
      ensures error.Some? ==> Abstract() == Booked(old(Abstract()), product, booked, [])
    {
      ghost var b, l := Abstract(), store.Accounts();
      sales, error, trades, booked := MakeFills(product, now, store, ids, b);
      ReachedIsPrefix(l, trades);
      SalesHold(booked, product, now, old(ids.nextId));
      if error.None? {
        BookedThenRecorded(b, product, booked, sales);
        RecordAndPurge(product, sales, store);
      }
    }
  }

  // ---- the pass, seen from the whole book ----

  /** One side of a product's list, in price order. */
  ghost predicate SideOf(lists: map<string, seq<Entry>>, product: string, entries: seq<Entry>, side: OrderType)
    reads set e | e in entries
  {
    && NoRepeats(entries) && InRank(Values(entries), side)
    && forall e | e in entries :: e.terms.orderType == side && product in lists && e in lists[product]
  }

  function WithFills(lists: map<string, seq<Order>>, product: string, trades: seq<Trade>): map<string, seq<Order>> {
    if product in lists then lists[product := Apply(lists[product], trades)] else lists
  }

  lemma {:induction false} SidesAreLined(lists: map<string, seq<Entry>>, product: string,
                                         asks: seq<Entry>, bids: seq<Entry>, start: Start)
    requires ListsOk(lists) && IdsDiffer(EntriesOf(lists)) && start.amounts.Keys == EntriesOf(lists)
    requires SideOf(lists, product, asks, Ask) && SideOf(lists, product, bids, Bid)
    ensures BothLined(asks, bids, product, start)
  {
    forall e | e in asks || e in bids ensures e in start.amounts && e.terms.product == product {
      assert e in lists[product];
    }
    PricesOfValues(asks, Ask);
    PricesOfValues(bids, Bid);
  }

  lemma {:induction false} PricesOfValues(entries: seq<Entry>, side: OrderType)
    requires InRank(Values(entries), side)
    ensures forall i, j | 0 <= i < j < |entries| :: Ranks(entries[i].terms.price, entries[j].terms.price, side)
  {
    var orders := Values(entries);
    forall i, j | 0 <= i < j < |entries| ensures Ranks(entries[i].terms.price, entries[j].terms.price, side) {
      assert Ranks(orders[i].terms.price, orders[j].terms.price, side);
    }
  }

  /** No order of another product is filled. */
  ghost predicate OnlyFills(trades: seq<Trade>, product: string) {
    forall t | t in trades :: t.ask.product == product && t.bid.product == product
  }

  lemma {:induction false} OthersUntouched(asks: seq<Entry>, bids: seq<Entry>, product: string, start: Start,
                                           askValues: seq<Order>, bidValues: seq<Order>)
    requires BothLined(asks, bids, product, start)
    requires TermsMatch(asks, askValues) && TermsMatch(bids, bidValues)
    ensures OnlyFills(Merge(askValues, bidValues), product)
  {
    SidesLined(asks, bids, product, start, askValues, bidValues);
    MergeTrades(askValues, bidValues);
    forall t | t in Merge(askValues, bidValues) ensures t.ask.product == product && t.bid.product == product {
      var a :| 0 <= a < |askValues| && askValues[a].terms == t.ask;
      var b :| 0 <= b < |bidValues| && bidValues[b].terms == t.bid;
      assert asks[a] in asks && bids[b] in bids;
    }
  }

  /** A list of entries and the amounts they had, as values. */
  ghost predicate Snapshot(lists: map<string, seq<Entry>>, amounts: map<Entry, real>, before: map<string, seq<Order>>) {
    before.Keys == lists.Keys && forall p | p in lists :: ListSnapshot(lists[p], amounts, before[p])
  }

  ghost predicate ListSnapshot(entries: seq<Entry>, amounts: map<Entry, real>, before: seq<Order>) {
    && |before| == |entries|
    && (forall k | 0 <= k < |entries| :: entries[k] in amounts && before[k] == Order(entries[k].terms, amounts[entries[k]]))
  }

  lemma {:induction false} TakeSnapshot(lists: map<string, seq<Entry>>, amounts: map<Entry, real>,
                                        before: map<string, seq<Order>>)
    requires amounts.Keys == EntriesOf(lists) && forall e | e in amounts :: amounts[e] == e.amount
    requires before == ListValues(lists)
    ensures Snapshot(lists, amounts, before)
  {
    forall p | p in lists ensures ListSnapshot(lists[p], amounts, Values(lists[p])) {
      forall k | 0 <= k < |lists[p]| ensures lists[p][k] in amounts {
        assert lists[p][k] in lists[p];
      }
    }
  }

  lemma {:induction false} ListWithFills(entries: seq<Entry>, start: Start, before: seq<Order>, booked: seq<Trade>)
    requires ListSnapshot(entries, start.amounts, before) && AmountsKept(start, booked)
    ensures Values(entries) == Apply(before, booked)
  {
  }

  lemma {:induction false} NotFilled(entries: seq<Order>, trades: seq<Trade>)
    requires forall o, t | o in entries && t in trades :: t.ask != o.terms && t.bid != o.terms
    ensures Apply(entries, trades) == entries
  {
    forall k | 0 <= k < |entries| ensures Apply(entries, trades)[k] == entries[k] {
      assert entries[k] in entries;
      UntouchedNotFilled(trades, entries[k].terms);
    }
  }

  /** Entries whose amounts lost what was filled of them are the list with the fills applied. */
  lemma {:induction false} SnapshotWithFills(lists: map<string, seq<Entry>>, before: map<string, seq<Order>>,
                                             start: Start, booked: seq<Trade>, product: string)
    requires ListsOk(lists) && Snapshot(lists, start.amounts, before)
    requires AmountsKept(start, booked) && OnlyFills(booked, product)
    ensures ListValues(lists) == WithFills(before, product, booked)
  {
    forall p | p in lists ensures Values(lists[p]) == WithFills(before, product, booked)[p] {
      ListWithFills(lists[p], start, before[p], booked);
      if p != product {
        forall o | o in before[p] ensures o.terms.product == p {
          var k :| 0 <= k < |before[p]| && before[p][k] == o;
          assert lists[p][k] in lists[p];
        }
        NotFilled(before[p], booked);
      }
    }
  }

  /** What holds when the loops of a pass start. */
  lemma {:induction false} PassStarts(lists: map<string, seq<Entry>>, product: string,
                                      asks: seq<Entry>, bids: seq<Entry>, start: Start)
    requires ListsOk(lists) && IdsDiffer(EntriesOf(lists))
    requires start.amounts.Keys == EntriesOf(lists) && forall e | e in start.amounts :: start.amounts[e] == e.amount
    requires SideOf(lists, product, asks, Ask) && SideOf(lists, product, bids, Bid)
    ensures BothLined(asks, bids, product, start) && OnlyFills(Ahead(asks, bids), product)
    ensures AmountsKept(start, [])
  {
    SidesAreLined(lists, product, asks, bids, start);
    OthersUntouched(asks, bids, product, start, Values(asks), Values(bids));
  }

  /** What the loops leave behind when they end. */
  lemma {:induction false} PassEnds(lists: map<string, seq<Entry>>, before: map<string, seq<Order>>, start: Start,
                                    fills: seq<Trade>, booked: seq<Trade>, trades: seq<Trade>,
                                    error: Option<Error>, product: string)
    requires ListsOk(lists) && Snapshot(lists, start.amounts, before) && OnlyFills(trades, product)
    requires booked == Reached(start.ledger, fills) && AmountsKept(start, booked)
    requires fills <= trades && (error.None? ==> fills == trades)
    ensures SettleAll(start.ledger, fills).error == error ==>
      SettleAll(start.ledger, trades) == SettleAll(start.ledger, fills) && booked == Reached(start.ledger, trades)
    ensures ListValues(lists) == WithFills(before, product, booked)
  {
    BookedIsReached(start.ledger, fills, trades, error);
    ReachedIsPrefix(start.ledger, fills);
    assert forall t | t in booked :: t in trades;
    SnapshotWithFills(lists, before, start, booked, product);
  }

  /** The loops over both sides, against the lists they belong to. */
  method RunSides(ghost lists: map<string, seq<Entry>>, asks: seq<Entry>, bids: seq<Entry>, product: string, now: string,
                  store: UserStore, ids: IdSource)
    returns (sales: seq<Order>, error: Option<Error>, ghost trades: seq<Trade>, ghost booked: seq<Trade>)
    requires ListsOk(lists) && IdsDiffer(EntriesOf(lists)) && store.Valid()
    requires SideOf(lists, product, asks, Ask) && SideOf(lists, product, bids, Bid)
    modifies EntriesOf(lists), store, store.WalletSet(), ids
    ensures store.Valid() && trades == old(Ahead(asks, bids))
    ensures Posting(store.Accounts(), error) == SettleAll(old(store.Accounts()), trades)
    ensures booked == Reached(old(store.Accounts()), trades)
    ensures sales == SalesOf(booked, product, now, old(ids.nextId)) && ids.nextId == old(ids.nextId) + |booked|
    ensures ListValues(lists) == WithFills(old(ListValues(lists)), product, booked)
  {
    ghost var start := Start(store.Accounts(), ids.nextId, map e | e in EntriesOf(lists) :: e.amount);
    ghost var before := ListValues(lists);
    trades := Ahead(asks, bids);
    TakeSnapshot(lists, start.amounts, before);
    PassStarts(lists, product, asks, bids, start);
    ghost var fills;
    sales, error, fills, booked := RunAsks(asks, bids, product, now, store, ids, start);
    PassEnds(lists, before, start, fills, booked, trades, error, product);
  }

  lemma {:induction false} BookedFills(b: Book, product: string, trades: seq<Trade>, sales: seq<Order>)
    ensures Booked(b, product, trades, sales)
         == Book(WithFills(b.orders, product, trades), b.index, b.sales + sales)
    ensures sales == [] ==> b.sales + sales == b.sales
  {
  }

  lemma {:induction false} BookedThenRecorded(b: Book, product: string, trades: seq<Trade>, sales: seq<Order>)
    ensures var b' := Booked(b, product, trades, []);
      b'.(sales := b'.sales + sales) == Booked(b, product, trades, sales)
  {
    assert b.sales + [] == b.sales;
  }

  lemma {:induction false} BookedIsReached(l: Ledger, fills: seq<Trade>, trades: seq<Trade>, error: Option<Error>)
    requires fills <= trades && (error.None? ==> fills == trades)
    ensures SettleAll(l, fills).error == error ==>
      SettleAll(l, trades) == SettleAll(l, fills) && Reached(l, trades) == Reached(l, fills)
  {
    assert trades == fills + trades[|fills|..];
    SettleAllAppends(l, fills, trades[|fills|..]);
    ReachedAppends(l, fills, trades[|fills|..]);
    assert Reached(l, fills) + [] == Reached(l, fills);
  }

  method OfSide(entries: seq<Entry>, side: OrderType) returns (found: seq<Entry>)
    requires NoRepeats(entries)
    ensures Values(found) == Side(Values(entries), side)
    ensures NoRepeats(found) && forall e | e in found :: e.terms.orderType == side && e in entries
  {
    found := [];
    var k := 0;
    while k < |entries|
      invariant 0 <= k <= |entries|
      invariant Values(found) == Side(Values(entries)[..k], side)
      invariant NoRepeats(found)
      invariant forall e | e in found :: e.terms.orderType == side && e in entries[..k]
    {
      TakeOneMore(entries, k);
      TakeOneMore(Values(entries), k);
      SideSnoc(Values(entries)[..k], entries[k].Value(), side);
      if entries[k].terms.orderType == side {
        ValuesSnoc(found, entries[k]);
        found := found + [entries[k]];
      }
      k := k + 1;
    }
    assert Values(entries)[..k] == Values(entries);
  }

  lemma {:induction false} SideSnoc(orders: seq<Order>, o: Order, side: OrderType)
    ensures Side(orders + [o], side) == Side(orders, side) + (if o.terms.orderType == side then [o] else [])
  {
    if orders == [] {
      assert [] + [o] == [o] && [o][1..] == [];
    } else {
      assert (orders + [o])[1..] == orders[1..] + [o];
      SideSnoc(orders[1..], o, side);
      var head := if orders[0].terms.orderType == side then [orders[0]] else [];
      var last := if o.terms.orderType == side then [o] else [];
      assert head + (Side(orders[1..], side) + last) == head + Side(orders[1..], side) + last;
    }
  }

  // ---- std::sort ----

  method FindRank(sorted: seq<Entry>, e: Entry, side: OrderType) returns (i: nat)
    ensures i <= |sorted|
    ensures forall j | i <= j < |sorted| :: Ranks(e.terms.price, sorted[j].terms.price, side)
    ensures i > 0 ==> Ranks(sorted[i - 1].terms.price, e.terms.price, side)
  {
    i := |sorted|;
    while i > 0 && !Ranks(sorted[i - 1].terms.price, e.terms.price, side)
      invariant 0 <= i <= |sorted|
      invariant forall j | i <= j < |sorted| :: Ranks(e.terms.price, sorted[j].terms.price, side)
    {
      i := i - 1;
    }
  }

  /** One more entry goes to its place by price. */
  method RankIn(sorted: seq<Entry>, ghost taken: seq<Entry>, e: Entry, side: OrderType) returns (more: seq<Entry>)
    requires SortedSoFar(sorted, taken, side) && e !in taken
    ensures SortedSoFar(more, taken + [e], side)
  {
    var i := FindRank(sorted, e, side);
    SortOneMore(sorted, taken, i, e, side);
    more := Splice(sorted, i, e);
  }

  /** What is promised of std::sort: a permutation in price order. Where equal prices end up is
      this body's business and no caller's. */
  method SortByPrice(entries: seq<Entry>, side: OrderType) returns (sorted: seq<Entry>)
    requires NoRepeats(entries)
    ensures InRank(Values(sorted), side) && NoRepeats(sorted)
    ensures multiset(Values(sorted)) == multiset(Values(entries))
    ensures forall e :: e in sorted <==> e in entries
  {
    sorted := [];
    var k := 0;
    while k < |entries|
      invariant 0 <= k <= |entries|
      invariant SortedSoFar(sorted, entries[..k], side)
    {
      var e := entries[k];
      TakeOneMore(entries, k);
      sorted := RankIn(sorted, entries[..k], e, side);
      k := k + 1;
    }
    assert entries[..k] == entries;
  }

  ghost predicate SortedSoFar(sorted: seq<Entry>, taken: seq<Entry>, side: OrderType)
    reads set e | e in sorted + taken
  {
    && InRank(Values(sorted), side) && NoRepeats(sorted)
    && multiset(Values(sorted)) == multiset(Values(taken))
    && (forall e | e in sorted :: e in taken) && (forall e | e in taken :: e in sorted)
  }

  lemma {:induction false} SortOneMore(sorted: seq<Entry>, taken: seq<Entry>, i: nat, e: Entry, side: OrderType)
    requires SortedSoFar(sorted, taken, side) && e !in taken && i <= |sorted|
    requires forall j | i <= j < |sorted| :: Ranks(e.terms.price, sorted[j].terms.price, side)
    requires i > 0 ==> Ranks(sorted[i - 1].terms.price, e.terms.price, side)
    ensures SortedSoFar(Splice(sorted, i, e), taken + [e], side)
  {
    SpliceMembers(sorted, i, e);
    SpliceCounts(sorted, i, e);
    SpliceRanked(sorted, i, e, side);
    ValuesSnoc(taken, e);
  }

  function Splice<T>(s: seq<T>, i: nat, x: T): seq<T>
    requires i <= |s|
  {
    s[..i] + [x] + s[i..]
  }

  lemma {:induction false} SpliceMembers(sorted: seq<Entry>, i: nat, e: Entry)
    requires i <= |sorted| && NoRepeats(sorted) && e !in sorted
    ensures NoRepeats(Splice(sorted, i, e))
    ensures forall f :: f in Splice(sorted, i, e) <==> f in sorted || f == e
  {
    var r := Splice(sorted, i, e);
    assert forall k | 0 <= k < |r| && k != i :: r[k] == sorted[if k < i then k else k - 1];
    assert sorted == sorted[..i] + sorted[i..];
  }

  lemma {:induction false} SpliceCounts(sorted: seq<Entry>, i: nat, e: Entry)
    requires i <= |sorted|
    ensures multiset(Values(Splice(sorted, i, e))) == multiset(Values(sorted)) + multiset{e.Value()}
  {
    ValuesSplice(sorted, i, e);
    assert Values(sorted) == Values(sorted)[..i] + Values(sorted)[i..];
  }

  lemma {:induction false} SpliceRanked(sorted: seq<Entry>, i: nat, e: Entry, side: OrderType)
    requires i <= |sorted| && InRank(Values(sorted), side)
    requires forall j | i <= j < |sorted| :: Ranks(e.terms.price, sorted[j].terms.price, side)
    requires i > 0 ==> Ranks(sorted[i - 1].terms.price, e.terms.price, side)
    ensures InRank(Values(Splice(sorted, i, e)), side)
  {
    ValuesSplice(sorted, i, e);
    RankedInsert(Values(sorted), i, e.Value(), side);
  }

  lemma {:induction false} RankedInsert(orders: seq<Order>, i: nat, o: Order, side: OrderType)
    requires i <= |orders| && InRank(orders, side)
    requires forall j | i <= j < |orders| :: Ranks(o.terms.price, orders[j].terms.price, side)
    requires i > 0 ==> Ranks(orders[i - 1].terms.price, o.terms.price, side)
    ensures InRank(orders[..i] + [o] + orders[i..], side)
  {
    var r := orders[..i] + [o] + orders[i..];
    assert forall k | 0 <= k < |r| && k != i :: r[k] == orders[if k < i then k else k - 1];
    forall j | 0 <= j < i ensures Ranks(orders[j].terms.price, o.terms.price, side) {
      assert j < i - 1 ==> Ranks(orders[j].terms.price, orders[i - 1].terms.price, side);
    }
  }
}
