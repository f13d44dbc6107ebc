/** The inner loop of the matching pass, in place: one ask against all bids. */
module Passes {
  import opened Orders
  import opened Sequences
  import opened Trades
  import opened Matching
  import opened Books
  import opened Entries
  import opened Purses
  import opened Settlement
  import opened UserStores
  import opened Settling

  /** What is left to merge: this ask and the later ones, against all bids. */
  ghost function Ahead(asks: seq<Entry>, bids: seq<Entry>): seq<Trade>
    reads set e | e in asks + bids
  {
    Merge(Values(asks), Values(bids))
  }

  /** One fill leaves the merge with its rest. */
  lemma {:induction false} FillAdvances(asks: seq<Order>, bids: seq<Order>, k: nat, t: Trade, asks': seq<Order>,
                                        bids': seq<Order>)
    requires asks != [] && asks[0].amount > 0.0 && k < |bids| && bids[k].amount > 0.0
    requires forall j | 0 <= j < k :: bids[j].amount <= 0.0
    requires bids[k].terms.price >= asks[0].terms.price && t == FillOf(asks[0], bids[k])
    requires asks' == asks[0 := Cutting(asks[0], t.qty)] && bids' == bids[k := Cutting(bids[k], t.qty)]
    ensures Merge(asks, bids) == [t] + Merge(if asks'[0].amount <= 0.0 then asks'[1..] else asks', bids')
  {
    NestedFill(asks, bids, k);
    assert asks'[1..] == asks[1..];
  }

  lemma {:induction false} PrefixOn(first: seq<Trade>, t: Trade, rest: seq<Trade>)
    requires [t] <= rest
    ensures first + [t] <= first + rest
  {
    assert rest == [t] + rest[1..];
    Regroup(first, t, rest[1..]);
  }

  /** The entries as they were, save that the one at k was cut by q. */
  ghost predicate CutAt(entries: seq<Entry>, before: seq<Order>, k: nat, q: real)
    reads set e | e in entries
  {
    && |before| == |entries| && k < |entries|
    && (forall j | 0 <= j < |entries| && j != k :: before[j] == entries[j].Value())
    && before[k].terms == entries[k].terms && entries[k].amount == before[k].amount - q
  }

  lemma {:induction false} ValuesCut(entries: seq<Entry>, before: seq<Order>, k: nat, q: real)
    requires CutAt(entries, before, k, q)
    ensures Values(entries) == before[k := Cutting(before[k], q)]
  {
  }

  lemma {:induction false} AheadAfterFill(asks: seq<Entry>, bids: seq<Entry>, k: nat, t: Trade,
                                          asksBefore: seq<Order>, bidsBefore: seq<Order>)
    requires CutAt(asks, asksBefore, 0, t.qty) && CutAt(bids, bidsBefore, k, t.qty)
    requires asksBefore[0].amount > 0.0 && bidsBefore[k].amount > 0.0
    requires bidsBefore[k].terms.price >= asksBefore[0].terms.price
    requires forall j | 0 <= j < k :: bidsBefore[j].amount <= 0.0
    requires t == FillOf(asksBefore[0], bidsBefore[k])
    ensures Merge(asksBefore, bidsBefore) == [t] + Ahead(if asks[0].amount <= 0.0 then asks[1..] else asks, bids)
  {
    ValuesCut(asks, asksBefore, 0, t.qty);
    ValuesCut(bids, bidsBefore, k, t.qty);
    FillAdvances(asksBefore, bidsBefore, k, t, Values(asks), Values(bids));
    assert Values(asks)[1..] == Values(asks[1..]);
  }

  /** The fill of the ask by the bid at k, seen from the merge. */
  method FillAt(ask: Entry, ghost later: seq<Entry>, bids: seq<Entry>, k: nat, product: string, now: string,
                store: UserStore, ids: IdSource)
    returns (sale: Option<Order>, error: Option<Error>, ghost t: Trade)
    requires ask.amount > 0.0 && ask.terms.product == product && store.Valid()
    requires ask !in bids && ask !in later && NoRepeats(bids)
    requires k < |bids| && bids[k] !in later && bids[k].amount > 0.0 && bids[k].terms.price >= ask.terms.price
    requires forall j | 0 <= j < k :: bids[j].amount <= 0.0
    modifies ask, bids[k], store, store.WalletSet(), ids
    ensures store.Valid() && fresh(store.WalletSet() - old(store.WalletSet()))
    ensures t.ask == ask.terms && t.bid == bids[k].terms
    ensures Posting(store.Accounts(), error) == Settle(old(store.Accounts()), t)
    ensures var q := if sale.Some? then t.qty else 0.0;
      ask.amount == old(ask.amount) - q && bids[k].amount == old(bids[k].amount) - q
    ensures sale.None? <==> error == Some(UnknownUser)
    ensures sale.None? ==> ids.nextId == old(ids.nextId)
    ensures sale.Some? ==> ids.nextId == old(ids.nextId) + 1 && sale.value == SaleOf(t, product, now, old(ids.nextId))
    ensures [t] <= old(Ahead([ask] + later, bids))
    ensures error.None? ==>
      old(Ahead([ask] + later, bids)) == [t] + Ahead(if ask.amount <= 0.0 then later else [ask] + later, bids)
    ensures error.None? ==> (ask.amount <= 0.0 || bids[k].amount <= 0.0)
  {
    ghost var asks := [ask] + later;
    ghost var asksBefore, bidsBefore := Values(asks), Values(bids);
    t := FillOf(ask.Value(), bids[k].Value());
    sale, error := Fill(ask, bids[k], product, now, store, ids);
    NestedFill(asksBefore, bidsBefore, k);
    if error.None? {
      assert CutAt(asks, asksBefore, 0, t.qty) && CutAt(bids, bidsBefore, k, t.qty);
      AheadAfterFill(asks, bids, k, t, asksBefore, bidsBefore);
      assert asks[1..] == later;
    }
  }

  /** What a pass has done so far, against the ledger, id and amounts it started from. */
  datatype Start = Start(ledger: Ledger, nextId: nat, amounts: map<Entry, real>)

  ghost predicate MoneyKept(start: Start, store: UserStore, error: Option<Error>, fills: seq<Trade>)
    reads store, store.WalletSet()
  {
    store.Valid() && Posting(store.Accounts(), error) == SettleAll(start.ledger, fills)
  }

  ghost predicate AmountsKept(start: Start, booked: seq<Trade>)
    reads start.amounts.Keys
  {
    forall e | e in start.amounts :: e.amount == start.amounts[e] - Filled(booked, e.terms)
  }

  ghost predicate SalesKept(start: Start, ids: IdSource, sales: seq<Order>, booked: seq<Trade>, product: string, now: string)
    reads ids
  {
    sales == SalesOf(booked, product, now, start.nextId) && ids.nextId == start.nextId + |booked|
  }

  /** As long as nothing threw, every fill was sliced. */
  lemma {:induction false} NothingThrown(start: Start, store: UserStore, fills: seq<Trade>)
    requires MoneyKept(start, store, None, fills)
    ensures Reached(start.ledger, fills) == fills
  {
    ReachedIsPrefix(start.ledger, fills);
  }

  /** One fill, written down. */
  method FillAndRecord(ask: Entry, ghost later: seq<Entry>, bids: seq<Entry>, k: nat, product: string, now: string,
                       store: UserStore, ids: IdSource, sales: seq<Order>, ghost fills: seq<Trade>, ghost start: Start)
    returns (sales': seq<Order>, error: Option<Error>, ghost t: Trade, ghost booked: seq<Trade>)
    requires ask.amount > 0.0 && ask.terms.product == product
    requires ask !in bids && ask !in later && NoRepeats(bids)
    requires k < |bids| && bids[k] !in later && bids[k].amount > 0.0 && bids[k].terms.price >= ask.terms.price
    requires forall j | 0 <= j < k :: bids[j].amount <= 0.0
    requires ask in start.amounts && bids[k] in start.amounts && TermsDiffer(start.amounts.Keys)
    requires MoneyKept(start, store, None, fills) && AmountsKept(start, fills)
    requires SalesKept(start, ids, sales, fills, product, now)
    modifies ask, bids[k], store, store.WalletSet(), ids
    ensures fresh(store.WalletSet() - old(store.WalletSet()))
    ensures MoneyKept(start, store, error, fills + [t]) && AmountsKept(start, booked)
    ensures SalesKept(start, ids, sales', booked, product, now)
    ensures booked == fills + (if error == Some(UnknownUser) then [] else [t])
    ensures booked == Reached(start.ledger, fills + [t])
    ensures forall j | 0 <= j < k :: bids[j].amount <= 0.0
    ensures [t] <= old(Ahead([ask] + later, bids))
    ensures error.None? ==>
      old(Ahead([ask] + later, bids)) == [t] + Ahead(if ask.amount <= 0.0 then later else [ask] + later, bids)
    ensures error.None? ==> (ask.amount <= 0.0 || bids[k].amount <= 0.0)
  {
    ghost var id := ids.nextId;
    var sale;
    sale, error, t := FillAt(ask, later, bids, k, product, now, store, ids);
    SettleAllAppends(start.ledger, fills, [t]);
    SettleOne(SettleAll(start.ledger, fills).ledger, t);
    ReachedAppends(start.ledger, fills, [t]);
    ReachedOne(SettleAll(start.ledger, fills).ledger, t);
    ReachedIsPrefix(start.ledger, fills);
    sales', booked := sales, fills;
    if sale.Some? {
      SaleRecorded(sales, sale.value, fills, t, product, now, start.nextId, id);
      booked := fills + [t];
      sales' := sales + [sale.value];
      forall e | e in start.amounts ensures e.amount == start.amounts[e] - Filled(booked, e.terms) {
        FilledSnoc(fills, t, e.terms);
      }
    }
  }

  /** The bids before k: exhausted, or priced below the ask. */
  ghost predicate PassedOver(bids: seq<Entry>, k: nat, price: real)
    reads set e | e in bids
  {
    k <= |bids| && forall j | 0 <= j < k :: bids[j].amount <= 0.0 || bids[j].terms.price < price
  }

  /** The ask and the bids of one inner loop, as they stand in the pass. */
  ghost predicate Lined(ask: Entry, later: seq<Entry>, bids: seq<Entry>, product: string, start: Start) {
    && ask.terms.product == product && ask in start.amounts && TermsDiffer(start.amounts.Keys)
    && (forall b | b in bids :: b in start.amounts && b !in later)
    && ask !in bids && ask !in later && NoRepeats(bids)
    && (forall i, j | 0 <= i < j < |bids| :: bids[i].terms.price >= bids[j].terms.price)
    && (forall e | e in later :: ask.terms.price <= e.terms.price)
  }

  /** One turn of the inner loop: skip the bid at k, or fill from it. The loop is left when the ask
      is exhausted or an exception is thrown. */
  method TryBid(ask: Entry, ghost later: seq<Entry>, bids: seq<Entry>, k: nat, product: string, now: string,
                store: UserStore, ids: IdSource, sales: seq<Order>, ghost fills: seq<Trade>, ghost start: Start)
    returns (sales': seq<Order>, error: Option<Error>, leave: bool, ghost fills': seq<Trade>, ghost booked: seq<Trade>)
    requires Lined(ask, later, bids, product, start) && ask.amount > 0.0
    requires k < |bids| && PassedOver(bids, k, ask.terms.price)
    requires MoneyKept(start, store, None, fills) && AmountsKept(start, fills)
    requires SalesKept(start, ids, sales, fills, product, now)
    modifies ask, bids[k], store, store.WalletSet(), ids
    ensures fresh(store.WalletSet() - old(store.WalletSet()))
    ensures MoneyKept(start, store, error, fills') && AmountsKept(start, booked)
    ensures SalesKept(start, ids, sales', booked, product, now)
    ensures booked == Reached(start.ledger, fills') && (error.None? ==> booked == fills')
    ensures !leave ==> error.None? && ask.amount > 0.0 && PassedOver(bids, k + 1, ask.terms.price)
    ensures !leave ==> fills + old(Ahead([ask] + later, bids)) == fills' + Ahead([ask] + later, bids)
    ensures leave && error.None? ==> fills + old(Ahead([ask] + later, bids)) == fills' + Ahead(later, bids)
    ensures error.Some? ==> leave && fills' <= fills + old(Ahead([ask] + later, bids))
  {
    var bid := bids[k];
    assert bid in bids;
    if bid.amount <= 0.0 || bid.terms.price < ask.terms.price {
      NothingThrown(start, store, fills);
      return sales, None, false, fills, fills;
    }
    ghost var ahead := Ahead([ask] + later, bids);
    ghost var t;
    sales', error, t, booked := FillAndRecord(ask, later, bids, k, product, now, store, ids, sales, fills, start);
    PrefixOn(fills, t, ahead);
    Regroup(fills, t, Ahead(if ask.amount <= 0.0 then later else [ask] + later, bids));
    fills' := fills + [t];
    leave := error.Some? || ask.amount <= 0.0;
  }

  /** The inner loop. */
  method MatchAsk(ask: Entry, ghost later: seq<Entry>, bids: seq<Entry>, product: string, now: string,
                  store: UserStore, ids: IdSource, sales0: seq<Order>, ghost fills0: seq<Trade>, ghost start: Start)
    returns (sales: seq<Order>, error: Option<Error>, ghost fills: seq<Trade>, ghost booked: seq<Trade>)
    requires Lined(ask, later, bids, product, start) && ask.amount > 0.0
    requires MoneyKept(start, store, None, fills0) && AmountsKept(start, fills0)
    requires SalesKept(start, ids, sales0, fills0, product, now)
    modifies start.amounts.Keys, store, store.WalletSet(), ids
    ensures fresh(store.WalletSet() - old(store.WalletSet()))
    ensures MoneyKept(start, store, error, fills) && AmountsKept(start, booked)
    ensures SalesKept(start, ids, sales, booked, product, now)
    ensures booked == Reached(start.ledger, fills) && (error.None? ==> booked == fills)
    ensures error.None? ==> fills0 + old(Ahead([ask] + later, bids)) == fills + Ahead(later, bids)
    ensures error.Some? ==> fills <= fills0 + old(Ahead([ask] + later, bids))
  {
    sales, error, fills, booked := sales0, None, fills0, fills0;
    var leave := false;
    var k := 0;
    while k < |bids|
      invariant ask.amount > 0.0 && PassedOver(bids, k, ask.terms.price)
      invariant fresh(store.WalletSet() - old(store.WalletSet()))
      invariant error.None? && booked == fills
      invariant MoneyKept(start, store, None, fills) && AmountsKept(start, fills)
      invariant SalesKept(start, ids, sales, fills, product, now)
      invariant fills0 + old(Ahead([ask] + later, bids)) == fills + Ahead([ask] + later, bids)
    {
      assert bids[k] in bids;
      sales, error, leave, fills, booked := TryBid(ask, later, bids, k, product, now, store, ids, sales, fills, start);
      if leave {
        return;
      }
      k := k + 1;
    }
    NothingThrown(start, store, fills);
    NothingAhead(ask, later, bids);
  }

  /** No bid left reaches the ask: the merge goes on without it. */
  lemma {:induction false} NothingAhead(ask: Entry, later: seq<Entry>, bids: seq<Entry>)
    requires PassedOver(bids, |bids|, ask.terms.price)
    requires forall e | e in later :: ask.terms.price <= e.terms.price
    ensures Ahead([ask] + later, bids) == Ahead(later, bids)
  {
    var asks, offers := Values([ask] + later), Values(bids);
    assert asks[1..] == Values(later);
    forall a, b | a in asks && b in offers && a.amount > 0.0 && b.amount > 0.0
      ensures b.terms.price < a.terms.price
    {
      var i :| 0 <= i < |asks| && asks[i] == a;
      var j :| 0 <= j < |offers| && offers[j] == b;
      assert i > 0 ==> later[i - 1] in later;
    }
    ApartPricesTradeNothing(asks, offers);
    ApartPricesTradeNothing(asks[1..], offers);
  }

  // ---- the outer loop ----

  /** The sorted sides of one product, all of them entries of the pass. */
  ghost predicate BothLined(asks: seq<Entry>, bids: seq<Entry>, product: string, start: Start) {
    && TermsDiffer(start.amounts.Keys) && NoRepeats(asks) && NoRepeats(bids)
    && (forall a | a in asks :: a in start.amounts && a.terms.product == product && a.terms.orderType == Ask)
    && (forall b | b in bids :: b in start.amounts && b.terms.product == product && b.terms.orderType == Bid)
    && (forall i, j | 0 <= i < j < |asks| :: asks[i].terms.price <= asks[j].terms.price)
    && (forall i, j | 0 <= i < j < |bids| :: bids[i].terms.price >= bids[j].terms.price)
  }

  lemma {:induction false} LinedAt(asks: seq<Entry>, bids: seq<Entry>, product: string, start: Start, i: nat)
    requires BothLined(asks, bids, product, start) && i < |asks|
    ensures Lined(asks[i], asks[i + 1..], bids, product, start)
    ensures asks[i..] == [asks[i]] + asks[i + 1..]
  {
    assert asks[i] in asks;
    var later := asks[i + 1..];
    forall e | e in later ensures e in asks && asks[i].terms.price <= e.terms.price && e != asks[i] {
      var j :| 0 <= j < |later| && later[j] == e;
      assert asks[i + 1 + j] == e;
    }
  }

  lemma {:induction false} ExhaustedAhead(ask: Entry, later: seq<Entry>, bids: seq<Entry>)
    requires ask.amount <= 0.0
    ensures Ahead([ask] + later, bids) == Ahead(later, bids)
  {
    assert Values([ask] + later)[1..] == Values(later);
    ExhaustedAskSkipped(Values([ask] + later), Values(bids));
  }

  /** Both loops: without an exception, the fills are the merge of the two sides, in its order. */
  method RunAsks(asks: seq<Entry>, bids: seq<Entry>, product: string, now: string,
                 store: UserStore, ids: IdSource, ghost start: Start)
    returns (sales: seq<Order>, error: Option<Error>, ghost fills: seq<Trade>, ghost booked: seq<Trade>)
    requires BothLined(asks, bids, product, start)
    requires MoneyKept(start, store, None, []) && AmountsKept(start, []) && SalesKept(start, ids, [], [], product, now)
    modifies start.amounts.Keys, store, store.WalletSet(), ids
    ensures fresh(store.WalletSet() - old(store.WalletSet()))
    ensures MoneyKept(start, store, error, fills) && AmountsKept(start, booked)
    ensures SalesKept(start, ids, sales, booked, product, now)
    ensures booked == Reached(start.ledger, fills) && (error.None? ==> booked == fills)
    ensures error.None? ==> fills == old(Ahead(asks, bids))
    ensures error.Some? ==> fills <= old(Ahead(asks, bids))
  {
    sales, error, fills, booked := [], None, [], [];
    var i := 0;
    assert asks[0..] == asks;
    while i < |asks|
      invariant i <= |asks|
      invariant fresh(store.WalletSet() - old(store.WalletSet()))
      invariant error.None? && booked == fills
      invariant MoneyKept(start, store, None, fills) && AmountsKept(start, fills)
      invariant SalesKept(start, ids, sales, fills, product, now)
      invariant old(Ahead(asks, bids)) == fills + Ahead(asks[i..], bids)
    {
      LinedAt(asks, bids, product, start, i);
      if asks[i].amount <= 0.0 {
        ExhaustedAhead(asks[i], asks[i + 1..], bids);
      } else {
        sales, error, fills, booked :=
          MatchAsk(asks[i], asks[i + 1..], bids, product, now, store, ids, sales, fills, start);
        if error.Some? {
          return;
        }
      }
      i := i + 1;
    }
    NothingThrown(start, store, fills);
    assert asks[i..] == [];
    assert Values([]) == [];
  }

  ghost predicate TermsMatch(entries: seq<Entry>, values: seq<Order>) {
    |values| == |entries| && forall k | 0 <= k < |values| :: values[k].terms == entries[k].terms
  }

  lemma {:induction false} SidesLined(asks: seq<Entry>, bids: seq<Entry>, product: string, start: Start,
                                      askValues: seq<Order>, bidValues: seq<Order>)
    requires BothLined(asks, bids, product, start)
    requires TermsMatch(asks, askValues) && TermsMatch(bids, bidValues)
    ensures Sides(askValues, bidValues)
  {
    forall o | o in askValues ensures o.terms.orderType == Ask {
      var k :| 0 <= k < |askValues| && askValues[k] == o;
      assert asks[k] in asks;
    }
    forall o | o in bidValues ensures o.terms.orderType == Bid {
      var k :| 0 <= k < |bidValues| && bidValues[k] == o;
      assert bids[k] in bids;
    }
    forall i, j | 0 <= i < j < |asks| ensures askValues[i].terms != askValues[j].terms {
      assert asks[i] in asks && asks[j] in asks;
    }
    forall i, j | 0 <= i < j < |bids| ensures bidValues[i].terms != bidValues[j].terms {
      assert bids[i] in bids && bids[j] in bids;
    }
  }
}
