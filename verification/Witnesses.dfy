/** Inputs that the server can receive and that make it fail. */
module Witnesses {
  import opened Orders
  import opened Tokenizer
  import opened TimeOrder
  import opened Trades
  import opened Meters
  import opened Totals
  import opened Matching
  import opened Optimality
  import opened Purses
  import opened Settlement
  import opened Books
  import opened Exchanges
  import opened Reachable
  import opened Failures
  import opened Accounts
  import opened Csv
  import opened Restarts
  import opened Leaks
  import opened Ties
  import opened Cancels
  import opened Payments
  import opened Wakeups
  import opened Interleavings
  import opened Scripts

  lemma {:induction false} TokensOfWitnesses()
    ensures ExtractTokens("A/B", '/') == ["A", "B"] && ExtractTokens("BTC", '/') == ["BTC"]
  {
    assert Join(["A", "B"], '/') == "A" + "/" + "B" by {
      assert ["A", "B"][1..] == ["B"];
    }
    assert "A" + "/" + "B" == "A/B";
    TokensUndoJoin(["A", "B"], '/');
    TokensUndoJoin(["BTC"], '/');
  }

  // ---- one ask and one bid ----

  lemma {:induction false} TwoSides(a: Order, b: Order, t: OrderType)
    requires a.terms.orderType == Ask && b.terms.orderType == Bid
    ensures Side([a, b], t) == if t == Ask then [a] else if t == Bid then [b] else []
  {
    SideCons(b, [], t);
    SideCons(a, [b] + [], t);
    assert [a, b] == [a] + ([b] + []);
  }

  lemma {:induction false} TwoAreRanked(a: Order, b: Order)
    requires a.terms.orderType == Ask && b.terms.orderType == Bid
    ensures Ranked([a, b], [a], [b])
  {
    TwoSides(a, b, Ask);
    TwoSides(a, b, Bid);
  }

  /** The whole bid is filled, or the whole ask, whichever is smaller. */
  lemma {:induction false} TwoTradeOnce(a: Order, b: Order)
    requires a.amount > 0.0 && b.amount > 0.0 && a.terms.price <= b.terms.price
    ensures Merge([a], [b]) == [FillOf(a, b)]
  {
    var m := Advance([a], [b]);
    assert Merge(m.asks, m.bids) == [];
  }

  /** What is left of the two once they have traded. */
  lemma {:induction false} TwoAreLeft(a: Order, b: Order)
    requires a.terms != b.terms
    ensures var q := FillOf(a, b).qty;
      Apply([a, b], [FillOf(a, b)]) == [a.(amount := a.amount - q), b.(amount := b.amount - q)]
  {
    FilledByOne([FillOf(a, b)], a.terms);
    FilledByOne([FillOf(a, b)], b.terms);
  }

  lemma {:induction false} TwoArePurged(a: Order, b: Order)
    ensures Purge([a, b]) == (if a.amount > 0.0 then [a] else []) + (if b.amount > 0.0 then [b] else [])
  {
    assert [a, b][1..] == [b] && [b][1..] == [];
    assert Purge([b]) == if b.amount > 0.0 then [b] else [];
  }

  // ---- passes that throw ----

  /** One unit of a product of one currency, for sale and wanted. */
  const CSV_ASK := Order(Terms(1.0, "1", "BTC", Ask, DEFAULT_USER, 0), 1.0)
  const CSV_BID := Order(Terms(1.0, "2", "BTC", Bid, DEFAULT_USER, 1), 1.0)

  const ASK_LINE := "1,BTC,ask,1,1"
  const BID_LINE := "2,BTC,bid,1,1"

  lemma {:induction false} FiveJoin(a: string, b: string, c: string, d: string, e: string)
    ensures Join([a, b, c, d, e], ',') == a + "," + (b + "," + (c + "," + (d + "," + e)))
  {
    assert [a, b, c, d, e][1..] == [b, c, d, e] && [b, c, d, e][1..] == [c, d, e];
    assert [c, d, e][1..] == [d, e] && [d, e][1..] == [e];
    assert Join([d, e], ',') == d + "," + e;
    assert Join([c, d, e], ',') == c + "," + Join([d, e], ',');
    assert Join([b, c, d, e], ',') == b + "," + Join([c, d, e], ',');
  }

  function LineOf(stamp: string, side: string): string {
    stamp + "," + ("BTC" + "," + (side + "," + ("1" + "," + "1")))
  }

  lemma {:induction false} LineIsRead(stamp: string, side: string, t: OrderType, read: Reader, id: nat)
    requires Tokenizer.Clean(stamp, ',') && Tokenizer.Clean(side, ',') && DetermineOrderType(side) == Some(t)
    requires read("1") == Some(1.0)
    ensures EntryOf(LineOf(stamp, side), read, id) == Some(Order(Terms(1.0, stamp, "BTC", t, DEFAULT_USER, id), 1.0))
  {
    FiveJoin(stamp, "BTC", side, "1", "1");
    TokensUndoJoin([stamp, "BTC", side, "1", "1"], ',');
  }

  lemma {:induction false} FiveAreRead(a: string, b: string, c: string, d: string, e: string, read: Reader, id: nat)
    requires Tokenizer.Clean(a, ',') && Tokenizer.Clean(b, ',') && Tokenizer.Clean(c, ',')
    requires Tokenizer.Clean(d, ',') && Tokenizer.Clean(e, ',')
    ensures EntryOf(a + "," + (b + "," + (c + "," + (d + "," + e))), read, id) == ParseLine([a, b, c, d, e], read, id)
  {
    FiveJoin(a, b, c, d, e);
    TokensUndoJoin([a, b, c, d, e], ',');
  }

  /** Price comes before amount, on a line for which they differ. */
  lemma {:induction false} PriceThenAmount(read: Reader, id: nat)
    requires read("2") == Some(2.0) && read("3") == Some(3.0)
    ensures EntryOf("1,A/B,bid,2,3", read, id) == Some(Order(Terms(2.0, "1", "A/B", Bid, DEFAULT_USER, id), 3.0))
  {
    assert Tokenizer.Clean("1", ',') && Tokenizer.Clean("A/B", ',') && Tokenizer.Clean("bid", ',');
    assert Tokenizer.Clean("2", ',') && Tokenizer.Clean("3", ',');
    assert "1,A/B,bid,2,3" == "1" + "," + ("A/B" + "," + ("bid" + "," + ("2" + "," + "3")));
    FiveAreRead("1", "A/B", "bid", "2", "3", read, id);
  }

  lemma {:induction false} TheLines()
    ensures ASK_LINE == LineOf("1", "ask") && BID_LINE == LineOf("2", "bid")
    ensures DetermineOrderType("ask") == Some(Ask) && DetermineOrderType("bid") == Some(Bid)
    ensures Tokenizer.Clean("1", ',') && Tokenizer.Clean("2", ',') && Tokenizer.Clean("ask", ',') && Tokenizer.Clean("bid", ',')
  {
  }

  lemma {:induction false} AskLineIsRead(read: Reader)
    requires read("1") == Some(1.0)
    ensures EntryOf(LineOf("1", "ask"), read, 0) == Some(CSV_ASK)
  {
    TheLines();
    LineIsRead("1", "ask", Ask, read, 0);
  }

  lemma {:induction false} BidLineIsRead(read: Reader)
    requires read("1") == Some(1.0)
    ensures EntryOf(LineOf("2", "bid"), read, 1) == Some(CSV_BID)
  {
    TheLines();
    LineIsRead("2", "bid", Bid, read, 1);
  }

  /** The two lines of a CSV file that are read as these orders, by whatever reads "1" as one. */
  lemma {:induction false} LinesAreRead(read: Reader)
    requires read("1") == Some(1.0)
    ensures EntryOf(ASK_LINE, read, 0) == Some(CSV_ASK) && EntryOf(BID_LINE, read, 1) == Some(CSV_BID)
  {
    AskLineIsRead(read);
    BidLineIsRead(read);
    TheLines();
  }

  /** A product that does not name two currencies: the CSV file is read without complaint, and then,
      whatever is in the wallets, every pass throws. */
  lemma {:induction false} OneCurrencyThrows(read: Reader, l: Ledger, trades: seq<Trade>)
    requires read("1") == Some(1.0)
    requires IsPass([CSV_ASK, CSV_BID], trades)
    ensures EntryOf(ASK_LINE, read, 0) == Some(CSV_ASK) && EntryOf(BID_LINE, read, 1) == Some(CSV_BID)
    ensures SettleAll(l, trades).error.Some?
  {
    LinesAreRead(read);
    OneCurrencyIsWild();
    FirstFillThrows(l, [CSV_ASK, CSV_BID], "BTC", trades);
  }

  lemma {:induction false} OneCurrencyIsWild()
    ensures Wild([CSV_ASK, CSV_BID], "BTC") && Apart([CSV_ASK, CSV_BID]) && OneMarket([CSV_ASK, CSV_BID], "BTC")
  {
    TokensOfWitnesses();
    assert CSV_ASK in [CSV_ASK, CSV_BID] && CSV_BID in [CSV_ASK, CSV_BID];
  }

  /** `ASK A/B 1 -1` of one client, and `BID A/B 1 1` of another. */
  const BELOW_ZERO := Order(Terms(-1.0, "1", "A/B", Ask, "bob", 0), 1.0)
  const FUNDED := Order(Terms(1.0, "2", "A/B", Bid, "ann", 1), 1.0)

  /** The server accepts both when the seller's goods and the buyer's money are there, and then, whatever
      is in the wallets, every pass over the two throws. */
  lemma {:induction false} NegativePriceThrows(l: Ledger, trades: seq<Trade>)
    requires IsPass([BELOW_ZERO, FUNDED], trades)
    ensures Fulfill(Purse(map["A" := 1.0], map[]), BELOW_ZERO).outcome == Returned(true)
    ensures Fulfill(Purse(map["B" := 1.0], map[]), FUNDED).outcome == Returned(true)
    ensures SettleAll(l, trades).error.Some?
  {
    BothAreAccepted();
    BelowZeroIsWild();
    FirstFillThrows(l, [BELOW_ZERO, FUNDED], "A/B", trades);
  }

  lemma {:induction false} BelowZeroIsWild()
    ensures Wild([BELOW_ZERO, FUNDED], "A/B") && Apart([BELOW_ZERO, FUNDED]) && OneMarket([BELOW_ZERO, FUNDED], "A/B")
  {
    assert BELOW_ZERO in [BELOW_ZERO, FUNDED] && FUNDED in [BELOW_ZERO, FUNDED];
    assert NegativeAsk(BELOW_ZERO);
  }

  lemma {:induction false} BothAreAccepted()
    ensures Fulfill(Purse(map["A" := 1.0], map[]), BELOW_ZERO).outcome == Returned(true)
    ensures Fulfill(Purse(map["B" := 1.0], map[]), FUNDED).outcome == Returned(true)
  {
    TokensOfWitnesses();
    AcceptedExactlyWhen(Purse(map["A" := 1.0], map[]), BELOW_ZERO);
    AcceptedExactlyWhen(Purse(map["B" := 1.0], map[]), FUNDED);
  }

  // ---- one client's order, from registration into the book ----

  function CurrencyOf(o: Order): string { if o.terms.orderType == Ask then "A" else "B" }

  /** A client registers, deposits what an order ties up, and submits the order. */
  function Submission(o: Order): seq<Step> { Funding(o) + [Place(o)] + [Step.Insert(0)] }

  function Funding(o: Order): seq<Step> {
    [Register(o.terms.username), Deposit(o.terms.username, CurrencyOf(o), Required(o))]
  }

  function Tied(o: Order): Purse { Purse(map[CurrencyOf(o) := 0.0], map[CurrencyOf(o) := Required(o)]) }

  /** The server's next order, of a client that nobody knows yet. */
  ghost predicate Newcomer(s: Exchange, o: Order) {
    && o.terms.username != DEFAULT_USER && o.terms.username !in s.ledger && s.accepted == []
    && o.terms.id == s.nextId && o.terms.product == "A/B" && o.terms.orderType != Sale && Required(o) >= 0.0
  }

  lemma {:induction false} OneMoreStep(s: Exchange, steps: seq<Step>, mid: Exchange, step: Step)
    requires Run(s, steps, mid) && Enabled(mid, step)
    ensures Run(s, steps + [step], Next(mid, step))
    decreases |steps|
  {
    if steps == [] {
      assert [] + [step] == [step];
      assert [step][1..] == [];
    } else {
      assert (steps + [step])[1..] == steps[1..] + [step];
      OneMoreStep(Next(s, steps[0]), steps[1..], mid, step);
    }
  }

  /** The server once the client has the money. */
  lemma {:induction false} FundingReaches(start: Exchange, o: Order) returns (s: Exchange)
    requires Newcomer(start, o)
    ensures Run(start, Funding(o), s)
    ensures s == start.(ledger := start.ledger[o.terms.username := Purse(map[CurrencyOf(o) := Required(o)], map[])])
  {
    var u := o.terms.username;
    var deposit := Deposit(u, CurrencyOf(o), Required(o));
    var s1 := Next(start, Register(u));
    OneMoreStep(start, [], start, Register(u));
    OneMoreStep(start, [] + [Register(u)], s1, deposit);
    s := Next(s1, deposit);
    assert Funding(o) == [] + [Register(u)] + [deposit];
    assert start.ledger[u := EMPTY_PURSE][u := s.ledger[u]] == start.ledger[u := s.ledger[u]];
  }

  lemma {:induction false} PlacingTies(s: Exchange, o: Order)
    requires o.terms.username in s.ledger && o.terms.product == "A/B" && o.terms.orderType != Sale && Required(o) >= 0.0
    requires s.ledger[o.terms.username] == Purse(map[CurrencyOf(o) := Required(o)], map[]) && Client(s, o.terms.username)
    ensures AfterPlace(s, o) == s.(ledger := s.ledger[o.terms.username := Tied(o)], nextId := s.nextId + 1,
                                   accepted := s.accepted + [o], placed := s.placed[o.terms := o.amount])
  {
    var c, r := CurrencyOf(o), Required(o);
    TokensOfWitnesses();
    assert map[c := r][c := r - r] == map[c := 0.0] && map[][c := 0.0 + r] == map[c := r];
    assert Fulfill(s.ledger[o.terms.username], o) == Effect(Tied(o), Returned(true));
  }

  /** The server once the order's funds are locked. */
  lemma {:induction false} PlacedReaches(start: Exchange, o: Order) returns (s: Exchange)
    requires Newcomer(start, o)
    ensures Run(start, Funding(o) + [Place(o)], s)
    ensures s.accepted == [o] && s.book == start.book && s.startUp == start.startUp && s.pending == start.pending
    ensures s.passes == start.passes && s.nextId == start.nextId + 1
    ensures s.ledger == start.ledger[o.terms.username := Tied(o)]
  {
    var s2 := FundingReaches(start, o);
    OneMoreStep(start, Funding(o), s2, Place(o));
    PlacingTies(s2, o);
    s := Next(s2, Place(o));
    assert s.accepted == [o];
    assert s2.ledger[o.terms.username := Tied(o)] == start.ledger[o.terms.username := Tied(o)];
  }

  /** The server once the order is in the book. */
  lemma {:induction false} SubmissionReaches(start: Exchange, o: Order) returns (s: Exchange)
    requires Newcomer(start, o)
    ensures Run(start, Submission(o), s)
    ensures s.book == InsertOrder(start.book, o)
    ensures s.accepted == [] && s.startUp == start.startUp && s.pending == start.pending
    ensures s.passes == start.passes && s.nextId == start.nextId + 1
    ensures s.ledger == start.ledger[o.terms.username := Tied(o)]
  {
    var s3 := PlacedReaches(start, o);
    OneMoreStep(start, Funding(o) + [Place(o)], s3, Step.Insert(0));
    s := Next(s3, Step.Insert(0));
    assert RemoveAt([o], 0) == [];
  }

  lemma {:induction false} ReachedIsCovered(start: Exchange, steps: seq<Step>, s: Exchange)
    requires Orderly(start) && Covered(start) && Run(start, steps, s)
    ensures Orderly(s) && Covered(s)
  {
    SlackNeverChanges(start, steps, s);
  }

  lemma {:induction false} StartIsCovered(start: Exchange)
    requires Initial(start)
    ensures Orderly(start) && Covered(start)
  {
    InitialIsOrderly(start);
    InitialSlack(start);
  }

  const EMPTY_SERVER := ComeUp(map[], map[], 0)

  lemma {:induction false} EmptySubmission(o: Order) returns (s: Exchange)
    requires Newcomer(EMPTY_SERVER, o)
    ensures Initial(EMPTY_SERVER) && Run(EMPTY_SERVER, Submission(o), s) && Orderly(s) && Covered(s)
    ensures s.book.orders == map["A/B" := [o]] && s.ledger == map[o.terms.username := Tied(o)]
    ensures s.accepted == [] && s.startUp == Fresh && s.pending == [] && s.passes == multiset{} && s.nextId == 1
  {
    s := SubmissionReaches(EMPTY_SERVER, o);
    assert InsertByTime([], o) == [o];
    StartIsCovered(EMPTY_SERVER);
    ReachedIsCovered(EMPTY_SERVER, Submission(o), s);
  }

  lemma {:induction false} OneList(b: Book, m: Meter, orders: seq<Order>)
    requires b.orders == map["A/B" := orders]
    ensures BookMeasure(b, m) == Measure(m, orders)
  {
    var sums := MeasuredLists(b, m);
    TotalPicks(sums, "A/B");
    assert sums - {"A/B"} == map[];
  }

  /** An ordinary bid: `BID A/B 1 1`. */
  const ORDINARY := Order(Terms(1.0, "1", "A/B", Bid, "ann", 0), 1.0)

  /** A server that is shut down here leaves funds behind that Restarts.RestartStrandsReserves speaks of. */
  lemma {:induction false} SomethingToStrand() returns (s: Exchange)
    ensures Initial(EMPTY_SERVER) && Run(EMPTY_SERVER, Submission(ORDINARY), s)
    ensures Reserves(s, "ann", "B") == 1.0
  {
    s := EmptySubmission(ORDINARY);
    OneReserve(s, ORDINARY);
  }

  lemma {:induction false} BidReserves(o: Order)
    requires o.terms.product == "A/B" && o.terms.orderType == Bid && o.terms.username == "ann" && o.terms.price == 1.0
    ensures Weight(Reserve("ann", "B"), o) == Open(o) && Weight(Stuck("ann", "B"), o) == 0.0
  {
    TokensOfWitnesses();
    assert Rate(Reserve("ann", "B"), o.terms) == 1.0;
  }

  lemma {:induction false} OneReserve(s: Exchange, o: Order)
    requires s.book.orders == map["A/B" := [o]] && s.accepted == []
    requires o.terms.product == "A/B" && o.terms.orderType == Bid && o.terms.username == "ann" && o.terms.price == 1.0
    ensures Reserves(s, "ann", "B") == Open(o)
  {
    OneList(s.book, Reserve("ann", "B"), [o]);
    MeasureOfOne(Reserve("ann", "B"), o);
    BidReserves(o);
  }

  /** The dispatcher starts and takes the product up. */
  function Dispatch(product: string): seq<Step> { [ReadProducts([product]), FillQueue, Dequeue] }

  lemma {:induction false} DispatchReaches(s: Exchange, product: string) returns (s': Exchange)
    requires s.book.orders.Keys == {product} && s.startUp == Fresh && s.pending == [] && s.passes == multiset{}
    ensures Run(s, Dispatch(product), s')
    ensures s' == s.(startUp := Started, pending := [], passes := multiset{product})
  {
    var s1 := Next(s, ReadProducts([product]));
    var s2 := Next(s1, FillQueue);
    OneMoreStep(s, [], s, ReadProducts([product]));
    OneMoreStep(s, [] + [ReadProducts([product])], s1, FillQueue);
    OneMoreStep(s, [] + [ReadProducts([product])] + [FillQueue], s2, Dequeue);
    assert Dispatch(product) == [] + [ReadProducts([product])] + [FillQueue] + [Dequeue];
    s' := Next(s2, Dequeue);
  }

  // ---- a lost wake-up ----

  /** Two asks and a bid for both, on a product of one currency. */
  const MORE := Order(Terms(1.0, "2", "BTC", Ask, DEFAULT_USER, 1), 1.0)
  const WANTED := Order(Terms(1.0, "3", "BTC", Bid, DEFAULT_USER, 2), 2.0)

  const BTC_ORDERS := [CSV_ASK, MORE, WANTED]
  const BTC_SERVER := ComeUp(map["BTC" := BTC_ORDERS], map[], 3)
  const BTC_PASS := Match("BTC", "4", [CSV_ASK, MORE], [WANTED])

  lemma {:induction false} BtcServerIsInitial()
    ensures Initial(BTC_SERVER)
  {
    var b := BTC_SERVER.book;
    forall x | Live(b, x) ensures x == CSV_ASK.terms || x == MORE.terms || x == WANTED.terms {
    }
  }

  lemma {:induction false} ThreeSides(a: Order, b: Order, c: Order, t: OrderType)
    requires a.terms.orderType == Ask && b.terms.orderType == Ask && c.terms.orderType == Bid
    ensures Side([a, b, c], t) == if t == Ask then [a, b] else if t == Bid then [c] else []
  {
    SideCons(c, [], t);
    assert [c] + [] == [c];
    SideCons(b, [c], t);
    assert [b] + [c] == [b, c];
    SideCons(a, [b, c], t);
    assert [a] + [b, c] == [a, b, c];
  }

  lemma {:induction false} ThreeAreRanked(a: Order, b: Order, c: Order)
    requires a.terms.orderType == Ask && b.terms.orderType == Ask && c.terms.orderType == Bid
    requires a.terms.price <= b.terms.price
    ensures Ranked([a, b, c], [a, b], [c])
  {
    ThreeSides(a, b, c, Ask);
    ThreeSides(a, b, c, Bid);
    PairInRank(a, b);
    PairInRank(c, c);
  }

  lemma {:induction false} PairInRank(a: Order, b: Order)
    ensures a.terms.price <= b.terms.price ==> InRank([a, b], Ask)
    ensures InRank([a], Ask) && InRank([a], Bid)
  {
  }

  lemma {:induction false} BtcIsWild()
    ensures Ranked(BTC_ORDERS, [CSV_ASK, MORE], [WANTED]) && Wild(BTC_ORDERS, "BTC")
  {
    ThreeAreRanked(CSV_ASK, MORE, WANTED);
    TokensOfWitnesses();
    assert CSV_ASK in BTC_ORDERS && WANTED in BTC_ORDERS;
  }

  lemma {:induction false} FirstOfThree(a: Order, b: Order, c: Order)
    requires a.amount > 0.0 && c.amount > 0.0 && a.terms.price <= c.terms.price
    ensures Merge([a, b], [c]) != [] && Merge([a, b], [c])[0] == FillOf(a, c)
  {
    var m := Advance([a, b], [c]);
    assert m.trades == [FillOf(a, c)];
  }

  /** The pass slices its first fill and throws; the other ask and the rest of the bid still cross. */
  lemma {:induction false} StillCrossed()
    ensures Crossed(Apply(BTC_ORDERS, [FillOf(CSV_ASK, WANTED)]))
  {
    var fills := [FillOf(CSV_ASK, WANTED)];
    var after := Apply(BTC_ORDERS, fills);
    FilledByOne(fills, MORE.terms);
    FilledByOne(fills, WANTED.terms);
    assert after[1] in after && after[2] in after;
    assert after[1] == MORE && after[2] == Order(WANTED.terms, 1.0);
  }

  lemma {:induction false} BtcPassThrows(s: Exchange) returns (s': Exchange)
    requires Orderly(s) && s.book.orders == map["BTC" := BTC_ORDERS] && s.passes == multiset{"BTC"}
    ensures Enabled(s, BTC_PASS) && !Settles(s, BTC_PASS) && s' == Next(s, BTC_PASS)
    ensures s'.passes == multiset{} && s'.pending == s.pending && s'.waking == s.waking && s'.startUp == s.startUp
    ensures Crossed(ListOf(s'.book, "BTC"))
  {
    var trades := Merge([CSV_ASK, MORE], [WANTED]);
    BtcIsWild();
    FirstOfThree(CSV_ASK, MORE, WANTED);
    ListIsApart(s.book, "BTC");
    PassUsersKnown(s, "BTC", trades);
    FirstFillThrows(s.ledger, BTC_ORDERS, "BTC", trades);
    StillCrossed();
    s' := Next(s, BTC_PASS);
  }

  /** A lost wake-up: the product's book is crossed, and nobody will look at it again until a client
      inserts into it. */
  lemma {:induction false} WakeupIsLost() returns (s: Exchange, s': Exchange)
    ensures Initial(BTC_SERVER) && Run(BTC_SERVER, Dispatch("BTC"), s)
    ensures Enabled(s, BTC_PASS) && s' == Next(s, BTC_PASS)
    ensures Crossed(ListOf(s'.book, "BTC")) && !Awake(s', "BTC")
  {
    BtcServerIsInitial();
    StartIsCovered(BTC_SERVER);
    s := DispatchReaches(BTC_SERVER, "BTC");
    ReachedIsCovered(BTC_SERVER, Dispatch("BTC"), s);
    s' := BtcPassThrows(s);
  }

  // ---- a pass that throws makes locked funds drift, and makes money ----

  const DRIFT := Match("A/B", "3", [BELOW_ZERO], [FUNDED])

  ghost predicate BeforeDrift(s: Exchange) {
    && Orderly(s) && Covered(s) && s.book.orders == map["A/B" := [BELOW_ZERO, FUNDED]] && s.passes == multiset{"A/B"}
    && LockedOf(s.ledger, "ann", "B") == 1.0
  }

  /** Two clients submit one order each to an empty server. */
  lemma {:induction false} TwoSubmissions(a: Order, b: Order) returns (s1: Exchange, s2: Exchange)
    requires Newcomer(EMPTY_SERVER, a) && b.terms.username != a.terms.username && b.terms.username != DEFAULT_USER
    requires b.terms.id == 1 && b.terms.product == "A/B" && b.terms.orderType != Sale && Required(b) >= 0.0 && Before(a, b)
    ensures Initial(EMPTY_SERVER) && Run(EMPTY_SERVER, Submission(a), s1) && Run(s1, Submission(b), s2)
    ensures Orderly(s2) && Covered(s2) && s2.ledger == map[a.terms.username := Tied(a), b.terms.username := Tied(b)]
    ensures s2.book.orders == map["A/B" := [a, b]]
    ensures s2.startUp == Fresh && s2.pending == [] && s2.passes == multiset{}
  {
    s1 := EmptySubmission(a);
    s2 := SecondSubmission(s1, a, b);
  }

  lemma {:induction false} SecondSubmission(s: Exchange, a: Order, b: Order) returns (s2: Exchange)
    requires Orderly(s) && Covered(s) && Newcomer(s, b) && Before(a, b)
    requires s.book.orders == map["A/B" := [a]] && s.startUp == Fresh && s.pending == [] && s.passes == multiset{}
    ensures Run(s, Submission(b), s2) && Orderly(s2) && Covered(s2)
    ensures s2.ledger == s.ledger[b.terms.username := Tied(b)] && s2.nextId == s.nextId + 1
    ensures s2.book.orders == map["A/B" := [a, b]]
    ensures s2.accepted == [] && s2.startUp == Fresh && s2.pending == [] && s2.passes == multiset{}
  {
    s2 := SubmissionReaches(s, b);
    SecondInList(a, b);
    ReachedIsCovered(s, Submission(b), s2);
    assert map["A/B" := [a]]["A/B" := [a, b]] == map["A/B" := [a, b]];
  }

  lemma {:induction false} SecondInList(a: Order, b: Order)
    requires Before(a, b)
    ensures InsertByTime([a], b) == [a, b]
  {
  }

  lemma {:induction false} BeforeDriftIsReached() returns (s1: Exchange, s2: Exchange, s3: Exchange)
    ensures Initial(EMPTY_SERVER) && Run(EMPTY_SERVER, Submission(BELOW_ZERO), s1) && Run(s1, Submission(FUNDED), s2)
    ensures Run(s2, Dispatch("A/B"), s3) && BeforeDrift(s3)
  {
    s1, s2 := TwoSubmissions(BELOW_ZERO, FUNDED);
    s3 := DispatchReaches(s2, "A/B");
    ReachedIsCovered(s2, Dispatch("A/B"), s3);
  }

  lemma {:induction false} DriftThrows(s: Exchange)
    requires BeforeDrift(s)
    ensures Enabled(s, DRIFT) && !Settles(s, DRIFT) && Merge([BELOW_ZERO], [FUNDED]) == [FillOf(BELOW_ZERO, FUNDED)]
  {
    TwoAreRanked(BELOW_ZERO, FUNDED);
    TwoTradeOnce(BELOW_ZERO, FUNDED);
    BelowZeroIsWild();
    FirstFillThrows(s.ledger, [BELOW_ZERO, FUNDED], "A/B", Merge([BELOW_ZERO], [FUNDED]));
  }

  lemma {:induction false} DriftLeaks(s: Exchange)
    requires BeforeDrift(s)
    ensures Enabled(s, DRIFT) && Leak(s, DRIFT, "ann", "B") == 2.0
    ensures Slack(Next(s, DRIFT), "ann", "B") == Slack(s, "ann", "B") + 2.0
  {
    DriftThrows(s);
    DriftRefund();
    StepLeaks(s, DRIFT);
  }

  lemma {:induction false} DriftRefund()
    ensures ThrowLeak([FillOf(BELOW_ZERO, FUNDED)], "ann", "B") == 2.0
  {
    TokensOfWitnesses();
  }

  lemma {:induction false} DriftPays(s: Exchange)
    requires BeforeDrift(s)
    ensures Enabled(s, DRIFT) && LockedOf(Next(s, DRIFT).ledger, "ann", "B") == 2.0
  {
    DriftThrows(s);
    DriftFills();
    ThrownPassPays(s, DRIFT, "ann", "B");
    CoveredThrowHalfSettles(s, "A/B", Merge([BELOW_ZERO], [FUNDED]));
    assert (s.tape + [FillOf(BELOW_ZERO, FUNDED)])[|s.tape|..] == [FillOf(BELOW_ZERO, FUNDED)];
  }

  lemma {:induction false} DriftFills()
    ensures PaidBy([FillOf(BELOW_ZERO, FUNDED)], "ann", "B") == -1.0 && SoldBy([FillOf(BELOW_ZERO, FUNDED)], "ann", "B") == 0.0
  {
    TokensOfWitnesses();
    assert [FillOf(BELOW_ZERO, FUNDED)][1..] == [];
  }

  lemma {:induction false} DriftMints(s: Exchange)
    requires BeforeDrift(s)
    ensures Enabled(s, DRIFT) && Money(Next(s, DRIFT).ledger, "B") == Money(s.ledger, "B") + 1.0
  {
    DriftThrows(s);
    TokensOfWitnesses();
    PassConserves(s, "A/B", Merge([BELOW_ZERO], [FUNDED]), "B");
    CoveredThrowHalfSettles(s, "A/B", Merge([BELOW_ZERO], [FUNDED]));
    assert Minted(s.ledger, FillOf(BELOW_ZERO, FUNDED), "B") == 1.0;
  }

  /** A client sells at minus one to a client who bids one: the pass throws; the buyer, who had one B locked
      for one bid, has two B locked for no bid, and there is one B more in the system. */
  lemma {:induction false} ThrowDrifts() returns (s1: Exchange, s2: Exchange, s3: Exchange)
    ensures Initial(EMPTY_SERVER) && Run(EMPTY_SERVER, Submission(BELOW_ZERO), s1) && Run(s1, Submission(FUNDED), s2)
    ensures Run(s2, Dispatch("A/B"), s3) && Enabled(s3, DRIFT) && !Settles(s3, DRIFT)
    ensures LockedOf(s3.ledger, "ann", "B") == 1.0 && LockedOf(Next(s3, DRIFT).ledger, "ann", "B") == 2.0
    ensures Slack(Next(s3, DRIFT), "ann", "B") == Slack(s3, "ann", "B") + 2.0
    ensures Money(Next(s3, DRIFT).ledger, "B") == Money(s3.ledger, "B") + 1.0
  {
    s1, s2, s3 := BeforeDriftIsReached();
    DriftThrows(s3);
    DriftLeaks(s3);
    DriftPays(s3);
    DriftMints(s3);
  }

  // ---- a negative pair ----

  /** `BID A/B -1 -1`. */
  const BOTH_NEGATIVE := Order(Terms(-1.0, "1", "A/B", Bid, "ann", 0), -1.0)

  const PURGE := Match("A/B", "2", [], [BOTH_NEGATIVE])

  lemma {:induction false} PurgeIsEnabled(s: Exchange)
    requires s.book.orders == map["A/B" := [BOTH_NEGATIVE]] && s.passes == multiset{"A/B"}
    ensures Enabled(s, PURGE) && Settles(s, PURGE)
  {
    var orders := ListOf(s.book, "A/B");
    assert Side(orders, Ask) == [] && Side(orders, Bid) == [BOTH_NEGATIVE] by {
      assert orders[1..] == [];
    }
  }

  lemma {:induction false} PurgeStrands(s: Exchange)
    requires Orderly(s) && Covered(s) && Enabled(s, PURGE) && Settles(s, PURGE)
    requires s.book.orders == map["A/B" := [BOTH_NEGATIVE]]
    ensures !Live(Next(s, PURGE).book, BOTH_NEGATIVE.terms)
    ensures forall later, r | Run(Next(s, PURGE), later, r) :: LockedOf(r.ledger, "ann", "B") >= 1.0
  {
    TokensOfWitnesses();
    NegativePairIsStranded(s, PURGE, BOTH_NEGATIVE, [], Next(s, PURGE));
    forall later, r | Run(Next(s, PURGE), later, r) ensures LockedOf(r.ledger, "ann", "B") >= 1.0 {
      NegativePairIsStranded(s, PURGE, BOTH_NEGATIVE, later, r);
    }
  }

  /** Amount and price both minus one: the server locks one B; the first pass purges the order; and
      that B stays locked in every later run. */
  lemma {:induction false} MinusOneTimesMinusOne() returns (s: Exchange, s': Exchange)
    ensures Initial(EMPTY_SERVER) && Run(EMPTY_SERVER, Submission(BOTH_NEGATIVE), s) && Run(s, Dispatch("A/B"), s')
    ensures LockedOf(s.ledger, "ann", "B") == 1.0 && Enabled(s', PURGE) && Settles(s', PURGE)
    ensures !Live(Next(s', PURGE).book, BOTH_NEGATIVE.terms)
    ensures forall later, r | Run(Next(s', PURGE), later, r) :: LockedOf(r.ledger, "ann", "B") >= 1.0
  {
    s := EmptySubmission(BOTH_NEGATIVE);
    s' := DispatchReaches(s, "A/B");
    PurgeIsEnabled(s');
    ReachedIsCovered(s, Dispatch("A/B"), s');
    PurgeStrands(s');
  }

  // ---- a CANCEL of an order that is filled meanwhile ----

  /** One A for sale in the CSV file, and `BID A/B 2 1`. */
  const FOR_SALE := Order(Terms(1.0, "1", "A/B", Ask, DEFAULT_USER, 0), 1.0)
  const FOR_TWO := Order(Terms(1.0, "2", "A/B", Bid, "ann", 1), 2.0)
  const FOR_ONE := Order(FOR_TWO.terms, 1.0)

  const SALE_SERVER := ComeUp(map["A/B" := [FOR_SALE]], map[], 1)

  lemma {:induction false} OneOrderIsInitial(o: Order)
    requires o.terms.username == DEFAULT_USER && o.terms.id == 0 && o.terms.product == "A/B"
    ensures Initial(ComeUp(map["A/B" := [o]], map[], 1))
  {
    var b := ComeUp(map["A/B" := [o]], map[], 1).book;
    forall x | Live(b, x) ensures x == o.terms {
    }
  }

  /** A CSV ask and a client's bid in the book, and the pass about to run. */
  ghost predicate BeforeFill(s: Exchange, ask: Order, bid: Order) {
    && Orderly(s) && Covered(s) && Client(s, "ann") && s.accepted == [] && s.passes == multiset{"A/B"}
    && s.book.orders == map["A/B" := [ask, bid]] && s.nextId == 2 && s.ledger == map["ann" := Tied(bid)]
  }

  /** A CSV ask of one, and a client's bid that comes after it and crosses it. */
  predicate Meet(ask: Order, bid: Order) {
    && ask.terms == Terms(1.0, "1", "A/B", Ask, DEFAULT_USER, 0) && bid.terms == Terms(1.0, "2", "A/B", Bid, "ann", 1)
    && ask.amount > 0.0 && bid.amount > 0.0
  }

  lemma {:induction false} BeforeFillIsReached(ask: Order, bid: Order) returns (s: Exchange, s': Exchange)
    requires Meet(ask, bid)
    ensures var start := ComeUp(map["A/B" := [ask]], map[], 1);
      Initial(start) && Run(start, Submission(bid), s) && Run(s, Dispatch("A/B"), s') && BeforeFill(s', ask, bid)
  {
    var start := ComeUp(map["A/B" := [ask]], map[], 1);
    OneOrderIsInitial(ask);
    StartIsCovered(start);
    s := SecondSubmission(start, ask, bid);
    s' := DispatchReaches(s, "A/B");
    ReachedIsCovered(s, Dispatch("A/B"), s');
  }

  lemma {:induction false} CopyOfBid(s: Exchange, ask: Order, bid: Order)
    requires Meet(ask, bid) && BeforeFill(s, ask, bid)
    ensures Copying(s, "ann", 1) && OwnCopy(s, "ann", 1) == bid
  {
    assert OwnedAt(s.book, "A/B", 1, "ann", 1);
    OwnedIsReported(s.book, "A/B", 1, "ann", 1);
    var product, k := CopyFinds(s, "ann", 1);
    assert product == "A/B";
  }

  function Fill(ask: Order, bid: Order): Step { Match("A/B", "3", [ask], [bid]) }

  lemma {:induction false} FillSettles(s: Exchange, ask: Order, bid: Order)
    requires Meet(ask, bid) && BeforeFill(s, ask, bid)
    ensures Merge([ask], [bid]) == [FillOf(ask, bid)] && Enabled(s, Fill(ask, bid)) && Settles(s, Fill(ask, bid))
  {
    TwoAreRanked(ask, bid);
    TwoTradeOnce(ask, bid);
    TokensOfWitnesses();
    NoPassThrows(s, "A/B", [FillOf(ask, bid)]);
  }

  lemma {:induction false} FillSums(ask: Order, bid: Order)
    requires Meet(ask, bid)
    ensures var fills, q := [FillOf(ask, bid)], FillOf(ask, bid).qty;
      && PaidBy(fills, "ann", "B") == q && RefundedTo(fills, "ann", "B") == SoldBy(fills, "ann", "B") == 0.0
      && BoughtBy(fills, "ann", "B") == EarnedBy(fills, "ann", "B") == 0.0
  {
    TokensOfWitnesses();
    assert [FillOf(ask, bid)][1..] == [];
  }

  lemma {:induction false} FillPays(s: Exchange, ask: Order, bid: Order)
    requires Meet(ask, bid) && BeforeFill(s, ask, bid)
    ensures Enabled(s, Fill(ask, bid))
    ensures var s' := Next(s, Fill(ask, bid));
      LockedOf(s'.ledger, "ann", "B") == bid.amount - FillOf(ask, bid).qty && FreeOf(s'.ledger, "ann", "B") == 0.0
  {
    FillSettles(s, ask, bid);
    FillSums(ask, bid);
    FillIsTaped(s, ask, bid);
    PassTakes(s, Fill(ask, bid), [FillOf(ask, bid)], "ann", "B");
  }

  /** A pass that makes these fills, from which the client gets nothing. */
  lemma {:induction false} PassTakes(s: Exchange, step: Step, fills: seq<Trade>, user: string, currency: string)
    requires Sound(s) && Covered(s) && step.Match? && Enabled(s, step) && Settles(s, step) && user != DEFAULT_USER
    requires s.tape <= Next(s, step).tape && Next(s, step).tape[|s.tape|..] == fills
    requires RefundedTo(fills, user, currency) == SoldBy(fills, user, currency) == 0.0
    requires BoughtBy(fills, user, currency) == EarnedBy(fills, user, currency) == 0.0
    ensures LockedOf(Next(s, step).ledger, user, currency)
         == LockedOf(s.ledger, user, currency) - PaidBy(fills, user, currency)
    ensures FreeOf(Next(s, step).ledger, user, currency) == FreeOf(s.ledger, user, currency)
  {
    PassPays(s, step, user, currency);
  }

  lemma {:induction false} FillIsTaped(s: Exchange, ask: Order, bid: Order)
    requires Merge([ask], [bid]) == [FillOf(ask, bid)] && Enabled(s, Fill(ask, bid)) && Settles(s, Fill(ask, bid))
    ensures s.tape <= Next(s, Fill(ask, bid)).tape
    ensures Next(s, Fill(ask, bid)).tape[|s.tape|..] == [FillOf(ask, bid)]
  {
  }

  /** The list once the two have traded and the pass has purged it. */
  function Remaining(ask: Order, bid: Order): seq<Order> {
    var q := FillOf(ask, bid).qty;
    (if ask.amount - q > 0.0 then [ask.(amount := ask.amount - q)] else [])
    + (if bid.amount - q > 0.0 then [bid.(amount := bid.amount - q)] else [])
  }

  lemma {:induction false} FillLeaves(b: Book, ask: Order, bid: Order, sales: seq<Order>)
    requires Meet(ask, bid) && BookOk(b) && b.orders == map["A/B" := [ask, bid]]
    ensures AfterPass(b, "A/B", [FillOf(ask, bid)], sales).orders == map["A/B" := Remaining(ask, bid)]
  {
    var q := FillOf(ask, bid).qty;
    TwoAreLeft(ask, bid);
    TwoArePurged(ask.(amount := ask.amount - q), bid.(amount := bid.amount - q));
    OnePassLeaves(b, "A/B", [ask, bid], [FillOf(ask, bid)], sales);
  }

  lemma {:induction false} OnePassLeaves(b: Book, product: string, orders: seq<Order>, trades: seq<Trade>, sales: seq<Order>)
    requires BookOk(b) && b.orders == map[product := orders]
    ensures AfterPass(b, product, trades, sales).orders == map[product := Purge(Apply(orders, trades))]
  {
    AfterPassKeeps(b, product, trades, sales);
  }

  lemma {:induction false} AfterFill(s: Exchange, ask: Order, bid: Order) returns (s': Exchange)
    requires Meet(ask, bid) && BeforeFill(s, ask, bid)
    ensures Enabled(s, Fill(ask, bid)) && s' == Next(s, Fill(ask, bid)) && Orderly(s') && Client(s', "ann")
    ensures s'.book.orders == map["A/B" := Remaining(ask, bid)] && s'.accepted == [] && s'.nextId == 3
    ensures LockedOf(s'.ledger, "ann", "B") == bid.amount - FillOf(ask, bid).qty && FreeOf(s'.ledger, "ann", "B") == 0.0
  {
    FillSettles(s, ask, bid);
    FillPays(s, ask, bid);
    s' := Next(s, Fill(ask, bid));
    StepIsOrderly(s, Fill(ask, bid));
    StepKeepsUsers(s, Fill(ask, bid));
    FillLeaves(s.book, ask, bid, SalesOf([FillOf(ask, bid)], "A/B", "3", s.nextId));
  }

  /** The wallet does not have the two B any more that the copy asks for; the call's result is not looked
      at ... */
  lemma {:induction false} StaleRelease(s: Exchange)
    requires Client(s, "ann") && LockedOf(s.ledger, "ann", "B") == 1.0
    ensures var s' := Unlocked(s, FOR_TWO);
      && s' == s.(ledger := s'.ledger) && s'.ledger.Keys == s.ledger.Keys && LockedOf(s'.ledger, "ann", "B") == 1.0
      && !Frees(s, FOR_TWO)
  {
    TokensOfWitnesses();
  }

  /** ... and what is left of the bid is removed all the same. */
  lemma {:induction false} StaleErase(s: Exchange, o: Order)
    requires BookOk(s.book) && s.book.orders == map[o.terms.product := [o]] && o.terms.username != DEFAULT_USER
    ensures var s' := Erased(s, o.terms);
      s'.book.orders == map[o.terms.product := []] && s'.accepted == s.accepted && s'.ledger == s.ledger
  {
    assert OwnedAt(s.book, o.terms.product, 0, o.terms.username, o.terms.id);
    RemoveByIdDrops(s.book, o.terms.username, o.terms.id, o.terms.product, 0);
    DropOnly(s.book, o);
    assert Erased(s, o.terms).book == Drop(s.book, o.terms.product, 0);
  }

  lemma {:induction false} DropOnly(b: Book, o: Order)
    requires b.orders == map[o.terms.product := [o]]
    ensures Drop(b, o.terms.product, 0).orders == map[o.terms.product := []]
  {
    assert RemoveAt([o], 0) == [];
  }

  lemma {:induction false} StaleEnds(s: Exchange) returns (end: Exchange)
    requires Orderly(s) && Client(s, "ann") && s.book.orders == map["A/B" := [FOR_ONE]] && s.accepted == []
    requires LockedOf(s.ledger, "ann", "B") == 1.0
    ensures end == Erased(Unlocked(s, FOR_TWO), FOR_TWO.terms) && !Frees(s, FOR_TWO)
    ensures LockedOf(end.ledger, "ann", "B") == 1.0 && Reserves(end, "ann", "B") == 0.0
  {
    StaleRelease(s);
    StaleErase(Unlocked(s, FOR_TWO), FOR_ONE);
    end := Erased(Unlocked(s, FOR_TWO), FOR_TWO.terms);
    OneList(end.book, Reserve("ann", "B"), []);
  }

  lemma {:induction false} StaleFill(s: Exchange) returns (s2: Exchange)
    requires BeforeFill(s, FOR_SALE, FOR_TWO)
    ensures Enabled(s, Fill(FOR_SALE, FOR_TWO)) && s2 == Next(s, Fill(FOR_SALE, FOR_TWO)) && Orderly(s2) && Client(s2, "ann")
    ensures s2.book.orders == map["A/B" := [FOR_ONE]] && s2.accepted == [] && LockedOf(s2.ledger, "ann", "B") == 1.0
  {
    s2 := AfterFill(s, FOR_SALE, FOR_TWO);
    assert Remaining(FOR_SALE, FOR_TWO) == [FOR_ONE];
  }

  lemma {:induction false} OneStepRuns(s: Exchange, step: Step)
    requires Enabled(s, step) && !step.CancelById?
    ensures Run(s, [step], Next(s, step)) && NoCancel([step])
  {
    assert [step][1..] == [];
  }

  /** A CANCEL that overtakes a fill: the bid is gone, one B of it stays locked, and the client is told
      that the order was cancelled. */
  lemma {:induction false} StaleCopyStrands() returns (s: Exchange, s': Exchange, end: Exchange)
    ensures Initial(SALE_SERVER) && Run(SALE_SERVER, Submission(FOR_TWO), s) && Run(s, Dispatch("A/B"), s')
    ensures Acts(Resting(s'), [Copy("ann", 1)] + (Doing([Fill(FOR_SALE, FOR_TWO)]) + ([Release(0)] + [Discard(0)])),
                 Resting(end))
    ensures LockedOf(end.ledger, "ann", "B") == 1.0 && Reserves(end, "ann", "B") == 0.0
  {
    s, s' := BeforeFillIsReached(FOR_SALE, FOR_TWO);
    var s2 := StaleFill(s');
    end := StaleEnds(s2);
    CopyOfBid(s', FOR_SALE, FOR_TWO);
    OneStepRuns(s', Fill(FOR_SALE, FOR_TWO));
    StepsBetween(s', "ann", 1, [Fill(FOR_SALE, FOR_TWO)], s2, FOR_TWO);
  }

  // ---- and the funds of another order, released for it ----

  /** Two A for sale; a bid for one of them; and a later bid for the other. */
  const STOCK := Order(FOR_SALE.terms, 2.0)
  const LATER := Order(Terms(1.0, "4", "A/B", Bid, "ann", 3), 1.0)

  const STOCK_SERVER := ComeUp(map["A/B" := [STOCK]], map[], 1)

  /** After CANCEL has copied the first bid it is filled, and the client places the second. */
  function Meanwhile(): seq<Step> {
    [Fill(STOCK, FOR_ONE)] + [Deposit("ann", "B", 1.0)] + [Place(LATER)] + [Step.Insert(0)]
  }

  lemma {:induction false} DepositOne(s: Exchange) returns (s3: Exchange)
    requires Client(s, "ann") && LockedOf(s.ledger, "ann", "B") == 0.0 && FreeOf(s.ledger, "ann", "B") == 0.0
    ensures Enabled(s, Deposit("ann", "B", 1.0)) && s3 == Next(s, Deposit("ann", "B", 1.0))
    ensures s3 == s.(ledger := s3.ledger) && Client(s3, "ann")
    ensures LockedOf(s3.ledger, "ann", "B") == 0.0 && FreeOf(s3.ledger, "ann", "B") == 1.0
  {
    s3 := Next(s, Deposit("ann", "B", 1.0));
  }

  lemma {:induction false} PlaceLater(s: Exchange) returns (s4: Exchange)
    requires Client(s, "ann") && LockedOf(s.ledger, "ann", "B") == 0.0 && FreeOf(s.ledger, "ann", "B") == 1.0
    requires s.nextId == 3 && s.accepted == []
    ensures Enabled(s, Place(LATER)) && s4 == Next(s, Place(LATER)) && Client(s4, "ann") && s4.book == s.book
    ensures s4.accepted == [LATER] && LockedOf(s4.ledger, "ann", "B") == 1.0
  {
    TokensOfWitnesses();
    FulfillReserves(s.ledger["ann"], LATER);
    s4 := Next(s, Place(LATER));
  }

  lemma {:induction false} InsertLater(s: Exchange) returns (s5: Exchange)
    requires s.accepted == [LATER] && s.book.orders == map["A/B" := [FOR_SALE]]
    ensures Enabled(s, Step.Insert(0)) && s5 == Next(s, Step.Insert(0)) && s5.ledger == s.ledger && s5.accepted == []
    ensures s5.book.orders == map["A/B" := [FOR_SALE, LATER]]
  {
    s5 := Next(s, Step.Insert(0));
    SecondInList(FOR_SALE, LATER);
    assert RemoveAt([LATER], 0) == [];
    assert map["A/B" := [FOR_SALE]]["A/B" := [FOR_SALE, LATER]] == map["A/B" := [FOR_SALE, LATER]];
  }

  /** The server when CANCEL goes on: the first bid is gone, the second has its funds locked. */
  ghost predicate BeforeRobbing(s: Exchange) {
    && Client(s, "ann") && s.accepted == [] && s.book.orders == map["A/B" := [FOR_SALE, LATER]]
    && LockedOf(s.ledger, "ann", "B") == 1.0
  }

  lemma {:induction false} MeanwhileReaches(s: Exchange) returns (s5: Exchange)
    requires BeforeFill(s, STOCK, FOR_ONE)
    ensures Run(s, Meanwhile(), s5) && BeforeRobbing(s5)
  {
    var s2 := StockFill(s);
    var s3, s4;
    s3, s4, s5 := LaterReaches(s2);
    MeanwhileRuns(s, s2, s3, s4, s5, Fill(STOCK, FOR_ONE), Deposit("ann", "B", 1.0), Place(LATER), Step.Insert(0));
  }

  lemma {:induction false} StockFill(s: Exchange) returns (s2: Exchange)
    requires BeforeFill(s, STOCK, FOR_ONE)
    ensures Enabled(s, Fill(STOCK, FOR_ONE)) && s2 == Next(s, Fill(STOCK, FOR_ONE)) && Client(s2, "ann")
    ensures s2.book.orders == map["A/B" := [FOR_SALE]] && s2.accepted == [] && s2.nextId == 3
    ensures LockedOf(s2.ledger, "ann", "B") == 0.0 && FreeOf(s2.ledger, "ann", "B") == 0.0
  {
    s2 := AfterFill(s, STOCK, FOR_ONE);
    assert Remaining(STOCK, FOR_ONE) == [FOR_SALE];
  }

  lemma {:induction false} LaterReaches(s2: Exchange) returns (s3: Exchange, s4: Exchange, s5: Exchange)
    requires Client(s2, "ann") && LockedOf(s2.ledger, "ann", "B") == 0.0 && FreeOf(s2.ledger, "ann", "B") == 0.0
    requires s2.book.orders == map["A/B" := [FOR_SALE]] && s2.accepted == [] && s2.nextId == 3
    ensures Enabled(s2, Deposit("ann", "B", 1.0)) && s3 == Next(s2, Deposit("ann", "B", 1.0))
    ensures Enabled(s3, Place(LATER)) && s4 == Next(s3, Place(LATER))
    ensures Enabled(s4, Step.Insert(0)) && s5 == Next(s4, Step.Insert(0)) && BeforeRobbing(s5)
  {
    s3 := DepositOne(s2);
    s4 := PlaceLater(s3);
    s5 := InsertLater(s4);
  }

  lemma {:induction false} NoOtherCancel()
    ensures NoCancel(Meanwhile())
  {
  }

  lemma {:induction false} MeanwhileRuns(s: Exchange, s2: Exchange, s3: Exchange, s4: Exchange, s5: Exchange,
                                         a: Step, b: Step, c: Step, d: Step)
    requires Enabled(s, a) && s2 == Next(s, a) && Enabled(s2, b) && s3 == Next(s2, b)
    requires Enabled(s3, c) && s4 == Next(s3, c) && Enabled(s4, d) && s5 == Next(s4, d)
    ensures Run(s, [a] + [b] + [c] + [d], s5)
  {
    OneMoreStep(s, [], s, a);
    assert [] + [a] == [a];
    OneMoreStep(s, [a], s2, b);
    OneMoreStep(s, [a] + [b], s3, c);
    OneMoreStep(s, [a] + [b] + [c], s4, d);
  }

  lemma {:induction false} RobbedSlack(s: Exchange)
    requires BeforeRobbing(s)
    ensures Slack(s, "ann", "B") == 0.0 && Reserves(s, "ann", "B") == 1.0
  {
    BidAloneNeeds(s, FOR_SALE, LATER, Reserve("ann", "B"));
    BidAloneNeeds(s, FOR_SALE, LATER, Stuck("ann", "B"));
  }

  /** Of an ask of somebody else and a bid of the client, the bid alone counts. */
  lemma {:induction false} BidAloneNeeds(s: Exchange, a: Order, b: Order, m: Meter)
    requires s.book.orders == map["A/B" := [a, b]] && s.accepted == [] && a.terms.username != "ann"
    requires b.terms.product == "A/B" && b.terms.orderType == Bid && b.terms.username == "ann" && b.terms.price == 1.0
    requires m == Reserve("ann", "B") || m == Stuck("ann", "B")
    ensures Needed(s, m) == if m.Stuck? then 0.0 else Open(b)
  {
    OthersWeighNothing(a, m);
    BidReserves(b);
    TwoNeed(s, a, b, m, 0.0, if m.Stuck? then 0.0 else Open(b));
  }

  lemma {:induction false} OthersWeighNothing(o: Order, m: Meter)
    requires o.terms.username != "ann" && (m == Reserve("ann", "B") || m == Stuck("ann", "B"))
    ensures Weight(m, o) == 0.0
  {
    WeightIs(o, "ann", "B");
  }

  lemma {:induction false} TwoNeed(s: Exchange, a: Order, b: Order, m: Meter, x: real, y: real)
    requires s.book.orders == map["A/B" := [a, b]] && s.accepted == [] && Weight(m, a) == x && Weight(m, b) == y
    ensures Needed(s, m) == x + y
  {
    OneList(s.book, m, [a, b]);
    assert [a] + [b] == [a, b];
    MeasureJoins(m, [a], [b]);
    MeasureOfOne(m, a);
    MeasureOfOne(m, b);
  }

  /** The wallet has the one B that the copy asks for, but it is locked for the second bid; and there is no
      first bid to remove. */
  lemma {:induction false} ReleaseRobs(s: Exchange)
    requires Orderly(s) && BeforeRobbing(s) && CopyOk(s, FOR_ONE)
    ensures Frees(s, FOR_ONE) && Freed(s, FOR_ONE, "B") == 1.0 && StillHeld(s.book, FOR_ONE.terms, "B") == 0.0
    ensures var end := Erased(Unlocked(s, FOR_ONE), FOR_ONE.terms);
      end.book == s.book && end.accepted == [] && "ann" in end.ledger && LockedOf(end.ledger, "ann", "B") == 0.0
  {
    TokensOfWitnesses();
    FreesExactlyWhen(s, FOR_ONE);
    UnlockShifts(s, FOR_ONE, "B");
    NotThere();
    UnlockedStaysOrderly(s, FOR_ONE);
    GoneIsNotFound(Unlocked(s, FOR_ONE), FOR_ONE.terms);
  }

  lemma {:induction false} NotThere()
    ensures !Holds([FOR_SALE, LATER], FOR_ONE.terms)
  {
  }

  /** Whoever trades with a bid whose funds are gone makes the pass throw. */
  lemma {:induction false} NoFundsThrow(l: Ledger, trades: seq<Trade>)
    requires IsPass([FOR_SALE, LATER], trades) && "ann" in l && LockedOf(l, "ann", "B") == 0.0
    ensures SettleAll(l, trades).error == Some(BuyerFunds)
  {
    var orders := [FOR_SALE, LATER];
    assert FOR_SALE in orders && LATER in orders;
    TradesExactlyWhenCrossed(orders, trades);
    assert trades[0] in trades;
    PassTradesIn(orders, trades, "A/B", trades[0]);
    PassIsFeasible(orders, trades);
    assert Between(trades[0], orders);
    BuyerHasNothing(l, trades[0]);
  }

  lemma {:induction false} BuyerHasNothing(l: Ledger, t: Trade)
    requires t.bid == LATER.terms && t.ask == FOR_SALE.terms && t.qty > 0.0
    requires "ann" in l && LockedOf(l, "ann", "B") == 0.0
    ensures Settle(l, t).error == Some(BuyerFunds)
  {
    TokensOfWitnesses();
  }

  /** A CANCEL that overtakes a fill, of a client with another bid: the first bid was filled and paid for;
      the copy's release frees the funds of the second; and from then on every pass over the two orders left
      throws for want of funds. */
  lemma {:induction false} StaleCopyRobs() returns (s: Exchange, s': Exchange, end: Exchange)
    ensures Initial(STOCK_SERVER) && Run(STOCK_SERVER, Submission(FOR_ONE), s) && Run(s, Dispatch("A/B"), s')
    ensures Acts(Resting(s'), [Copy("ann", 1)] + (Doing(Meanwhile()) + ([Release(0)] + [Erase(0)])), Resting(end))
    ensures Reserves(end, "ann", "B") == 1.0 && LockedOf(end.ledger, "ann", "B") == 0.0 && Slack(end, "ann", "B") == -1.0
    ensures ListOf(end.book, "A/B") == [FOR_SALE, LATER]
    ensures forall trades | IsPass([FOR_SALE, LATER], trades) :: SettleAll(end.ledger, trades).error == Some(BuyerFunds)
  {
    s, s' := BeforeFillIsReached(STOCK, FOR_ONE);
    var s5 := MeanwhileReaches(s');
    CopyOfBid(s', STOCK, FOR_ONE);
    NoOtherCancel();
    StepsBetween(s', "ann", 1, Meanwhile(), s5, FOR_ONE);
    end := Erased(Unlocked(s5, FOR_ONE), FOR_ONE.terms);
    RobbingEnds(s5, end);
    forall trades | IsPass([FOR_SALE, LATER], trades) ensures SettleAll(end.ledger, trades).error == Some(BuyerFunds) {
      NoFundsThrow(end.ledger, trades);
    }
  }

  lemma {:induction false} RobbingEnds(s: Exchange, end: Exchange)
    requires Orderly(s) && BeforeRobbing(s) && CopyOk(s, FOR_ONE)
    requires end == Erased(Unlocked(s, FOR_ONE), FOR_ONE.terms)
    ensures Frees(s, FOR_ONE) && end.book == s.book && "ann" in end.ledger
    ensures LockedOf(end.ledger, "ann", "B") == 0.0 && Slack(end, "ann", "B") == -1.0 && Reserves(end, "ann", "B") == 1.0
  {
    ReleaseRobs(s);
    RobbedSlack(s);
    SameOrders(s, end, "ann", "B");
  }

  lemma {:induction false} SameOrders(s: Exchange, s': Exchange, user: string, currency: string)
    requires s'.book == s.book && s'.accepted == s.accepted
    ensures Reserves(s', user, currency) == Reserves(s, user, currency)
    ensures Slack(s', user, currency) - LockedOf(s'.ledger, user, currency)
         == Slack(s, user, currency) - LockedOf(s.ledger, user, currency)
  {
  }

  // ---- two withdrawals in the middle of a pass ----

  const FIVE := Trade(Terms(5.0, "1", "A/B", Ask, "sue", 0), Terms(5.0, "2", "A/B", Bid, "ben", 1), 1.0)
  const PURSES: Ledger := map["sue" := Purse(map[], map["A" := 2.0]), "ben" := Purse(map[], map["B" := 10.0])]

  lemma {:induction false} TwoAreOwed(t: Trade, user: string, currency: string)
    requires SaneTrade(t) && |ExtractTokens(t.ask.product, '/')| == 2
    ensures Traded(Reserve(user, currency), [t, t]) == Owed(t, user, currency) + Owed(t, user, currency)
  {
    assert [t, t][1..] == [t];
    OneTrade(map[], t);
  }

  lemma {:induction false} FiveIsCovered()
    ensures SaneTrade(FIVE) && CoversAll(PURSES, [FIVE, FIVE])
  {
    TokensOfWitnesses();
    forall u, c | u != DEFAULT_USER ensures LockedOf(PURSES, u, c) >= Traded(Reserve(u, c), [FIVE, FIVE]) {
      TwoAreOwed(FIVE, u, c);
      OwedIs(FIVE, u, c);
    }
  }

  /** sue sells twice for five, with nothing of B before. Of two withdrawals of five between the payments the
      first is granted and the second refused, as in no order of the withdrawals and the pass. */
  lemma {:induction false} TwoPayments()
    ensures var op := Withdraws("B", 5.0);
      var script := TwoWithdrawals(CallsOf(FIVE), CallsOf(FIVE), op);
      && SettleAll(PURSES, [FIVE, FIVE]).error.None?
      && PassPart(script) == AllCalls([FIVE, FIVE]) && OwnPart(script) == [op, op]
      && Play(PURSES, script, "sue").outcomes == [Returned(true), Returned(false)]
      && !Serialisable(PURSES, script, "sue")
  {
    TokensOfWitnesses();
    FiveIsCovered();
    SettleAllEffect(PURSES, [FIVE, FIVE]);
    assert Cost(FIVE) == 5.0;
    TwoWithdrawalsParts(CallsOf(FIVE), CallsOf(FIVE), Withdraws("B", 5.0));
    PaidTwice(PURSES, FIVE, FIVE, "sue", "B");
  }
}
