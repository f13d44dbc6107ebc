/** Settling trades against the users' wallets: OrderBook::processSale and its pass-long fold. */
module Settlement {
  import opened Orders
  import opened Tokenizer
  import opened Totals
  import opened Trades
  import opened Meters
  import opened Purses

  /** Every known user's wallet (UserStore). */
  type Ledger = map<string, Purse>

  /** UserStore::getUser: an unknown name throws, except that "default" is created on demand. */
  function GetUser(l: Ledger, user: string): Option<Ledger> {
    if user in l then Some(l)
    else if user == DEFAULT_USER then Some(l[user := EMPTY_PURSE])
    else None
  }

  function LockedOf(l: Ledger, user: string, currency: string): real {
    if user in l then Locked(l[user], currency) else 0.0
  }

  function FreeOf(l: Ledger, user: string, currency: string): real {
    if user in l then Free(l[user], currency) else 0.0
  }

  /** The wallets after a sale was processed, and the exception if one was thrown. */
  datatype Posting = Posting(ledger: Ledger, error: Option<Error>)

  /** The seller's half of processSale. */
  function PaySeller(l: Ledger, t: Trade, base: string, quote: string): Posting
    requires t.ask.username in l
  {
    var seller := t.ask.username;
    var given := Spend(l[seller], base, t.qty);
    var l1 := l[seller := given.purse];
    if given.outcome != Returned(true) && seller != DEFAULT_USER then Posting(l1, Some(SellerFunds))
    else
      var paid := Insert(l1[seller], quote, Cost(t));
      if paid.outcome.Threw? then Posting(l1, Some(paid.outcome.error))
      else Posting(l1[seller := paid.purse], None)
  }

  /** The buyer's half: pay out of what is locked, receive the goods. */
  function ChargeBuyer(l: Ledger, t: Trade, base: string, quote: string): Posting
    requires t.bid.username in l
  {
    var buyer := t.bid.username;
    var spent := Spend(l[buyer], quote, Cost(t));
    var l1 := l[buyer := spent.purse];
    if spent.outcome != Returned(true) && buyer != DEFAULT_USER then Posting(l1, Some(BuyerFunds))
    else
      var received := Insert(l1[buyer], base, t.qty);
      if received.outcome.Threw? then Posting(l1, Some(received.outcome.error))
      else Posting(l1[buyer := received.purse], None)
  }

  /** A buyer who bid above the ask gets the difference unlocked; the result is not looked at. */
  function RefundBuyer(l: Ledger, t: Trade, quote: string): Ledger
    requires t.bid.username in l
  {
    if t.bid.price > t.ask.price then
      l[t.bid.username := Unlock(l[t.bid.username], quote, Refund(t)).purse]
    else l
  }

  function ProcessSale(l: Ledger, t: Trade): Posting
    requires t.bid.username in l && t.ask.username in l
  {
    var tokens := ExtractTokens(t.ask.product, '/');
    if |tokens| != 2 then Posting(l, Some(InvalidProduct))
    else
      var charged := ChargeBuyer(l, t, tokens[0], tokens[1]);
      if charged.error.Some? then charged
      else
        var paid := PaySeller(charged.ledger, t, tokens[0], tokens[1]);
        if paid.error.Some? then paid
        else Posting(RefundBuyer(paid.ledger, t, tokens[1]), None)
  }

  /** One fill: look both users up, buyer first, then process the sale. */
  function Settle(l: Ledger, t: Trade): Posting {
    match GetUser(l, t.bid.username)
    case None => Posting(l, Some(UnknownUser))
    case Some(l1) =>
      match GetUser(l1, t.ask.username)
      case None => Posting(l1, Some(UnknownUser))
      case Some(l2) => ProcessSale(l2, t)
  }

  /** A whole pass: settle the fills in order, stopping at the first exception. */
  function SettleAll(l: Ledger, trades: seq<Trade>): Posting
    decreases |trades|
  {
    if trades == [] then Posting(l, None)
    else
      var first := Settle(l, trades[0]);
      if first.error.Some? then first else SettleAll(first.ledger, trades[1..])
  }

  /** The fills whose amounts a pass slices: all of them, or up to the one that throws, which is
      sliced as well unless one of its users is unknown. */
  function Reached(l: Ledger, trades: seq<Trade>): (r: seq<Trade>)
    decreases |trades|
  {
    if trades == [] then []
    else
      var first := Settle(l, trades[0]);
      if first.error == Some(UnknownUser) then []
      else if first.error.Some? then [trades[0]]
      else [trades[0]] + Reached(first.ledger, trades[1..])
  }

  lemma {:induction false} ReachedIsPrefix(l: Ledger, trades: seq<Trade>)
    ensures Reached(l, trades) <= trades
    ensures SettleAll(l, trades).error.None? ==> Reached(l, trades) == trades
    decreases |trades|
  {
    if trades != [] {
      assert trades == [trades[0]] + trades[1..];
      if Settle(l, trades[0]).error.None? {
        ReachedIsPrefix(Settle(l, trades[0]).ledger, trades[1..]);
      }
    }
  }

  /** Nothing of processing a sale throws for an unknown user: that is settled before. */
  lemma {:induction false} ProcessSaleKnowsUsers(l: Ledger, t: Trade)
    requires t.bid.username in l && t.ask.username in l
    ensures ProcessSale(l, t).error != Some(UnknownUser)
  {
  }

  // ---- what a fill takes from the locked funds ----

  /** What the fill uses up of a user's reserve in one currency. */
  function Owed(t: Trade, user: string, currency: string): real {
    Worth(Reserve(user, currency), t.ask, t.qty) + Worth(Reserve(user, currency), t.bid, t.qty)
  }

  ghost predicate SaneTrade(t: Trade) {
    && t.ask.orderType == Ask && t.bid.orderType == Bid && t.ask.product == t.bid.product
    && t.qty > 0.0 && 0.0 <= t.ask.price <= t.bid.price
  }

  lemma {:induction false} CostSplits(t: Trade)
    requires SaneTrade(t)
    ensures Cost(t) >= 0.0 && Refund(t) >= 0.0
    ensures Cost(t) + Refund(t) == t.bid.price * t.qty
    ensures t.bid.price > t.ask.price <==> Refund(t) > 0.0
  {
    if t.bid.price > t.ask.price {
      var margin := t.bid.price - t.ask.price;
      assert margin * t.qty > 0.0;
      assert Refund(t) == margin * t.qty;
    } else {
      assert t.bid.price - t.ask.price == 0.0;
    }
  }

  /** What a fill owes, whatever the signs of its prices. */
  lemma {:induction false} OwedParts(t: Trade, user: string, currency: string)
    requires t.ask.orderType == Ask && t.bid.orderType == Bid && t.ask.product == t.bid.product
    requires |ExtractTokens(t.ask.product, '/')| == 2
    ensures var tokens := ExtractTokens(t.ask.product, '/');
      Owed(t, user, currency) ==
        (if user == t.ask.username && currency == tokens[0] then t.qty else 0.0)
        + (if user == t.bid.username && currency == tokens[1] then Cost(t) + Refund(t) else 0.0)
  {
    assert Cost(t) + Refund(t) == t.bid.price * t.qty;
  }

  lemma {:induction false} OwedIs(t: Trade, user: string, currency: string)
    requires SaneTrade(t) && |ExtractTokens(t.ask.product, '/')| == 2
    ensures var tokens := ExtractTokens(t.ask.product, '/');
      Owed(t, user, currency) ==
        (if user == t.ask.username && currency == tokens[0] then t.qty else 0.0)
        + (if user == t.bid.username && currency == tokens[1] then Cost(t) + Refund(t) else 0.0)
    ensures Owed(t, user, currency) >= 0.0
  {
    CostSplits(t);
  }

  /** The default user holds no locks. That is so until default buys in a pass that throws. */
  ghost predicate DefaultUnlocked(l: Ledger) {
    forall c :: LockedOf(l, DEFAULT_USER, c) == 0.0
  }

  /** Everyone but default has locked at least what the fill uses up. */
  ghost predicate CoversTrade(l: Ledger, t: Trade) {
    forall u, c | u != DEFAULT_USER :: LockedOf(l, u, c) >= Owed(t, u, c)
  }

  /** The user buys, paying in this currency. */
  predicate Pays(t: Trade, user: string, currency: string) {
    var tokens := ExtractTokens(t.bid.product, '/');
    t.bid.username == user && |tokens| == 2 && tokens[1] == currency
  }

  /** The user buys this currency. */
  predicate Buys(t: Trade, user: string, currency: string) {
    var tokens := ExtractTokens(t.bid.product, '/');
    t.bid.username == user && |tokens| == 2 && tokens[0] == currency
  }

  /** The user sells, being paid in this currency. */
  predicate Earns(t: Trade, user: string, currency: string) {
    var tokens := ExtractTokens(t.ask.product, '/');
    t.ask.username == user && |tokens| == 2 && tokens[1] == currency
  }

  /** The user sells this currency. */
  predicate Sells(t: Trade, user: string, currency: string) {
    var tokens := ExtractTokens(t.ask.product, '/');
    t.ask.username == user && |tokens| == 2 && tokens[0] == currency
  }

  /** What a non-default user receives in free funds. */
  function Received(t: Trade, user: string, currency: string): real {
    var tokens := ExtractTokens(t.ask.product, '/');
    if |tokens| != 2 then 0.0
    else
      (if user == t.bid.username && currency == tokens[0] then t.qty else 0.0)
      + (if user == t.bid.username && currency == tokens[1] then Refund(t) else 0.0)
      + (if user == t.ask.username && currency == tokens[1] then Cost(t) else 0.0)
  }

  // ---- all wallets together ----

  function Held(p: Purse, currency: string): real { Free(p, currency) + Locked(p, currency) }

  function HeldBy(l: Ledger, currency: string): map<string, real> {
    map u | u in l :: Held(l[u], currency)
  }

  /** All the money there is in one currency: free plus locked, over every user. */
  ghost function Money(l: Ledger, currency: string): real { Total(HeldBy(l, currency)) }

  lemma {:induction false} MoneyUpdates(l: Ledger, user: string, p: Purse, currency: string)
    ensures Money(l[user := p], currency)
         == Money(l, currency) - (FreeOf(l, user, currency) + LockedOf(l, user, currency)) + Held(p, currency)
  {
    assert HeldBy(l[user := p], currency) == HeldBy(l, currency)[user := Held(p, currency)];
    TotalUpdates(HeldBy(l, currency), user, Held(p, currency));
  }

  /** How one step of a settlement changes the ledger: locked and free funds of one user, nothing
      of anyone else, and the money total by as much. */
  ghost predicate Shifts(l: Ledger, l': Ledger, user: string, spent: string, out: real, gained: string, into: real)
  {
    && l'.Keys == l.Keys
    && (forall u, c :: LockedOf(l', u, c) == LockedOf(l, u, c) - (if u == user && c == spent then out else 0.0))
    && (forall u, c :: FreeOf(l', u, c) == FreeOf(l, u, c) + (if u == user && c == gained then into else 0.0))
    && (forall c :: Money(l', c) == Money(l, c) - (if c == spent then out else 0.0) + (if c == gained then into else 0.0))
  }

  lemma {:induction false} SettingShifts(l: Ledger, user: string, p: Purse, spent: string, out: real, gained: string,
                                         into: real)
    requires user in l
    requires forall c :: Locked(p, c) == Locked(l[user], c) - (if c == spent then out else 0.0)
    requires forall c :: Free(p, c) == Free(l[user], c) + (if c == gained then into else 0.0)
    ensures Shifts(l, l[user := p], user, spent, out, gained, into)
  {
    forall c {
      MoneyUpdates(l, user, p, c);
    }
  }

  /** What leaves a user's locked funds: nothing when default does not have it locked, who is served
      all the same. */
  function Drawn(l: Ledger, user: string, currency: string, amount: real): real {
    if user == DEFAULT_USER && LockedOf(l, user, currency) < amount then 0.0 else amount
  }

  /** The buyer's half goes through whatever the sign of the price, as long as the locks cover it. */
  lemma {:induction false} ChargeBuyerShifts(l: Ledger, t: Trade, base: string, quote: string)
    requires t.qty > 0.0 && t.bid.username in l
    requires t.bid.username != DEFAULT_USER ==> LockedOf(l, t.bid.username, quote) >= Cost(t)
    ensures var p := ChargeBuyer(l, t, base, quote);
      p.error.None? && Shifts(l, p.ledger, t.bid.username, quote, Drawn(l, t.bid.username, quote, Cost(t)), base, t.qty)
  {
    var buyer := t.bid.username;
    var p := ChargeBuyer(l, t, base, quote);
    SettingShifts(l, buyer, p.ledger[buyer], quote, Drawn(l, buyer, quote, Cost(t)), base, t.qty);
    assert p.ledger == l[buyer := p.ledger[buyer]];
  }

  lemma {:induction false} PaySellerShifts(l: Ledger, t: Trade, base: string, quote: string)
    requires Cost(t) >= 0.0 && t.ask.username in l
    requires t.ask.username != DEFAULT_USER ==> LockedOf(l, t.ask.username, base) >= t.qty
    ensures var p := PaySeller(l, t, base, quote);
      p.error.None? && Shifts(l, p.ledger, t.ask.username, base, Drawn(l, t.ask.username, base, t.qty), quote, Cost(t))
  {
    var seller := t.ask.username;
    var p := PaySeller(l, t, base, quote);
    SettingShifts(l, seller, p.ledger[seller], base, Drawn(l, seller, base, t.qty), quote, Cost(t));
    assert p.ledger == l[seller := p.ledger[seller]];
  }

  /** At a negative price the seller gives the goods, and paying throws. */
  lemma {:induction false} PaySellerThrows(l: Ledger, t: Trade, base: string, quote: string)
    requires Cost(t) < 0.0 && t.ask.username in l
    requires t.ask.username != DEFAULT_USER ==> LockedOf(l, t.ask.username, base) >= t.qty
    ensures var p := PaySeller(l, t, base, quote);
      && p.error == Some(NegativeAmount)
      && Shifts(l, p.ledger, t.ask.username, base, Drawn(l, t.ask.username, base, t.qty), quote, 0.0)
  {
    var seller := t.ask.username;
    var p := PaySeller(l, t, base, quote);
    SettingShifts(l, seller, p.ledger[seller], base, Drawn(l, seller, base, t.qty), quote, 0.0);
    assert p.ledger == l[seller := p.ledger[seller]];
  }

  lemma {:induction false} RefundBuyerShifts(l: Ledger, t: Trade, quote: string)
    requires SaneTrade(t) && t.bid.username in l
    requires t.bid.username != DEFAULT_USER ==> LockedOf(l, t.bid.username, quote) >= Refund(t)
    ensures var r := Drawn(l, t.bid.username, quote, Refund(t));
      Shifts(l, RefundBuyer(l, t, quote), t.bid.username, quote, r, quote, r)
  {
    CostSplits(t);
    var buyer := t.bid.username;
    var l' := RefundBuyer(l, t, quote);
    var r := Drawn(l, buyer, quote, Refund(t));
    SettingShifts(l, buyer, l'[buyer], quote, r, quote, r);
    assert l' == l[buyer := l'[buyer]];
  }

  // ---- the effect of a fill, and of a pass ----

  /** What the buyer's half draws from locked funds ... */
  function BuyerDraws(l: Ledger, t: Trade, quote: string): real { Drawn(l, t.bid.username, quote, Cost(t)) }

  /** ... and then the seller's half. */
  function SellerDraws(l: Ledger, t: Trade, base: string, quote: string): real {
    var left := LockedOf(l, t.ask.username, base)
              - (if t.ask.username == t.bid.username && base == quote then BuyerDraws(l, t, quote) else 0.0);
    if t.ask.username == DEFAULT_USER && left < t.qty then 0.0 else t.qty
  }

  /** What a fill creates out of nothing: default pays and delivers without owning anything; and at a
      negative price the buyer is credited what no seller is charged. */
  function Minted(l: Ledger, t: Trade, currency: string): real {
    var tokens := ExtractTokens(t.ask.product, '/');
    if |tokens| != 2 then 0.0
    else
      (if currency == tokens[1] then Positive(Cost(t)) - BuyerDraws(l, t, tokens[1]) else 0.0)
      + (if currency == tokens[0] then t.qty - SellerDraws(l, t, tokens[0], tokens[1]) else 0.0)
  }

  /** What a pass creates, up to the first exception. */
  function MintedBy(l: Ledger, trades: seq<Trade>, currency: string): real
    decreases |trades|
  {
    if trades == [] then 0.0
    else
      var first := Settle(l, trades[0]);
      Minted(l, trades[0], currency) + if first.error.Some? then 0.0 else MintedBy(first.ledger, trades[1..], currency)
  }

  function ReceivedBy(trades: seq<Trade>, user: string, currency: string): real {
    if trades == [] then 0.0 else Received(trades[0], user, currency) + ReceivedBy(trades[1..], user, currency)
  }

  /** The ledger after fills that took owed out of locked funds, handed received to free funds
      and minted the rest: for every user but default, and for the money as a whole. */
  ghost predicate Settled(l: Ledger, l': Ledger, trades: seq<Trade>) {
    && (DefaultUnlocked(l) ==> DefaultUnlocked(l'))
    && l.Keys <= l'.Keys <= l.Keys + {DEFAULT_USER}
    && (forall u, c | u != DEFAULT_USER ::
          LockedOf(l', u, c) == LockedOf(l, u, c) - Traded(Reserve(u, c), trades))
    && (forall u, c | u != DEFAULT_USER ::
          FreeOf(l', u, c) == FreeOf(l, u, c) + ReceivedBy(trades, u, c))
    && (forall c :: Money(l', c) == Money(l, c) + MintedBy(l, trades, c))
  }

  lemma {:induction false} AccountsOpened(l: Ledger, user: string)
    requires GetUser(l, user).Some?
    ensures var l' := GetUser(l, user).value;
      && user in l' && l.Keys <= l'.Keys <= l.Keys + {DEFAULT_USER}
      && (forall u, c :: LockedOf(l', u, c) == LockedOf(l, u, c) && FreeOf(l', u, c) == FreeOf(l, u, c))
      && (forall c :: Money(l', c) == Money(l, c))
  {
    if user !in l {
      forall c {
        MoneyUpdates(l, user, EMPTY_PURSE, c);
      }
    }
  }

  /** What a sale does to the ledger, in terms of the two currencies and of what leaves the locks. */
  ghost predicate Exchanged(l: Ledger, l': Ledger, buyer: string, seller: string, base: string, quote: string,
                            qty: real, cost: real, refund: real, paid: real, given: real)
  {
    && l'.Keys == l.Keys
    && (DefaultUnlocked(l) && cost >= 0.0 && qty >= 0.0 && refund >= 0.0 ==> DefaultUnlocked(l'))
    && (forall u, c | u != DEFAULT_USER ::
          (LockedOf(l', u, c) == LockedOf(l, u, c)
            - (if u == seller && c == base then qty else 0.0)
            - (if u == buyer && c == quote then cost + refund else 0.0)))
    && (forall u, c | u != DEFAULT_USER ::
          (FreeOf(l', u, c) == FreeOf(l, u, c)
            + (if u == buyer && c == base then qty else 0.0)
            + (if u == buyer && c == quote then refund else 0.0)
            + (if u == seller && c == quote then cost else 0.0)))
    && (forall c ::
          (Money(l', c) == Money(l, c)
            + (if c == quote then cost - paid else 0.0)
            + (if c == base then qty - given else 0.0)))
  }

  /** The three steps of processSale, one after the other. */
  lemma {:induction false} ShiftsChain(l: Ledger, l1: Ledger, l2: Ledger, l3: Ledger, buyer: string, seller: string,
                    base: string, quote: string, qty: real, cost: real, refund: real, paid: real, given: real)
    requires paid == Drawn(l, buyer, quote, cost) && Shifts(l, l1, buyer, quote, paid, base, qty)
    requires given == Drawn(l1, seller, base, qty) && Shifts(l1, l2, seller, base, given, quote, cost)
    requires var r := Drawn(l2, buyer, quote, refund); Shifts(l2, l3, buyer, quote, r, quote, r)
    ensures Exchanged(l, l3, buyer, seller, base, quote, qty, cost, refund, paid, given)
  {
    if DefaultUnlocked(l) && cost >= 0.0 && qty >= 0.0 && refund >= 0.0 {
      UnlockedStays(l, l1, buyer, quote, cost, base, qty);
      UnlockedStays(l1, l2, seller, base, qty, quote, cost);
      UnlockedStays(l2, l3, buyer, quote, refund, quote, Drawn(l2, buyer, quote, refund));
    }
  }

  lemma {:induction false} UnlockedStays(l: Ledger, l': Ledger, user: string, spent: string, amount: real, gained: string,
                                         into: real)
    requires DefaultUnlocked(l) && amount >= 0.0 && Shifts(l, l', user, spent, Drawn(l, user, spent, amount), gained, into)
    ensures DefaultUnlocked(l')
  {
    assert LockedOf(l, DEFAULT_USER, spent) == 0.0;
  }

  ghost predicate SaleSettled(l: Ledger, l': Ledger, t: Trade) {
    && (DefaultUnlocked(l) ==> DefaultUnlocked(l')) && l'.Keys == l.Keys
    && (forall u, c | u != DEFAULT_USER :: LockedOf(l', u, c) == LockedOf(l, u, c) - Owed(t, u, c))
    && (forall u, c | u != DEFAULT_USER :: FreeOf(l', u, c) == FreeOf(l, u, c) + Received(t, u, c))
    && (forall c :: Money(l', c) == Money(l, c) + Minted(l, t, c))
  }

  lemma {:induction false} ProcessSaleExchanges(l: Ledger, t: Trade, base: string, quote: string)
    requires SaneTrade(t) && CoversTrade(l, t)
    requires t.bid.username in l && t.ask.username in l
    requires ExtractTokens(t.ask.product, '/') == [base, quote]
    ensures var p := ProcessSale(l, t);
      && p.error.None?
      && Exchanged(l, p.ledger, t.bid.username, t.ask.username, base, quote, t.qty, Cost(t), Refund(t),
                   BuyerDraws(l, t, quote), SellerDraws(l, t, base, quote))
  {
    CostSplits(t);
    OwedIs(t, t.bid.username, quote);
    OwedIs(t, t.ask.username, base);
    ChargeBuyerShifts(l, t, base, quote);
    var l1 := ChargeBuyer(l, t, base, quote).ledger;
    PaySellerShifts(l1, t, base, quote);
    var l2 := PaySeller(l1, t, base, quote).ledger;
    RefundBuyerShifts(l2, t, quote);
    ShiftsChain(l, l1, l2, RefundBuyer(l2, t, quote), t.bid.username, t.ask.username, base, quote,
                t.qty, Cost(t), Refund(t), BuyerDraws(l, t, quote), SellerDraws(l, t, base, quote));
  }

  lemma {:induction false} ProcessSaleEffect(l: Ledger, t: Trade)
    requires SaneTrade(t) && CoversTrade(l, t)
    requires t.bid.username in l && t.ask.username in l
    requires |ExtractTokens(t.ask.product, '/')| == 2
    ensures ProcessSale(l, t).error.None? && SaleSettled(l, ProcessSale(l, t).ledger, t)
  {
    var tokens := ExtractTokens(t.ask.product, '/');
    ProcessSaleExchanges(l, t, tokens[0], tokens[1]);
    ExchangedIsSettled(l, ProcessSale(l, t).ledger, t, tokens[0], tokens[1]);
  }

  lemma {:induction false} ExchangedIsSettled(l: Ledger, l': Ledger, t: Trade, base: string, quote: string)
    requires SaneTrade(t) && ExtractTokens(t.ask.product, '/') == [base, quote]
    requires Exchanged(l, l', t.bid.username, t.ask.username, base, quote, t.qty, Cost(t), Refund(t),
                       BuyerDraws(l, t, quote), SellerDraws(l, t, base, quote))
    ensures SaleSettled(l, l', t)
  {
    CostSplits(t);
    forall u, c | u != DEFAULT_USER ensures LockedOf(l', u, c) == LockedOf(l, u, c) - Owed(t, u, c) {
      OwedIs(t, u, c);
    }
    forall u, c | u != DEFAULT_USER ensures FreeOf(l', u, c) == FreeOf(l, u, c) + Received(t, u, c) {
    }
    ExchangedMints(l, l', t, base, quote);
  }

  lemma {:induction false} ExchangedMints(l: Ledger, l': Ledger, t: Trade, base: string, quote: string)
    requires Cost(t) >= 0.0 && ExtractTokens(t.ask.product, '/') == [base, quote]
    requires Exchanged(l, l', t.bid.username, t.ask.username, base, quote, t.qty, Cost(t), Refund(t),
                       BuyerDraws(l, t, quote), SellerDraws(l, t, base, quote))
    ensures forall c :: Money(l', c) == Money(l, c) + Minted(l, t, c)
  {
  }

  /** Opening default's account changes no balance, so nothing of what a fill creates. */
  lemma {:induction false} OpeningMints(l: Ledger, l2: Ledger, t: Trade)
    requires forall u, c :: LockedOf(l2, u, c) == LockedOf(l, u, c)
    ensures forall c :: Minted(l2, t, c) == Minted(l, t, c)
  {
  }

  lemma {:induction false} SettleEffect(l: Ledger, t: Trade)
    requires SaneTrade(t) && CoversTrade(l, t)
    requires GetUser(l, t.bid.username).Some? && GetUser(l, t.ask.username).Some?
    requires |ExtractTokens(t.ask.product, '/')| == 2
    ensures Settle(l, t).error.None? && Settled(l, Settle(l, t).ledger, [t])
  {
    AccountsOpened(l, t.bid.username);
    var l1 := GetUser(l, t.bid.username).value;
    AccountsOpened(l1, t.ask.username);
    var l2 := GetUser(l1, t.ask.username).value;
    ProcessSaleEffect(l2, t);
    OpeningMints(l, l2, t);
    OneTrade(l, t);
  }

  lemma {:induction false} OneTrade(l: Ledger, t: Trade)
    ensures forall u, c :: Traded(Reserve(u, c), [t]) == Owed(t, u, c)
    ensures forall u, c :: ReceivedBy([t], u, c) == Received(t, u, c)
    ensures forall c :: MintedBy(l, [t], c) == Minted(l, t, c)
  {
    assert [t][1..] == [];
  }

  lemma {:induction false} RefundInFull(t: Trade)
    ensures Refund(t) == t.bid.price * t.qty - t.ask.price * t.qty
  {
  }

  lemma {:induction false} OwedInFull(t: Trade, user: string, currency: string, base: string, quote: string)
    requires SaneTrade(t) && ExtractTokens(t.ask.product, '/') == [base, quote]
    ensures Owed(t, user, currency)
         == (if user == t.ask.username && currency == base then t.qty else 0.0)
          + (if user == t.bid.username && currency == quote then t.bid.price * t.qty else 0.0)
  {
    OwedIs(t, user, currency);
    CostSplits(t);
  }

  lemma {:induction false} ReceivedInFull(t: Trade, user: string, currency: string, base: string, quote: string)
    requires ExtractTokens(t.ask.product, '/') == [base, quote]
    ensures Received(t, user, currency)
         == (if user == t.bid.username && currency == base then t.qty else 0.0)
          + (if user == t.ask.username && currency == quote then t.ask.price * t.qty else 0.0)
          + (if user == t.bid.username && currency == quote then t.bid.price * t.qty - t.ask.price * t.qty else 0.0)
  {
    RefundInFull(t);
  }

  lemma {:induction false} ClientsMintNothing(l: Ledger, t: Trade, currency: string)
    requires SaneTrade(t) && t.bid.username != DEFAULT_USER && t.ask.username != DEFAULT_USER
    ensures Minted(l, t, currency) == 0.0
  {
    CostSplits(t);
  }

  /** A covered fill in full: the buyer's lock goes down by the bid's price times the quantity, of which the seller
      gets the ask's price times the quantity and the buyer gets back the rest; the goods go from the seller's
      lock to the buyer; and between clients no money is made or lost. */
  lemma {:induction false} FillInFull(l: Ledger, t: Trade, base: string, quote: string)
    requires SaneTrade(t) && CoversTrade(l, t)
    requires GetUser(l, t.bid.username).Some? && GetUser(l, t.ask.username).Some?
    requires ExtractTokens(t.ask.product, '/') == [base, quote]
    ensures Settle(l, t).error.None?
    ensures (forall u, c | u != DEFAULT_USER ::
      (LockedOf(Settle(l, t).ledger, u, c) == LockedOf(l, u, c)
        - (if u == t.ask.username && c == base then t.qty else 0.0)
        - (if u == t.bid.username && c == quote then t.bid.price * t.qty else 0.0)))
    ensures (forall u, c | u != DEFAULT_USER ::
      (FreeOf(Settle(l, t).ledger, u, c) == FreeOf(l, u, c)
        + (if u == t.bid.username && c == base then t.qty else 0.0)
        + (if u == t.ask.username && c == quote then t.ask.price * t.qty else 0.0)
        + (if u == t.bid.username && c == quote then t.bid.price * t.qty - t.ask.price * t.qty else 0.0)))
    ensures t.bid.username != DEFAULT_USER && t.ask.username != DEFAULT_USER ==>
      forall c :: Money(Settle(l, t).ledger, c) == Money(l, c)
  {
    SettleEffect(l, t);
    OneTrade(l, t);
    SettledInFull(l, Settle(l, t).ledger, t, base, quote);
  }

  lemma {:induction false} SettledInFull(l: Ledger, l': Ledger, t: Trade, base: string, quote: string)
    requires SaneTrade(t) && ExtractTokens(t.ask.product, '/') == [base, quote] && Settled(l, l', [t])
    ensures (forall u, c | u != DEFAULT_USER ::
      (LockedOf(l', u, c) == LockedOf(l, u, c)
        - (if u == t.ask.username && c == base then t.qty else 0.0)
        - (if u == t.bid.username && c == quote then t.bid.price * t.qty else 0.0)))
    ensures (forall u, c | u != DEFAULT_USER ::
      (FreeOf(l', u, c) == FreeOf(l, u, c)
        + (if u == t.bid.username && c == base then t.qty else 0.0)
        + (if u == t.ask.username && c == quote then t.ask.price * t.qty else 0.0)
        + (if u == t.bid.username && c == quote then t.bid.price * t.qty - t.ask.price * t.qty else 0.0)))
    ensures t.bid.username != DEFAULT_USER && t.ask.username != DEFAULT_USER ==> forall c :: Money(l', c) == Money(l, c)
  {
    OneTrade(l, t);
    forall u, c {
      OwedInFull(t, u, c, base, quote);
    }
    forall u, c {
      ReceivedInFull(t, u, c, base, quote);
    }
    if t.bid.username != DEFAULT_USER && t.ask.username != DEFAULT_USER {
      forall c {
        ClientsMintNothing(l, t, c);
      }
    }
  }

  /** Default holds no locks afterwards either, and its free funds have grown by this. */
  ghost predicate Served(l: Ledger, l': Ledger, buyer: string, seller: string, base: string, quote: string, qty: real,
                         cost: real)
  {
    && DefaultUnlocked(l')
    && forall c ::
      (FreeOf(l', DEFAULT_USER, c) == FreeOf(l, DEFAULT_USER, c)
        + (if buyer == DEFAULT_USER && c == base then qty else 0.0)
        + (if seller == DEFAULT_USER && c == quote then cost else 0.0))
  }

  lemma {:induction false} DefaultIsServed(l: Ledger, t: Trade, base: string, quote: string)
    requires SaneTrade(t) && CoversTrade(l, t) && DefaultUnlocked(l)
    requires t.bid.username in l && t.ask.username in l && ExtractTokens(t.ask.product, '/') == [base, quote]
    ensures Served(l, ProcessSale(l, t).ledger, t.bid.username, t.ask.username, base, quote, t.qty, Cost(t))
  {
    CostSplits(t);
    OwedIs(t, t.bid.username, quote);
    OwedIs(t, t.ask.username, base);
    ChargeBuyerShifts(l, t, base, quote);
    var l1 := ChargeBuyer(l, t, base, quote).ledger;
    PaySellerShifts(l1, t, base, quote);
    var l2 := PaySeller(l1, t, base, quote).ledger;
    RefundBuyerShifts(l2, t, quote);
    ServedChain(l, l1, l2, RefundBuyer(l2, t, quote), t.bid.username, t.ask.username, base, quote, t.qty, Cost(t), Refund(t));
  }

  lemma {:induction false} ServedChain(l: Ledger, l1: Ledger, l2: Ledger, l3: Ledger, buyer: string, seller: string,
                                       base: string, quote: string, qty: real, cost: real, refund: real)
    requires DefaultUnlocked(l) && cost >= 0.0 && qty >= 0.0 && refund >= 0.0
    requires Shifts(l, l1, buyer, quote, Drawn(l, buyer, quote, cost), base, qty)
    requires Shifts(l1, l2, seller, base, Drawn(l1, seller, base, qty), quote, cost)
    requires var r := Drawn(l2, buyer, quote, refund); Shifts(l2, l3, buyer, quote, r, quote, r)
    ensures Served(l, l3, buyer, seller, base, quote, qty, cost)
  {
    UnlockedStays(l, l1, buyer, quote, cost, base, qty);
    UnlockedStays(l1, l2, seller, base, qty, quote, cost);
    UnlockedStays(l2, l3, buyer, quote, refund, quote, Drawn(l2, buyer, quote, refund));
    assert LockedOf(l2, DEFAULT_USER, quote) == 0.0;
  }

  /** And default, holding no locks, is served all the same: as a buyer it gets the goods, as a seller the money,
      and nothing is taken from it. */
  lemma {:induction false} DefaultInFull(l: Ledger, t: Trade, base: string, quote: string, l': Ledger)
    requires SaneTrade(t) && CoversTrade(l, t) && DefaultUnlocked(l)
    requires t.bid.username in l && t.ask.username in l && ExtractTokens(t.ask.product, '/') == [base, quote]
    requires ProcessSale(l, t).ledger == l'
    ensures forall c :: LockedOf(l', DEFAULT_USER, c) == 0.0
    ensures forall c ::
      (FreeOf(l', DEFAULT_USER, c) == FreeOf(l, DEFAULT_USER, c)
        + (if t.bid.username == DEFAULT_USER && c == base then t.qty else 0.0)
        + (if t.ask.username == DEFAULT_USER && c == quote then t.ask.price * t.qty else 0.0))
  {
    DefaultIsServed(l, t, base, quote);
    ServedIs(l, l', t, base, quote);
  }

  lemma {:induction false} ServedIs(l: Ledger, l': Ledger, t: Trade, base: string, quote: string)
    requires Served(l, l', t.bid.username, t.ask.username, base, quote, t.qty, Cost(t))
    ensures forall c :: LockedOf(l', DEFAULT_USER, c) == 0.0
    ensures forall c ::
      (FreeOf(l', DEFAULT_USER, c) == FreeOf(l, DEFAULT_USER, c)
        + (if t.bid.username == DEFAULT_USER && c == base then t.qty else 0.0)
        + (if t.ask.username == DEFAULT_USER && c == quote then t.ask.price * t.qty else 0.0))
  {
  }

  // ---- a fill at a negative price ----

  ghost predicate NegativeTrade(t: Trade) {
    && t.ask.orderType == Ask && t.bid.orderType == Bid && t.ask.product == t.bid.product
    && t.qty > 0.0 && t.ask.price < 0.0 && t.ask.price <= t.bid.price
  }

  /** The ledger after a fill at a negative price threw: the buyer's locked funds have grown by what was
      to be paid, the goods have changed hands, and nobody paid or was paid. */
  ghost predicate HalfSettled(l: Ledger, l': Ledger, t: Trade, base: string, quote: string) {
    && l.Keys <= l'.Keys <= l.Keys + {DEFAULT_USER}
    && (forall u, c ::
          (LockedOf(l', u, c) == LockedOf(l, u, c)
            - (if u == t.bid.username && c == quote then BuyerDraws(l, t, quote) else 0.0)
            - (if u == t.ask.username && c == base then SellerDraws(l, t, base, quote) else 0.0)))
    && (forall u, c ::
          FreeOf(l', u, c) == FreeOf(l, u, c) + (if u == t.bid.username && c == base then t.qty else 0.0))
    && (forall c :: Money(l', c) == Money(l, c) + Minted(l, t, c))
  }

  /** Everyone but default has locked what the two halves draw. */
  ghost predicate CoversNegative(l: Ledger, t: Trade, base: string, quote: string) {
    && (t.bid.username != DEFAULT_USER ==> LockedOf(l, t.bid.username, quote) >= 0.0)
    && (t.ask.username != DEFAULT_USER ==> LockedOf(l, t.ask.username, base) >= t.qty)
  }

  lemma {:induction false} NegativeCost(t: Trade)
    requires t.qty > 0.0 && t.ask.price < 0.0
    ensures Cost(t) < 0.0
  {
  }

  lemma {:induction false} HalfSettles(l: Ledger, l1: Ledger, l2: Ledger, t: Trade, base: string, quote: string)
    requires ExtractTokens(t.ask.product, '/') == [base, quote] && Cost(t) < 0.0
    requires Shifts(l, l1, t.bid.username, quote, BuyerDraws(l, t, quote), base, t.qty)
    requires Shifts(l1, l2, t.ask.username, base, SellerDraws(l, t, base, quote), quote, 0.0)
    ensures HalfSettled(l, l2, t, base, quote)
  {
    HalfMints(l, l1, l2, t, base, quote);
  }

  lemma {:induction false} HalfMints(l: Ledger, l1: Ledger, l2: Ledger, t: Trade, base: string, quote: string)
    requires ExtractTokens(t.ask.product, '/') == [base, quote] && Cost(t) < 0.0
    requires Shifts(l, l1, t.bid.username, quote, BuyerDraws(l, t, quote), base, t.qty)
    requires Shifts(l1, l2, t.ask.username, base, SellerDraws(l, t, base, quote), quote, 0.0)
    ensures forall c :: Money(l2, c) == Money(l, c) + Minted(l, t, c)
  {
    forall c ensures Money(l2, c) == Money(l, c) + Minted(l, t, c) {
      assert Money(l1, c)
          == Money(l, c) - (if c == quote then BuyerDraws(l, t, quote) else 0.0) + if c == base then t.qty else 0.0;
    }
  }

  lemma {:induction false} NegativeSaleEffect(l: Ledger, t: Trade, base: string, quote: string)
    requires NegativeTrade(t) && CoversNegative(l, t, base, quote)
    requires t.bid.username in l && t.ask.username in l && ExtractTokens(t.ask.product, '/') == [base, quote]
    ensures ProcessSale(l, t).error == Some(NegativeAmount)
    ensures HalfSettled(l, ProcessSale(l, t).ledger, t, base, quote)
  {
    NegativeCost(t);
    ChargeBuyerShifts(l, t, base, quote);
    var l1 := ChargeBuyer(l, t, base, quote).ledger;
    PaySellerThrows(l1, t, base, quote);
    HalfSettles(l, l1, PaySeller(l1, t, base, quote).ledger, t, base, quote);
  }

  /** What a fill at a negative price does, both users being known. */
  lemma {:induction false} NegativeSettleEffect(l: Ledger, t: Trade, base: string, quote: string)
    requires NegativeTrade(t) && CoversNegative(l, t, base, quote)
    requires GetUser(l, t.bid.username).Some? && GetUser(l, t.ask.username).Some?
    requires ExtractTokens(t.ask.product, '/') == [base, quote]
    ensures Settle(l, t).error == Some(NegativeAmount)
    ensures HalfSettled(l, Settle(l, t).ledger, t, base, quote)
  {
    AccountsOpened(l, t.bid.username);
    var l1 := GetUser(l, t.bid.username).value;
    AccountsOpened(l1, t.ask.username);
    var l2 := GetUser(l1, t.ask.username).value;
    NegativeSaleEffect(l2, t, base, quote);
    OpeningHalfSettles(l, l2, Settle(l, t).ledger, t, base, quote);
  }

  lemma {:induction false} OpeningHalfSettles(l: Ledger, l2: Ledger, l': Ledger, t: Trade, base: string, quote: string)
    requires l.Keys <= l2.Keys <= l.Keys + {DEFAULT_USER} && HalfSettled(l2, l', t, base, quote)
    requires forall u, c :: LockedOf(l2, u, c) == LockedOf(l, u, c) && FreeOf(l2, u, c) == FreeOf(l, u, c)
    requires forall c :: Money(l2, c) == Money(l, c)
    ensures HalfSettled(l, l', t, base, quote)
  {
    OpeningMints(l, l2, t);
  }

  // ---- the fills of a pass ----

  /** Everyone but default has locked at least what all the fills together use up. */
  ghost predicate CoversAll(l: Ledger, trades: seq<Trade>) {
    forall u, c | u != DEFAULT_USER :: LockedOf(l, u, c) >= Traded(Reserve(u, c), trades)
  }

  ghost predicate KnownUsers(l: Ledger, trades: seq<Trade>) {
    forall t | t in trades ::
      && (t.bid.username in l || t.bid.username == DEFAULT_USER)
      && (t.ask.username in l || t.ask.username == DEFAULT_USER)
  }

  lemma {:induction false} TradedNonNegative(user: string, currency: string, trades: seq<Trade>)
    requires forall t | t in trades :: SaneTrade(t) && |ExtractTokens(t.ask.product, '/')| == 2
    ensures Traded(Reserve(user, currency), trades) >= 0.0
  {
    if trades != [] {
      OwedIs(trades[0], user, currency);
      TradedNonNegative(user, currency, trades[1..]);
    }
  }

  lemma {:induction false} FirstTradeAdds(l: Ledger, trades: seq<Trade>)
    requires trades != [] && Settle(l, trades[0]).error.None?
    ensures (forall u, c ::
      Traded(Reserve(u, c), trades) == Traded(Reserve(u, c), trades[..1]) + Traded(Reserve(u, c), trades[1..]))
    ensures forall u, c :: ReceivedBy(trades, u, c) == ReceivedBy(trades[..1], u, c) + ReceivedBy(trades[1..], u, c)
    ensures (forall c ::
      MintedBy(l, trades, c) == MintedBy(l, trades[..1], c) + MintedBy(Settle(l, trades[0]).ledger, trades[1..], c))
  {
    assert trades[..1] == [trades[0]];
    OneTrade(l, trades[0]);
  }

  lemma {:induction false} SettledJoins(l: Ledger, l2: Ledger, trades: seq<Trade>)
    requires trades != [] && Settle(l, trades[0]).error.None?
    requires Settled(l, Settle(l, trades[0]).ledger, trades[..1]) && Settled(Settle(l, trades[0]).ledger, l2, trades[1..])
    ensures Settled(l, l2, trades)
  {
    FirstTradeAdds(l, trades);
  }

  /** What the first fill needs is there, and afterwards what the others need. */
  lemma {:induction false} FirstIsCovered(l: Ledger, trades: seq<Trade>)
    requires forall t | t in trades :: SaneTrade(t) && |ExtractTokens(t.ask.product, '/')| == 2
    requires CoversAll(l, trades) && KnownUsers(l, trades) && trades != []
    ensures CoversTrade(l, trades[0])
    ensures Settle(l, trades[0]).error.None? && Settled(l, Settle(l, trades[0]).ledger, trades[..1])
    ensures CoversAll(Settle(l, trades[0]).ledger, trades[1..]) && KnownUsers(Settle(l, trades[0]).ledger, trades[1..])
  {
    var t, rest := trades[0], trades[1..];
    assert t in trades;
    forall u, c ensures Traded(Reserve(u, c), trades) >= Owed(t, u, c) {
      TradedNonNegative(u, c, rest);
    }
    SettleEffect(l, t);
    OneTrade(l, t);
    assert trades[..1] == [t];
  }

  /** When the locked funds cover the fills, settling them never throws, whatever their order and
      whoever trades with whom, and moves exactly the funds the fills call for. */
  lemma {:induction false} SettleAllEffect(l: Ledger, trades: seq<Trade>)
    requires forall t | t in trades :: SaneTrade(t) && |ExtractTokens(t.ask.product, '/')| == 2
    requires CoversAll(l, trades) && KnownUsers(l, trades)
    ensures SettleAll(l, trades).error.None?
    ensures Settled(l, SettleAll(l, trades).ledger, trades)
    decreases |trades|
  {
    if trades != [] {
      FirstIsCovered(l, trades);
      var l1 := Settle(l, trades[0]).ledger;
      SettleAllEffect(l1, trades[1..]);
      SettledJoins(l, SettleAll(l1, trades[1..]).ledger, trades);
    }
  }

  /** Settling goes on with the rest after fills that went through; fills after one that threw are
      never looked at. */
  lemma {:induction false} SettleAllAppends(l: Ledger, trades: seq<Trade>, rest: seq<Trade>)
    ensures var first := SettleAll(l, trades);
      SettleAll(l, trades + rest) == if first.error.Some? then first else SettleAll(first.ledger, rest)
    decreases |trades|
  {
    if trades == [] {
      assert [] + rest == rest;
    } else {
      assert (trades + rest)[1..] == trades[1..] + rest;
      if Settle(l, trades[0]).error.None? {
        SettleAllAppends(Settle(l, trades[0]).ledger, trades[1..], rest);
      }
    }
  }

  /** The same for the fills that are sliced. */
  lemma {:induction false} ReachedAppends(l: Ledger, trades: seq<Trade>, rest: seq<Trade>)
    ensures var first := SettleAll(l, trades);
      Reached(l, trades + rest)
      == Reached(l, trades) + (if first.error.Some? then [] else Reached(first.ledger, rest))
    decreases |trades|
  {
    if trades == [] {
      assert [] + rest == rest;
      assert [] + Reached(l, rest) == Reached(l, rest);
    } else {
      assert (trades + rest)[1..] == trades[1..] + rest;
      var first := Settle(l, trades[0]);
      if first.error.None? {
        ReachedAppends(first.ledger, trades[1..], rest);
        var last := SettleAll(first.ledger, trades[1..]);
        var more := if last.error.Some? then [] else Reached(last.ledger, rest);
        assert [trades[0]] + (Reached(first.ledger, trades[1..]) + more)
            == [trades[0]] + Reached(first.ledger, trades[1..]) + more;
      } else {
        assert Reached(l, trades) + [] == Reached(l, trades);
      }
    }
  }

  lemma {:induction false} ReachedOne(l: Ledger, t: Trade)
    ensures Reached(l, [t]) == if Settle(l, t).error == Some(UnknownUser) then [] else [t]
  {
    assert [t][1..] == [];
  }

  lemma {:induction false} SettleOne(l: Ledger, t: Trade)
    ensures SettleAll(l, [t]) == Settle(l, t)
  {
    assert [t][1..] == [];
  }
}
