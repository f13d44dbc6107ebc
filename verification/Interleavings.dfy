/** A match pass as a list of wallet calls, and what they do to a client whose locks cover the fills. */
module Interleavings {
  import opened Orders
  import opened Tokenizer
  import opened Trades
  import opened Matching
  import opened Purses
  import opened Settlement
  import opened Books
  import opened Exchanges
  import opened Reachable
  import opened Failures
  import opened Accounts

  /** What a pass calls: a look-up of a user, or one operation on one wallet. */
  datatype Call =
    | Opening(user: string)
    | Paying(user: string, currency: string, amount: real)
    | Gaining(user: string, currency: string, amount: real)
    | Refunding(user: string, currency: string, amount: real)

  function PurseOf(l: Ledger, user: string): Purse {
    if user in l then l[user] else EMPTY_PURSE
  }

  function Effected(p: Purse, call: Call): Effect {
    match call
    case Opening(_) => Effect(p, Returned(true))
    case Paying(_, currency, amount) => Spend(p, currency, amount)
    case Gaining(_, currency, amount) => Purses.Insert(p, currency, amount)
    case Refunding(_, currency, amount) => Unlock(p, currency, amount)
  }

  function Called(l: Ledger, call: Call): Ledger {
    l[call.user := Effected(PurseOf(l, call.user), call).purse]
  }

  function AfterCalls(l: Ledger, calls: seq<Call>): Ledger
    decreases |calls|
  {
    if calls == [] then l else AfterCalls(Called(l, calls[0]), calls[1..])
  }

  lemma {:induction false} CallsJoin(l: Ledger, first: seq<Call>, second: seq<Call>)
    ensures AfterCalls(l, first + second) == AfterCalls(AfterCalls(l, first), second)
    decreases |first|
  {
    if first == [] {
      assert first + second == second;
    } else {
      assert (first + second)[1..] == first[1..] + second;
      CallsJoin(Called(l, first[0]), first[1..], second);
    }
  }

  lemma {:induction false} OneCall(l: Ledger, call: Call)
    ensures AfterCalls(l, [call]) == Called(l, call)
  {
    assert [call][1..] == [];
  }

  // ---- a pass is a list of calls ----

  function LookUps(t: Trade): seq<Call> { [Opening(t.bid.username), Opening(t.ask.username)] }

  function BuyerCalls(t: Trade, base: string, quote: string): seq<Call> {
    [Paying(t.bid.username, quote, Cost(t)), Gaining(t.bid.username, base, t.qty)]
  }

  function SellerCalls(t: Trade, base: string, quote: string): seq<Call> {
    [Paying(t.ask.username, base, t.qty), Gaining(t.ask.username, quote, Cost(t))]
  }

  function RefundCalls(t: Trade, quote: string): seq<Call> {
    if t.bid.price > t.ask.price then [Refunding(t.bid.username, quote, Refund(t))] else []
  }

  /** The calls of one fill, in the order they are made. */
  function CallsOf(t: Trade): seq<Call> {
    var tokens := ExtractTokens(t.ask.product, '/');
    if |tokens| != 2 then LookUps(t)
    else LookUps(t) + (BuyerCalls(t, tokens[0], tokens[1]) + (SellerCalls(t, tokens[0], tokens[1]) + RefundCalls(t, tokens[1])))
  }

  function AllCalls(trades: seq<Trade>): seq<Call> {
    if trades == [] then [] else CallsOf(trades[0]) + AllCalls(trades[1..])
  }

  lemma {:induction false} TwoCalls(l: Ledger, a: Call, b: Call)
    ensures AfterCalls(l, [a, b]) == Called(Called(l, a), b)
  {
    assert [a, b] == [a] + [b];
    CallsJoin(l, [a], [b]);
    OneCall(l, a);
    OneCall(Called(l, a), b);
  }

  lemma {:induction false} LookUpsOpen(l: Ledger, t: Trade)
    requires GetUser(l, t.bid.username).Some?
    requires GetUser(GetUser(l, t.bid.username).value, t.ask.username).Some?
    ensures AfterCalls(l, LookUps(t)) == GetUser(GetUser(l, t.bid.username).value, t.ask.username).value
  {
    TwoCalls(l, Opening(t.bid.username), Opening(t.ask.username));
  }

  lemma {:induction false} BuyerCallsAre(l: Ledger, t: Trade, base: string, quote: string)
    requires t.bid.username in l && ChargeBuyer(l, t, base, quote).error.None?
    ensures ChargeBuyer(l, t, base, quote).ledger == AfterCalls(l, BuyerCalls(t, base, quote))
  {
    TwoCalls(l, Paying(t.bid.username, quote, Cost(t)), Gaining(t.bid.username, base, t.qty));
  }

  lemma {:induction false} SellerCallsAre(l: Ledger, t: Trade, base: string, quote: string)
    requires t.ask.username in l && PaySeller(l, t, base, quote).error.None?
    ensures PaySeller(l, t, base, quote).ledger == AfterCalls(l, SellerCalls(t, base, quote))
  {
    TwoCalls(l, Paying(t.ask.username, base, t.qty), Gaining(t.ask.username, quote, Cost(t)));
  }

  lemma {:induction false} RefundCallsAre(l: Ledger, t: Trade, quote: string)
    requires t.bid.username in l
    ensures RefundBuyer(l, t, quote) == AfterCalls(l, RefundCalls(t, quote))
  {
    OneCall(l, Refunding(t.bid.username, quote, Refund(t)));
  }

  lemma {:induction false} SettleIsCalls(l: Ledger, t: Trade)
    requires Settle(l, t).error.None?
    ensures Settle(l, t).ledger == AfterCalls(l, CallsOf(t))
  {
    var tokens := ExtractTokens(t.ask.product, '/');
    var l2 := GetUser(GetUser(l, t.bid.username).value, t.ask.username).value;
    var charges, pays := BuyerCalls(t, tokens[0], tokens[1]), SellerCalls(t, tokens[0], tokens[1]);
    var refunds := RefundCalls(t, tokens[1]);
    LookUpsOpen(l, t);
    BuyerCallsAre(l2, t, tokens[0], tokens[1]);
    var l3 := ChargeBuyer(l2, t, tokens[0], tokens[1]).ledger;
    SellerCallsAre(l3, t, tokens[0], tokens[1]);
    RefundCallsAre(PaySeller(l3, t, tokens[0], tokens[1]).ledger, t, tokens[1]);
    CallsJoin(l, LookUps(t), charges + (pays + refunds));
    CallsJoin(l2, charges, pays + refunds);
    CallsJoin(l3, pays, refunds);
  }

  /** A pass that goes through makes these calls and no others. */
  lemma {:induction false} PassIsCalls(l: Ledger, trades: seq<Trade>)
    requires SettleAll(l, trades).error.None?
    ensures SettleAll(l, trades).ledger == AfterCalls(l, AllCalls(trades))
    decreases |trades|
  {
    if trades != [] {
      SettleIsCalls(l, trades[0]);
      PassIsCalls(Settle(l, trades[0]).ledger, trades[1..]);
      CallsJoin(l, CallsOf(trades[0]), AllCalls(trades[1..]));
    }
  }

  // ---- what the calls do to free funds ----

  /** No refund takes anything away. */
  predicate Giving(call: Call) { call.Refunding? ==> call.amount >= 0.0 }

  lemma {:induction false} FreeGrows(l: Ledger, calls: seq<Call>, user: string, currency: string)
    requires forall call | call in calls :: Giving(call)
    ensures Free(PurseOf(AfterCalls(l, calls), user), currency) >= Free(PurseOf(l, user), currency)
    decreases |calls|
  {
    if calls != [] {
      assert calls[0] in calls;
      FreeGrows(Called(l, calls[0]), calls[1..], user, currency);
    }
  }

  // ---- calls that do what they are called for ----

  predicate Succeeds(l: Ledger, call: Call) { Effected(PurseOf(l, call.user), call).outcome == Returned(true) }

  /** Every call on this user's wallet does what it is called for. */
  ghost predicate ServedFor(l: Ledger, calls: seq<Call>, user: string)
    decreases |calls|
  {
    calls != [] ==> (calls[0].user == user ==> Succeeds(l, calls[0])) && ServedFor(Called(l, calls[0]), calls[1..], user)
  }

  lemma {:induction false} OthersStay(l: Ledger, call: Call)
    ensures PurseOf(Called(l, call), call.user) == Effected(PurseOf(l, call.user), call).purse
    ensures forall u | u != call.user :: PurseOf(Called(l, call), u) == PurseOf(l, u)
  {
  }

  // ---- where the locks cover the fills, every client is served ----

  lemma {:induction false} ServedJoins(l: Ledger, first: seq<Call>, second: seq<Call>, user: string)
    requires ServedFor(l, first, user) && ServedFor(AfterCalls(l, first), second, user)
    ensures ServedFor(l, first + second, user)
    decreases |first|
  {
    if first == [] {
      assert first + second == second;
    } else {
      assert (first + second)[1..] == first[1..] + second;
      ServedJoins(Called(l, first[0]), first[1..], second, user);
    }
  }

  lemma {:induction false} ServedOne(l: Ledger, call: Call, user: string)
    requires call.user == user ==> Succeeds(l, call)
    ensures ServedFor(l, [call], user)
  {
    assert [call][1..] == [];
  }

  lemma {:induction false} ServedTwo(l: Ledger, a: Call, b: Call, user: string)
    requires a.user == user ==> Succeeds(l, a)
    requires b.user == user ==> Succeeds(Called(l, a), b)
    ensures ServedFor(l, [a, b], user)
  {
    ServedOne(l, a, user);
    ServedOne(Called(l, a), b, user);
    OneCall(l, a);
    ServedJoins(l, [a], [b], user);
    assert [a] + [b] == [a, b];
  }

  lemma {:induction false} BuyerCallsServe(l: Ledger, t: Trade, base: string, quote: string, user: string)
    requires t.qty > 0.0 && t.bid.username in l
    requires t.bid.username == user ==> LockedOf(l, user, quote) >= Cost(t)
    ensures ServedFor(l, BuyerCalls(t, base, quote), user)
  {
    ServedTwo(l, Paying(t.bid.username, quote, Cost(t)), Gaining(t.bid.username, base, t.qty), user);
  }

  lemma {:induction false} SellerCallsServe(l: Ledger, t: Trade, base: string, quote: string, user: string)
    requires Cost(t) >= 0.0 && t.ask.username in l
    requires t.ask.username == user ==> LockedOf(l, user, base) >= t.qty
    ensures ServedFor(l, SellerCalls(t, base, quote), user)
  {
    ServedTwo(l, Paying(t.ask.username, base, t.qty), Gaining(t.ask.username, quote, Cost(t)), user);
  }

  lemma {:induction false} RefundCallsServe(l: Ledger, t: Trade, quote: string, user: string)
    requires t.bid.username in l
    requires t.bid.username == user ==> LockedOf(l, user, quote) >= Refund(t)
    ensures ServedFor(l, RefundCalls(t, quote), user)
  {
    ServedOne(l, Refunding(t.bid.username, quote, Refund(t)), user);
  }

  /** What processing a sale does, wallet call by wallet call, serves everyone whose locks cover it. */
  lemma {:induction false} SaleServes(l: Ledger, t: Trade, base: string, quote: string, user: string)
    requires SaneTrade(t) && CoversTrade(l, t) && user != DEFAULT_USER
    requires t.bid.username in l && t.ask.username in l && ExtractTokens(t.ask.product, '/') == [base, quote]
    ensures ServedFor(l, BuyerCalls(t, base, quote) + (SellerCalls(t, base, quote) + RefundCalls(t, quote)), user)
  {
    CostSplits(t);
    OwedIs(t, t.bid.username, quote);
    OwedIs(t, t.ask.username, base);
    ChargeBuyerShifts(l, t, base, quote);
    var l1 := ChargeBuyer(l, t, base, quote).ledger;
    PaySellerShifts(l1, t, base, quote);
    var l2 := PaySeller(l1, t, base, quote).ledger;
    BuyerCallsServe(l, t, base, quote, user);
    SellerCallsServe(l1, t, base, quote, user);
    RefundCallsServe(l2, t, quote, user);
    PartsServe(l, l1, l2, t, base, quote, user);
  }

  lemma {:induction false} PartsServe(l: Ledger, l1: Ledger, l2: Ledger, t: Trade, base: string, quote: string, user: string)
    requires t.bid.username in l && t.ask.username in l
    requires ChargeBuyer(l, t, base, quote) == Posting(l1, None) && t.ask.username in l1
    requires PaySeller(l1, t, base, quote) == Posting(l2, None)
    requires ServedFor(l, BuyerCalls(t, base, quote), user) && ServedFor(l1, SellerCalls(t, base, quote), user)
    requires ServedFor(l2, RefundCalls(t, quote), user)
    ensures ServedFor(l, BuyerCalls(t, base, quote) + (SellerCalls(t, base, quote) + RefundCalls(t, quote)), user)
  {
    BuyerCallsAre(l, t, base, quote);
    SellerCallsAre(l1, t, base, quote);
    ServedJoins(l1, SellerCalls(t, base, quote), RefundCalls(t, quote), user);
    ServedJoins(l, BuyerCalls(t, base, quote), SellerCalls(t, base, quote) + RefundCalls(t, quote), user);
  }

  lemma {:induction false} FillServes(l: Ledger, t: Trade, user: string)
    requires SaneTrade(t) && CoversTrade(l, t) && user != DEFAULT_USER
    requires GetUser(l, t.bid.username).Some? && GetUser(l, t.ask.username).Some?
    requires |ExtractTokens(t.ask.product, '/')| == 2
    ensures ServedFor(l, CallsOf(t), user)
  {
    var tokens := ExtractTokens(t.ask.product, '/');
    AccountsOpened(l, t.bid.username);
    var l1 := GetUser(l, t.bid.username).value;
    AccountsOpened(l1, t.ask.username);
    var l2 := GetUser(l1, t.ask.username).value;
    LookUpsOpen(l, t);
    SaleServes(l2, t, tokens[0], tokens[1], user);
    ServedTwo(l, Opening(t.bid.username), Opening(t.ask.username), user);
    var paying := BuyerCalls(t, tokens[0], tokens[1]) + (SellerCalls(t, tokens[0], tokens[1]) + RefundCalls(t, tokens[1]));
    ServedJoins(l, LookUps(t), paying, user);
  }

  /** When the locked funds cover the fills, every call on a client's wallet does what it is called for. */
  lemma {:induction false} PassServes(l: Ledger, trades: seq<Trade>, user: string)
    requires forall t | t in trades :: SaneTrade(t) && |ExtractTokens(t.ask.product, '/')| == 2
    requires CoversAll(l, trades) && KnownUsers(l, trades) && user != DEFAULT_USER
    ensures ServedFor(l, AllCalls(trades), user)
    decreases |trades|
  {
    if trades != [] {
      var t, rest := trades[0], trades[1..];
      assert t in trades;
      FirstIsCovered(l, trades);
      FillServes(l, t, user);
      SettleIsCalls(l, t);
      PassServes(Settle(l, t).ledger, rest, user);
      ServedJoins(l, CallsOf(t), AllCalls(rest), user);
    }
  }

  lemma {:induction false} SaneGives(trades: seq<Trade>)
    requires forall t | t in trades :: SaneTrade(t)
    ensures forall call | call in AllCalls(trades) :: Giving(call)
  {
    if trades != [] {
      assert trades[0] in trades;
      CostSplits(trades[0]);
      SaneGives(trades[1..]);
    }
  }

  /** A pass over a covered list: its calls take nothing away, and serve every client. */
  lemma {:induction false} PassCalls(s: Exchange, product: string, trades: seq<Trade>, user: string)
    requires Sound(s) && Covered(s) && IsPass(ListOf(s.book, product), trades) && user != DEFAULT_USER
    requires SettleAll(s.ledger, trades).error.None?
    ensures SettleAll(s.ledger, trades).ledger == AfterCalls(s.ledger, AllCalls(trades))
    ensures ServedFor(s.ledger, AllCalls(trades), user) && forall call | call in AllCalls(trades) :: Giving(call)
  {
    ListIsApart(s.book, product);
    PassUsersKnown(s, product, trades);
    CoveredCoversPass(s, product, trades);
    SettledTradesAreSane(s.ledger, ListOf(s.book, product), product, trades);
    PassIsCalls(s.ledger, trades);
    PassServes(s.ledger, trades, user);
    SaneGives(trades);
  }
}
