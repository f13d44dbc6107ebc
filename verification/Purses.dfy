/** The contents of a wallet as a value, and what each wallet operation makes of it. */
module Purses {
  import opened Orders
  import opened Tokenizer
  import opened Meters

  datatype Error = NegativeAmount | InvalidProduct | UnknownUser | BuyerFunds | SellerFunds

  /** What a call hands back: its boolean result, or the exception it throws. */
  datatype Outcome = Returned(ok: bool) | Threw(error: Error)

  /** Free and locked funds per currency. A missing entry reads as zero. */
  datatype Purse = Purse(currencies: map<string, real>, locked: map<string, real>)

  /** A call's outcome together with the wallet it leaves. */
  datatype Effect = Effect(purse: Purse, outcome: Outcome)

  const EMPTY_PURSE := Purse(map[], map[])

  function At(m: map<string, real>, currency: string): real {
    if currency in m then m[currency] else 0.0
  }

  function Free(p: Purse, currency: string): real { At(p.currencies, currency) }

  function Locked(p: Purse, currency: string): real { At(p.locked, currency) }

  function Insert(p: Purse, currency: string, amount: real): Effect {
    if amount < 0.0 then Effect(p, Threw(NegativeAmount))
    else Effect(p.(currencies := p.currencies[currency := Free(p, currency) + amount]), Returned(true))
  }

  function Contains(p: Purse, currency: string, amount: real): Outcome {
    if amount < 0.0 then Threw(NegativeAmount) else Returned(Free(p, currency) >= amount)
  }

  function Remove(p: Purse, currency: string, amount: real): Effect {
    var enough := Contains(p, currency, amount);
    if enough == Returned(true) then
      Effect(p.(currencies := p.currencies[currency := Free(p, currency) - amount]), enough)
    else Effect(p, enough)
  }

  function Lock(p: Purse, currency: string, amount: real): Effect {
    var enough := Contains(p, currency, amount);
    if enough == Returned(true) then
      Effect(Purse(p.currencies[currency := Free(p, currency) - amount],
                   p.locked[currency := Locked(p, currency) + amount]), enough)
    else Effect(p, enough)
  }

  /** Looking a currency up in the locked map creates its entry, at zero. */
  function Touched(p: Purse, currency: string): Purse {
    p.(locked := p.locked[currency := Locked(p, currency)])
  }

  function Unlock(p: Purse, currency: string, amount: real): Effect {
    if Locked(p, currency) >= amount then
      Effect(Purse(p.currencies[currency := Free(p, currency) + amount],
                   p.locked[currency := Locked(p, currency) - amount]), Returned(true))
    else Effect(Touched(p, currency), Returned(false))
  }

  function Spend(p: Purse, currency: string, amount: real): Effect {
    if Locked(p, currency) >= amount then
      Effect(p.(locked := p.locked[currency := Locked(p, currency) - amount]), Returned(true))
    else Effect(Touched(p, currency), Returned(false))
  }

  /** How much an order ties up ... */
  function Required(o: Order): real {
    if o.terms.orderType == Ask then o.amount else o.amount * o.terms.price
  }

  /** ... and of which of its product's two currencies. */
  function Paying(o: Order, tokens: seq<string>): string
    requires |tokens| == 2
  {
    if o.terms.orderType == Ask then tokens[0] else tokens[1]
  }

  /** The quote currency of an order of two currencies. */
  function QuoteOf(x: Terms): string
    requires |ExtractTokens(x.product, '/')| == 2
  {
    ExtractTokens(x.product, '/')[1]
  }

  function Fulfill(p: Purse, o: Order): Effect {
    var tokens := ExtractTokens(o.terms.product, '/');
    if |tokens| != 2 then Effect(p, Threw(InvalidProduct))
    else if o.terms.orderType == Sale then Effect(p, Returned(false))
    else Lock(p, Paying(o, tokens), Required(o))
  }

  function Cancel(p: Purse, o: Order): Effect {
    var tokens := ExtractTokens(o.terms.product, '/');
    if |tokens| != 2 then Effect(p, Threw(InvalidProduct))
    else if o.terms.orderType == Sale then Effect(p, Returned(false))
    else Unlock(p, Paying(o, tokens), Required(o))
  }

  /** Two purses that no caller can tell apart by reading balances. */
  ghost predicate SameFunds(p: Purse, q: Purse) {
    forall c :: Free(p, c) == Free(q, c) && Locked(p, c) == Locked(q, c)
  }

  /** What the order still needs of one currency: the reserve meter read off this order alone. */
  function Reserved(o: Order, currency: string): real {
    ReservePerUnit(o.terms, currency) * Open(o)
  }

  /** What the wallet locks of one currency when it accepts the order, and unlocks when it is
      cancelled as it stands. */
  function LockedFor(o: Order, currency: string): real {
    var tokens := ExtractTokens(o.terms.product, '/');
    if |tokens| == 2 && Paying(o, tokens) == currency then Required(o) else 0.0
  }

  /** The signs an accepted order can have: the wallet refuses to lock a negative amount. */
  predicate SignsOk(o: Order) {
    && (o.terms.orderType == Ask ==> o.amount >= 0.0)
    && (o.terms.orderType == Bid ==> (o.amount > 0.0 ==> o.terms.price >= 0.0) && (o.amount < 0.0 ==> o.terms.price <= 0.0))
  }

  /** An order that a wallet may have accepted. */
  predicate ClientOrder(o: Order) {
    o.terms.orderType != Sale && |ExtractTokens(o.terms.product, '/')| == 2 && SignsOk(o)
  }

  lemma {:induction false} SignOfProduct(a: real, b: real)
    ensures a * b >= 0.0 <==> (a > 0.0 ==> b >= 0.0) && (a < 0.0 ==> b <= 0.0)
  {
    if a > 0.0 && b < 0.0 {
      assert a * (0.0 - b) > 0.0;
    } else if a < 0.0 && b > 0.0 {
      assert (0.0 - a) * b > 0.0;
    } else if a < 0.0 {
      assert (0.0 - a) * (0.0 - b) >= 0.0;
    }
  }

  /** What an accepted order holds locked is what it still needs, or, for a negative pair, stuck. */
  lemma {:induction false} LockedForSplits(o: Order, currency: string)
    requires ClientOrder(o)
    ensures LockedFor(o, currency) == Reserved(o, currency) + StuckIn(o, currency)
    ensures Reserved(o, currency) >= 0.0 && StuckIn(o, currency) >= 0.0
  {
    SignOfProduct(o.amount, o.terms.price);
  }

  /** The wallet accepts an order of the right form, whatever its signs, if and only if the funds it
      would lock are not negative and free. */
  lemma {:induction false} AcceptedExactlyWhen(p: Purse, o: Order)
    ensures Fulfill(p, o).outcome == Returned(true)
       <==> ClientOrder(o) && Free(p, Paying(o, ExtractTokens(o.terms.product, '/'))) >= Required(o)
  {
    SignOfProduct(o.amount, o.terms.price);
  }

  /** What the caller is told: the exception for a malformed product, the one for a negative amount, or whether
      the funds are there; and a refusal changes nothing. */
  lemma {:induction false} FulfillOutcome(p: Purse, o: Order)
    ensures var tokens, r := ExtractTokens(o.terms.product, '/'), Fulfill(p, o).outcome;
      && (r == Threw(InvalidProduct) <==> |tokens| != 2)
      && (r == Threw(NegativeAmount) <==>
            && |tokens| == 2
            && ((o.terms.orderType == Ask && o.amount < 0.0)
                || (o.terms.orderType == Bid && o.amount * o.terms.price < 0.0)))
      && (r == Returned(true) <==>
            && |tokens| == 2
            && ((o.terms.orderType == Ask && 0.0 <= o.amount <= Free(p, tokens[0]))
                || (o.terms.orderType == Bid && 0.0 <= o.amount * o.terms.price <= Free(p, tokens[1]))))
      && (r in {Threw(InvalidProduct), Threw(NegativeAmount), Returned(true), Returned(false)})
      && (r != Returned(true) ==> Fulfill(p, o).purse == p)
  {
  }

  /** Cancelling throws for a malformed product only; otherwise it tells whether the funds are locked, and
      moves nothing when they are not. */
  lemma {:induction false} CancelOutcome(p: Purse, o: Order)
    ensures var tokens, r := ExtractTokens(o.terms.product, '/'), Cancel(p, o).outcome;
      && (r == Threw(InvalidProduct) <==> |tokens| != 2)
      && (r == Returned(true) <==>
            && |tokens| == 2
            && ((o.terms.orderType == Ask && o.amount <= Locked(p, tokens[0]))
                || (o.terms.orderType == Bid && o.amount * o.terms.price <= Locked(p, tokens[1]))))
      && (r in {Threw(InvalidProduct), Returned(true), Returned(false)})
      && (r != Returned(true) ==> SameFunds(Cancel(p, o).purse, p))
  {
  }

  /** What is withdrawn or locked must be free, what is unlocked or spent must be locked; only the calls that
      add to or look at free funds throw, and those for a negative amount. */
  lemma {:induction false} GrantedExactlyWhen(p: Purse, c: string, x: real)
    ensures Insert(p, c, x).outcome == if x < 0.0 then Threw(NegativeAmount) else Returned(true)
    ensures Remove(p, c, x).outcome == if x < 0.0 then Threw(NegativeAmount) else Returned(x <= Free(p, c))
    ensures Lock(p, c, x).outcome == Remove(p, c, x).outcome
    ensures Unlock(p, c, x).outcome == Spend(p, c, x).outcome == Returned(x <= Locked(p, c))
  {
  }

  /** A deposit is there afterwards, a withdrawal undoes it, unlocking undoes locking, and locking and spending
      is withdrawing. */
  lemma {:induction false} CallsUndo(p: Purse, c: string, x: real)
    requires x >= 0.0 && Free(p, c) >= 0.0 && Locked(p, c) >= 0.0
    ensures Free(Insert(p, c, x).purse, c) == Free(p, c) + x
    ensures SameFunds(Remove(Insert(p, c, x).purse, c, x).purse, p)
    ensures x <= Free(p, c) ==> SameFunds(Unlock(Lock(p, c, x).purse, c, x).purse, p)
    ensures x <= Free(p, c) ==> SameFunds(Spend(Lock(p, c, x).purse, c, x).purse, Remove(p, c, x).purse)
  {
  }

  /** An order the wallet accepts moves exactly what it locks from free to locked. */
  lemma {:induction false} FulfillReserves(p: Purse, o: Order)
    requires Fulfill(p, o).outcome == Returned(true)
    ensures ClientOrder(o)
    ensures forall c ::
      && Locked(Fulfill(p, o).purse, c) == Locked(p, c) + LockedFor(o, c)
      && Free(Fulfill(p, o).purse, c) == Free(p, c) - LockedFor(o, c)
      && 0.0 <= LockedFor(o, c) && (LockedFor(o, c) > 0.0 ==> LockedFor(o, c) <= Free(p, c))
  {
    AcceptedExactlyWhen(p, o);
  }

  /** Cancelling releases exactly what the order as it stands holds locked, when that is there. */
  lemma {:induction false} CancelReleases(p: Purse, o: Order)
    requires o.terms.orderType != Sale && |ExtractTokens(o.terms.product, '/')| == 2
    requires forall c :: Locked(p, c) >= LockedFor(o, c)
    ensures Cancel(p, o).outcome == Returned(true)
    ensures forall c ::
      && Locked(Cancel(p, o).purse, c) == Locked(p, c) - LockedFor(o, c)
      && Free(Cancel(p, o).purse, c) == Free(p, c) + LockedFor(o, c)
  {
    var tokens := ExtractTokens(o.terms.product, '/');
    assert LockedFor(o, Paying(o, tokens)) == Required(o);
  }

  /** Placing an order and cancelling it before any pass restores every balance, whatever its signs. */
  lemma {:induction false} PlaceThenCancelRestores(p: Purse, o: Order)
    requires Fulfill(p, o).outcome == Returned(true)
    requires forall c :: Locked(p, c) >= 0.0
    ensures var placed := Fulfill(p, o).purse;
      Cancel(placed, o).outcome == Returned(true) && SameFunds(Cancel(placed, o).purse, p)
  {
    FulfillReserves(p, o);
    CancelReleases(Fulfill(p, o).purse, o);
  }

  /** The server does not check signs. Accepting an order that a pass would take for exhausted locks
      nothing, unless it is a negative pair: then the wallet locks the positive product. Cancelling
      releases it; once a pass has purged the order nothing can (Leaks.NegativePairIsStranded). */
  lemma {:induction false} NegativePairLeaks(p: Purse, o: Order)
    requires Fulfill(p, o).outcome == Returned(true) && o.amount <= 0.0
    ensures (forall c :: Locked(Fulfill(p, o).purse, c) == Locked(p, c)) <==> !NegativePair(o)
  {
    FulfillReserves(p, o);
    var c := Paying(o, ExtractTokens(o.terms.product, '/'));
    assert LockedFor(o, c) == Required(o);
    if NegativePair(o) {
      assert (0.0 - o.amount) * (0.0 - o.terms.price) > 0.0;
    } else {
      forall d ensures LockedFor(o, d) == 0.0 {
        LockedForSplits(o, d);
      }
    }
  }
}
