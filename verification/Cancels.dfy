/** CANCEL as the server runs it: copy the order, unlock the copy's funds, remove the order. Each is a
    critical section of its own, and anything may happen in between. */
module Cancels {
  import opened Orders
  import opened Tokenizer
  import opened Trades
  import opened Meters
  import opened Matching
  import opened Purses
  import opened Settlement
  import opened Books
  import opened Exchanges
  import opened Reachable
  import opened Failures
  import opened Accounts
  import opened Lifetimes

  /** The server with CANCELs under way. */
  datatype Midway = Midway(
    s: Exchange,
    copies: seq<Order>,     // copied, funds not yet unlocked
    released: seq<Order>,   // funds unlocked, order not yet removed
    refused: seq<Order>)    // the wallet did not have the funds, order not yet removed

  datatype Act =
    | Do(step: Step)
    | Copy(user: string, id: nat)
    | Release(k: nat)
    | Erase(k: nat)
    | Discard(k: nat)

  /** CANCEL finds an order to copy. */
  predicate Copying(s: Exchange, user: string, id: nat) {
    FindOrder(OrdersForUser(s.book, user), id) < |OrdersForUser(s.book, user)|
  }

  function OwnCopy(s: Exchange, user: string, id: nat): Order
    requires Copying(s, user, id)
  {
    OrdersForUser(s.book, user)[FindOrder(OrdersForUser(s.book, user), id)]
  }

  ghost predicate Ready(d: Midway, act: Act) {
    match act
    case Do(step) => Enabled(d.s, step) && !step.CancelById?
    case Copy(user, id) => Client(d.s, user) && Copying(d.s, user, id)
    case Release(k) => k < |d.copies| && Client(d.s, d.copies[k].terms.username)
    case Erase(k) => k < |d.released|
    case Discard(k) => k < |d.refused|
  }

  function Unlocked(s: Exchange, o: Order): Exchange
    requires Client(s, o.terms.username)
  {
    WithPurse(s, o.terms.username, Cancel(s.ledger[o.terms.username], o).purse)
  }

  /** The wallet has what the copy holds locked. The server does not look at this result. */
  predicate Frees(s: Exchange, o: Order)
    requires Client(s, o.terms.username)
  {
    Cancel(s.ledger[o.terms.username], o).outcome == Returned(true)
  }

  /** The removal looks the order up anew: what leaves is what is there now. */
  function Erased(s: Exchange, x: Terms): Exchange {
    match RemoveById(s.book, x.username, x.id)
    case None => s
    case Some(b) => s.(book := b, closed := s.closed[x := AmountOf(ListOf(s.book, x.product), x)])
  }

  function AfterRelease(d: Midway, k: nat): Midway
    requires k < |d.copies| && Client(d.s, d.copies[k].terms.username)
  {
    var o := d.copies[k];
    var d1 := d.(s := Unlocked(d.s, o), copies := RemoveAt(d.copies, k));
    if Frees(d.s, o) then d1.(released := d.released + [o]) else d1.(refused := d.refused + [o])
  }

  function After(d: Midway, act: Act): Midway
    requires Ready(d, act)
  {
    match act
    case Do(step) => d.(s := Next(d.s, step))
    case Copy(user, id) => d.(copies := d.copies + [OwnCopy(d.s, user, id)])
    case Release(k) => AfterRelease(d, k)
    case Erase(k) => d.(s := Erased(d.s, d.released[k].terms), released := RemoveAt(d.released, k))
    case Discard(k) => d.(s := Erased(d.s, d.refused[k].terms), refused := RemoveAt(d.refused, k))
  }

  /** No CANCEL under way. */
  function Resting(s: Exchange): Midway { Midway(s, [], [], []) }

  ghost predicate Acts(d: Midway, acts: seq<Act>, d': Midway)
    decreases |acts|
  {
    if acts == [] then d == d'
    else Ready(d, acts[0]) && Acts(After(d, acts[0]), acts[1..], d')
  }

  lemma {:induction false} FirstAct(d: Midway, act: Act, acts: seq<Act>, d': Midway)
    requires Ready(d, act) && Acts(After(d, act), acts, d')
    ensures Acts(d, [act] + acts, d')
  {
    assert ([act] + acts)[1..] == acts;
  }

  // ---- a copy, and what may become of its order meanwhile ----

  /** The order with these terms is live with something left. */
  ghost predicate OpenIn(b: Book, x: Terms) {
    exists q :: q in ListOf(b, x.product) && q.terms == x && q.amount > 0.0
  }

  /** The id of these terms was given to no other order, and never will be. */
  ghost predicate IdSpent(s: Exchange, x: Terms) {
    && x.id < s.nextId
    && (forall y | Live(s.book, y) && y.id == x.id :: y == x)
    && (forall a | a in s.accepted :: a.terms.id != x.id)
  }

  /** A client's copy of an order that has lost nothing but fills since: it is in the book as copied, or
      with less left, or not at all any more. */
  ghost predicate CopyOk(s: Exchange, o: Order) {
    && ClientOrder(o) && Client(s, o.terms.username) && IdSpent(s, o.terms)
    && forall q | q in ListOf(s.book, o.terms.product) && q.terms == o.terms :: q == o || 0.0 <= q.amount < o.amount
  }

  lemma {:induction false} CopyFinds(s: Exchange, user: string, id: nat) returns (product: string, k: nat)
    requires Sound(s) && Client(s, user) && Copying(s, user, id)
    ensures OwnedAt(s.book, product, k, user, id) && OwnCopy(s, user, id) == ListOf(s.book, product)[k]
  {
    var o := OwnCopy(s, user, id);
    OrdersForUserScans(s.book, user);
    assert o in OrdersForUser(s.book, user);
    product := o.terms.product;
    k :| 0 <= k < |ListOf(s.book, product)| && ListOf(s.book, product)[k] == o;
  }

  lemma {:induction false} ListedIsCopyOk(s: Exchange, o: Order)
    requires Sound(s) && Listed(s, o) && Client(s, o.terms.username)
    ensures CopyOk(s, o)
  {
    assert ListedOk(s, o);
    ListIsApart(s.book, o.terms.product);
    ListedIsLive(s.book, o);
    forall q | q in ListOf(s.book, o.terms.product) && q.terms == o.terms ensures q == o {
      ApartMembers(ListOf(s.book, o.terms.product), q, o);
    }
    forall a | a in s.accepted ensures a.terms.id != o.terms.id {
      assert AcceptedOk(s, a);
    }
  }

  /** Whatever happens to the book takes orders away or amounts down, and no known id comes back. */
  ghost predicate Wanes(s: Exchange, s': Exchange, o: Order) {
    && s.nextId <= s'.nextId && s.ledger.Keys <= s'.ledger.Keys
    && (forall y | Live(s'.book, y) && y.id == o.terms.id :: Live(s.book, y))
    && (forall a | a in s'.accepted :: a in s.accepted || a.terms.id >= s.nextId)
    && (forall q | q in ListOf(s'.book, o.terms.product) && q.terms == o.terms ::
          exists p :: p in ListOf(s.book, o.terms.product) && p.terms == o.terms && (q == p || 0.0 <= q.amount <= p.amount))
  }

  lemma {:induction false} CopyStaysOk(s: Exchange, s': Exchange, o: Order)
    requires CopyOk(s, o) && Wanes(s, s', o)
    ensures CopyOk(s', o)
  {
  }

  lemma {:induction false} QuietWanes(s: Exchange, s': Exchange, o: Order)
    requires s'.book == s.book && s.nextId <= s'.nextId && s.ledger.Keys <= s'.ledger.Keys
    requires forall a | a in s'.accepted :: a in s.accepted || a.terms.id >= s.nextId
    ensures Wanes(s, s', o)
  {
  }

  lemma {:induction false} PlaceWanes(s: Exchange, a: Order, o: Order)
    requires Enabled(s, Place(a))
    ensures Wanes(s, AfterPlace(s, a), o)
  {
    QuietWanes(s, AfterPlace(s, a), o);
  }

  lemma {:induction false} QuietStepWanes(s: Exchange, step: Step, o: Order)
    requires Enabled(s, step) && !step.Place? && !step.Insert? && !step.Match? && !step.CancelById?
    ensures Wanes(s, Next(s, step), o)
  {
    QuietWanes(s, Next(s, step), o);
  }

  lemma {:induction false} InsertWanes(s: Exchange, k: nat, o: Order)
    requires Orderly(s) && k < |s.accepted| && CopyOk(s, o)
    ensures Wanes(s, AfterInsert(s, k), o)
  {
    var a := s.accepted[k];
    assert a in s.accepted && a.terms.id != o.terms.id;
    InsertIsSound(s, k);
    InsertMembers(ListOf(s.book, a.terms.product), a);
    InsertListed(s, k, o);
  }

  lemma {:induction false} InsertListed(s: Exchange, k: nat, o: Order)
    requires k < |s.accepted| && s.accepted[k].terms.id != o.terms.id
    ensures forall q | q in ListOf(AfterInsert(s, k).book, o.terms.product) && q.terms == o.terms ::
      q in ListOf(s.book, o.terms.product)
  {
    InsertMembers(ListOf(s.book, s.accepted[k].terms.product), s.accepted[k]);
  }

  lemma {:induction false} MatchWanes(s: Exchange, product: string, now: string, trades: seq<Trade>, o: Order)
    requires Sound(s) && IsPass(ListOf(s.book, product), trades)
    ensures Wanes(s, AfterMatch(s, product, now, trades), o)
  {
    var s' := AfterMatch(s, product, now, trades);
    MatchIsWithin(s, product, trades);
    AfterMatchLists(s, product, now, trades);
    SettleAllKeepsUsers(s.ledger, trades);
    MatchLosesLives(s, product, now, trades);
    forall q | q in ListOf(s'.book, o.terms.product) && q.terms == o.terms
      ensures exists p :: p in ListOf(s.book, o.terms.product) && p.terms == o.terms && (q == p || 0.0 <= q.amount <= p.amount)
    {
      FilledWanes(s.book, s'.book, product, Reached(s.ledger, trades), q);
    }
  }

  lemma {:induction false} FilledWanes(b: Book, b': Book, product: string, booked: seq<Trade>, q: Order)
    requires WellFormed(b) && q in ListOf(b', q.terms.product) && Within(ListOf(b, product), booked)
    requires forall p | p != product :: ListOf(b', p) == ListOf(b, p)
    requires forall x | x in ListOf(b', product) :: x in Apply(ListOf(b, product), booked)
    ensures exists p :: p in ListOf(b, q.terms.product) && p.terms == q.terms && (q == p || 0.0 <= q.amount <= p.amount)
  {
    var p := ListedAfterFills(b, b', product, booked, q);
    if q.terms.product == product {
      assert p in ListOf(b, product);
    }
  }

  lemma {:induction false} MatchLosesLives(s: Exchange, product: string, now: string, trades: seq<Trade>)
    requires Sound(s) && IsPass(ListOf(s.book, product), trades)
    ensures forall x :: Live(AfterMatch(s, product, now, trades).book, x) ==> Live(s.book, x)
  {
    MatchIsWithin(s, product, trades);
    if SettleAll(s.ledger, trades).error.None? {
      SettledIsSound(s, product, now, trades);
    } else {
      ThrowIsSound(s, product, trades);
    }
  }

  lemma {:induction false} StepWanes(s: Exchange, step: Step, o: Order)
    requires Orderly(s) && Enabled(s, step) && !step.CancelById? && CopyOk(s, o)
    ensures Wanes(s, Next(s, step), o)
  {
    if step.Insert? {
      InsertWanes(s, step.k, o);
    } else if step.Match? {
      MatchWanes(s, step.product, step.now, Merge(step.asks, step.bids), o);
    } else if step.Place? {
      PlaceWanes(s, step.order, o);
    } else {
      QuietStepWanes(s, step, o);
    }
  }

  // ---- undisturbed, the three steps are the one ----

  lemma {:induction false} ErasedIsDropped(s: Exchange, o: Order, product: string, k: nat)
    requires Sound(s) && OwnedAt(s.book, product, k, o.terms.username, o.terms.id) && o == ListOf(s.book, product)[k]
    requires o.terms.username != DEFAULT_USER
    ensures Erased(s, o.terms) == s.(book := Drop(s.book, product, k), closed := s.closed[o.terms := o.amount])
  {
    ListIsApart(s.book, product);
    RemoveByIdDrops(s.book, o.terms.username, o.terms.id, product, k);
    AmountFound(ListOf(s.book, product), o);
  }

  lemma {:induction false} UnlockedIsSound(s: Exchange, o: Order)
    requires Sound(s) && Client(s, o.terms.username)
    ensures Sound(Unlocked(s, o))
  {
    var s1 := Unlocked(s, o);
    forall q | Listed(s1, q) ensures ListedOk(s1, q) {
      assert Listed(s, q);
    }
    forall q | q in s1.accepted ensures AcceptedOk(s1, q) {
      assert AcceptedOk(s, q);
    }
  }

  lemma {:induction false} UnlockThenErase(s: Exchange, user: string, product: string, k: nat, id: nat)
    requires Sound(s) && Client(s, user) && OwnedAt(s.book, product, k, user, id)
    ensures var o := ListOf(s.book, product)[k];
      Erased(Unlocked(s, o), o.terms) == CancelAt(s, user, product, k)
  {
    var o := ListOf(s.book, product)[k];
    UnlockedIsSound(s, o);
    ErasedIsDropped(Unlocked(s, o), o, product, k);
  }

  lemma {:induction false} CancelsCopy(s: Exchange, user: string, id: nat, product: string, k: nat)
    requires Sound(s) && Client(s, user) && Copying(s, user, id)
    requires OwnedAt(s.book, product, k, user, id) && OwnCopy(s, user, id) == ListOf(s.book, product)[k]
    ensures AfterCancel(s, user, id) == CancelAt(s, user, product, k)
  {
    RemoveByIdDrops(s.book, user, id, product, k);
  }

  /** The act that comes after the only CANCEL's release. */
  function Finish(s: Exchange, o: Order): Act
    requires Client(s, o.terms.username)
  {
    if Frees(s, o) then Erase(0) else Discard(0)
  }

  lemma {:induction false} ReleaseThenFinish(s: Exchange, o: Order)
    requires Client(s, o.terms.username)
    ensures Ready(Resting(s).(copies := [o]), Release(0))
    ensures var d1 := After(Resting(s).(copies := [o]), Release(0));
      Ready(d1, Finish(s, o)) && After(d1, Finish(s, o)) == Resting(Erased(Unlocked(s, o), o.terms))
  {
    assert RemoveAt([o], 0) == [];
  }

  lemma {:induction false} ReleaseAndFinish(s: Exchange, o: Order)
    requires Client(s, o.terms.username)
    ensures Acts(Resting(s).(copies := [o]), [Release(0)] + [Finish(s, o)], Resting(Erased(Unlocked(s, o), o.terms)))
  {
    var d := Resting(Erased(Unlocked(s, o), o.terms));
    ReleaseThenFinish(s, o);
    FirstAct(After(Resting(s).(copies := [o]), Release(0)), Finish(s, o), [], d);
    assert [Finish(s, o)] + [] == [Finish(s, o)];
    FirstAct(Resting(s).(copies := [o]), Release(0), [Finish(s, o)], d);
  }

  /** With nothing in between, copying, unlocking and removing make the one step CANCEL is taken for. */
  lemma {:induction false} ThreeInARow(s: Exchange, user: string, id: nat)
    requires Sound(s) && Client(s, user) && Copying(s, user, id)
    ensures OwnCopy(s, user, id).terms.username == user
    ensures Acts(Resting(s), [Copy(user, id)] + ([Release(0)] + [Finish(s, OwnCopy(s, user, id))]),
                 Resting(AfterCancel(s, user, id)))
  {
    var product, k := CopyFinds(s, user, id);
    var o := ListOf(s.book, product)[k];
    UnlockThenErase(s, user, product, k, id);
    CancelsCopy(s, user, id, product, k);
    ReleaseAndFinish(s, o);
    CopyAlone(s, user, id, o);
    FirstAct(Resting(s), Copy(user, id), [Release(0)] + [Finish(s, o)], Resting(AfterCancel(s, user, id)));
  }

  lemma {:induction false} CopyAlone(s: Exchange, user: string, id: nat, o: Order)
    requires Client(s, user) && Copying(s, user, id) && OwnCopy(s, user, id) == o
    ensures After(Resting(s), Copy(user, id)) == Resting(s).(copies := [o])
  {
  }

  // ---- what a CANCEL does to the accounts, whatever became of its order ----

  /** What the order with these terms, as it is by now, holds locked. */
  ghost function StillHeld(b: Book, x: Terms, currency: string): real {
    var orders := ListOf(b, x.product);
    if Holds(orders, x) then LockedFor(Order(x, AmountOf(orders, x)), currency) else 0.0
  }

  /** What unlocking a copy takes out of the locked funds: what the copy holds, or nothing. */
  function Freed(s: Exchange, o: Order, currency: string): real
    requires Client(s, o.terms.username)
  {
    if Frees(s, o) then LockedFor(o, currency) else 0.0
  }

  lemma {:induction false} UnlockShifts(s: Exchange, o: Order, currency: string)
    requires Client(s, o.terms.username) && ClientOrder(o)
    ensures var s' := Unlocked(s, o);
      && (LockedOf(s'.ledger, o.terms.username, currency)
            == LockedOf(s.ledger, o.terms.username, currency) - Freed(s, o, currency))
      && Slack(s', o.terms.username, currency) == Slack(s, o.terms.username, currency) - Freed(s, o, currency)
  {
  }

  lemma {:induction false} HeldIsFound(b: Book, x: Terms) returns (k: nat)
    requires WellFormed(b) && Holds(ListOf(b, x.product), x)
    ensures k < |ListOf(b, x.product)| && ListOf(b, x.product)[k] == Order(x, AmountOf(ListOf(b, x.product), x))
  {
    var orders := ListOf(b, x.product);
    k :| 0 <= k < |orders| && orders[k].terms == x;
    ListIsApart(b, x.product);
    AmountFound(orders, orders[k]);
  }

  lemma {:induction false} OwnedIsHeld(s: Exchange, x: Terms, product: string, k: nat)
    requires Sound(s) && IdSpent(s, x) && OwnedAt(s.book, product, k, x.username, x.id)
    ensures Holds(ListOf(s.book, x.product), x)
  {
    var o := ListOf(s.book, product)[k];
    ListIsApart(s.book, product);
    assert o in ListOf(s.book, product);
    ListedIsLive(s.book, o);
  }

  lemma {:induction false} GoneIsNotFound(s: Exchange, x: Terms)
    requires Sound(s) && IdSpent(s, x) && x.username != DEFAULT_USER
    ensures RemoveById(s.book, x.username, x.id).Some? ==> Holds(ListOf(s.book, x.product), x)
  {
    RemoveByIdFinds(s.book, x.username, x.id);
    forall p, k: nat | OwnedAt(s.book, p, k, x.username, x.id) ensures Holds(ListOf(s.book, x.product), x) {
      OwnedIsHeld(s, x, p, k);
    }
  }

  /** Removing an order leaves what it still held without an order to account for it. */
  lemma {:induction false} EraseShifts(s: Exchange, x: Terms, currency: string)
    requires Sound(s) && IdSpent(s, x) && x.username != DEFAULT_USER
    ensures Slack(Erased(s, x), x.username, currency) == Slack(s, x.username, currency) + StillHeld(s.book, x, currency)
  {
    if Holds(ListOf(s.book, x.product), x) {
      var k := HeldIsFound(s.book, x);
      DroppedShifts(s, Order(x, AmountOf(ListOf(s.book, x.product), x)), k, currency);
    } else {
      GoneIsNotFound(s, x);
    }
  }

  lemma {:induction false} DroppedShifts(s: Exchange, o: Order, k: nat, currency: string)
    requires Sound(s) && o.terms.username != DEFAULT_USER
    requires k < |ListOf(s.book, o.terms.product)| && ListOf(s.book, o.terms.product)[k] == o
    ensures Slack(Erased(s, o.terms), o.terms.username, currency)
         == Slack(s, o.terms.username, currency) + LockedFor(o, currency)
  {
    var u, product := o.terms.username, o.terms.product;
    ErasedIsDropped(s, o, product, k);
    DropTakes(s.book, Erased(s, o.terms).book, product, k, Reserve(u, currency));
    DropTakes(s.book, Erased(s, o.terms).book, product, k, Stuck(u, currency));
    WeightIs(o, u, currency);
    assert o in ListOf(s.book, product) && Listed(s, o);
    LockedForSplits(o, currency);
  }

  /** Unlocking a copy and removing its order, whatever became of the order since: the client's slack grows
      by what the order still held and falls by what the copy freed. */
  lemma {:induction false} CancelShifts(s: Exchange, o: Order, currency: string)
    requires Sound(s) && CopyOk(s, o)
    ensures Slack(Erased(Unlocked(s, o), o.terms), o.terms.username, currency)
         == Slack(s, o.terms.username, currency) + StillHeld(s.book, o.terms, currency) - Freed(s, o, currency)
  {
    UnlockShifts(s, o, currency);
    UnlockedIsSound(s, o);
    EraseShifts(Unlocked(s, o), o.terms, currency);
  }

  lemma {:induction false} LockedForIs(o: Order, currency: string)
    requires |ExtractTokens(o.terms.product, '/')| == 2
    ensures LockedFor(o, currency) == if currency == PaysIn(o.terms) then Required(o) else 0.0
  {
  }

  /** The currency an order locks. */
  function PaysIn(x: Terms): string
    requires |ExtractTokens(x.product, '/')| == 2
  {
    Paying(Order(x, 0.0), ExtractTokens(x.product, '/'))
  }

  /** An order that has less left than the copy holds less, and nothing exactly when it is exhausted. */
  lemma {:induction false} LessHoldsLess(o: Order, q: Order)
    requires ClientOrder(o) && Required(o) > 0.0 && q.terms == o.terms && 0.0 <= q.amount < o.amount
    ensures 0.0 <= Required(q) < Required(o) && (Required(q) > 0.0 <==> q.amount > 0.0)
  {
    if o.terms.orderType == Bid {
      ProductsOf(q.amount, o.amount, o.terms.price, Required(q), Required(o));
    }
  }

  lemma {:induction false} ProductsOf(a: real, b: real, p: real, ap: real, bp: real)
    requires 0.0 <= a < b && ap == a * p && bp == b * p && bp > 0.0
    ensures 0.0 <= ap < bp && (ap > 0.0 <==> a > 0.0)
  {
    if p <= 0.0 {
      ScaledMonotone(b, p, 0.0);
    }
    ScaledMonotone(p, 0.0, a);
    assert p * (b - a) > 0.0 && p * (b - a) == bp - ap;
    if a > 0.0 {
      assert a * p > 0.0;
    }
  }

  /** The book has the copied order as it was copied, or its funds are not there any more and nothing is
      left of it, or it holds nothing in any case. */
  ghost predicate Harmless(s: Exchange, o: Order)
    requires ClientOrder(o)
  {
    || Required(o) == 0.0 || Listed(s, o)
    || (!OpenIn(s.book, o.terms) && LockedOf(s.ledger, o.terms.username, PaysIn(o.terms)) < Required(o))
  }

  lemma {:induction false} FreesExactlyWhen(s: Exchange, o: Order)
    requires Client(s, o.terms.username) && ClientOrder(o)
    ensures Frees(s, o) <==> LockedOf(s.ledger, o.terms.username, PaysIn(o.terms)) >= Required(o)
  {
  }

  lemma {:induction false} ListedFrees(s: Exchange, o: Order)
    requires Sound(s) && Covered(s) && Client(s, o.terms.username) && Listed(s, o) && ClientOrder(o)
    ensures Frees(s, o)
  {
    var k :| 0 <= k < |ListOf(s.book, o.terms.product)| && ListOf(s.book, o.terms.product)[k] == o;
    OrderIsCovered(s, o.terms.product, k, PaysIn(o.terms));
    LockedForIs(o, PaysIn(o.terms));
    FreesExactlyWhen(s, o);
  }

  /** What the order still holds of the currency that it locks. */
  lemma {:induction false} StillHeldIs(s: Exchange, o: Order)
    requires Sound(s) && CopyOk(s, o)
    ensures var held := StillHeld(s.book, o.terms, PaysIn(o.terms));
      && (Listed(s, o) ==> held == Required(o))
      && (!Listed(s, o) && Required(o) > 0.0 ==> 0.0 <= held < Required(o) && (held > 0.0 <==> OpenIn(s.book, o.terms)))
      && (Required(o) == 0.0 ==> held == 0.0)
    ensures forall c | c != PaysIn(o.terms) :: StillHeld(s.book, o.terms, c) == 0.0
  {
    var orders := ListOf(s.book, o.terms.product);
    if Holds(orders, o.terms) {
      var k := HeldIsFound(s.book, o.terms);
      HeldIs(s, o, orders[k]);
    } else {
      NotHeldIs(orders, o.terms);
    }
  }

  lemma {:induction false} NotHeldIs(orders: seq<Order>, x: Terms)
    requires !Holds(orders, x)
    ensures forall q | q in orders :: q.terms != x
  {
    forall q | q in orders ensures q.terms != x {
      var k :| 0 <= k < |orders| && orders[k] == q;
    }
  }

  lemma {:induction false} HeldIs(s: Exchange, o: Order, q: Order)
    requires Sound(s) && CopyOk(s, o) && q in ListOf(s.book, o.terms.product)
    requires q == Order(o.terms, AmountOf(ListOf(s.book, o.terms.product), o.terms))
    requires Holds(ListOf(s.book, o.terms.product), o.terms)
    ensures StillHeld(s.book, o.terms, PaysIn(o.terms)) == Required(q)
    ensures forall c | c != PaysIn(o.terms) :: StillHeld(s.book, o.terms, c) == 0.0
    ensures Listed(s, o) ==> q == o
    ensures !Listed(s, o) && Required(o) > 0.0 ==> 0.0 <= Required(q) < Required(o)
    ensures !Listed(s, o) && Required(o) > 0.0 ==> (Required(q) > 0.0 <==> OpenIn(s.book, o.terms))
    ensures Required(o) == 0.0 ==> Required(q) == 0.0
  {
    var orders := ListOf(s.book, o.terms.product);
    ListIsApart(s.book, o.terms.product);
    forall r | r in orders && r.terms == o.terms ensures r == q {
      ApartMembers(orders, r, q);
    }
    forall c ensures LockedFor(q, c) == if c == PaysIn(o.terms) then Required(q) else 0.0 {
      LockedForIs(q, c);
    }
    if Required(o) > 0.0 && q != o {
      LessHoldsLess(o, q);
    } else if Required(o) == 0.0 {
      NothingHoldsNothing(o, q);
    }
  }

  lemma {:induction false} NothingHoldsNothing(o: Order, q: Order)
    requires Required(o) == 0.0 && q.terms == o.terms && (q == o || 0.0 <= q.amount < o.amount)
    ensures Required(q) == 0.0
  {
    SignOfProduct(o.amount, o.terms.price);
    SignOfProduct(o.amount, 0.0 - o.terms.price);
    assert o.amount * (0.0 - o.terms.price) == 0.0 - o.amount * o.terms.price;
  }

  /** In a sound, covered state, for a copy of an order that meanwhile may have been filled, purged or removed:
      unlocking the copy's funds and removing the order keeps the client's accounts if and only if the copy
      is harmless. Everything the condition asks can be read before the unlock. */
  lemma {:induction false} CancelKeepsAccountsExactlyWhen(s: Exchange, o: Order)
    requires Sound(s) && Covered(s) && CopyOk(s, o)
    ensures (forall c :: Slack(Erased(Unlocked(s, o), o.terms), o.terms.username, c) == Slack(s, o.terms.username, c))
       <==> Harmless(s, o)
  {
    var u, paying := o.terms.username, PaysIn(o.terms);
    StillHeldIs(s, o);
    FreesExactlyWhen(s, o);
    if Listed(s, o) {
      ListedFrees(s, o);
    }
    forall c ensures LockedFor(o, c) == if c == paying then Required(o) else 0.0 {
      LockedForIs(o, c);
    }
    forall c {
      CancelShifts(s, o, c);
    }
    LockedForSplits(o, paying);
  }

  function Doing(steps: seq<Step>): seq<Act> {
    if steps == [] then [] else [Do(steps[0])] + Doing(steps[1..])
  }

  ghost predicate NoCancel(steps: seq<Step>) { forall step | step in steps :: !step.CancelById? }

  lemma {:induction false} OwnCopyIsOk(s: Exchange, user: string, id: nat)
    requires Sound(s) && Client(s, user) && Copying(s, user, id)
    ensures CopyOk(s, OwnCopy(s, user, id)) && OwnCopy(s, user, id).terms.username == user
  {
    var product, k := CopyFinds(s, user, id);
    var o := ListOf(s.book, product)[k];
    ListIsApart(s.book, product);
    assert o in ListOf(s.book, product);
    ListedIsCopyOk(s, o);
  }

  /** A copy stays what it is over any run without another CANCEL. */
  lemma {:induction false} CopyOutlasts(s: Exchange, steps: seq<Step>, s2: Exchange, o: Order)
    requires Orderly(s) && CopyOk(s, o) && Run(s, steps, s2) && NoCancel(steps)
    ensures Orderly(s2) && CopyOk(s2, o)
    decreases |steps|
  {
    if steps != [] {
      assert steps[0] in steps;
      StepIsOrderly(s, steps[0]);
      StepWanes(s, steps[0], o);
      CopyStaysOk(s, Next(s, steps[0]), o);
      CopyOutlasts(Next(s, steps[0]), steps[1..], s2, o);
    }
  }

  lemma {:induction false} DoAlone(s: Exchange, step: Step, o: Order)
    requires Enabled(s, step) && !step.CancelById?
    ensures After(Resting(s).(copies := [o]), Do(step)) == Resting(Next(s, step)).(copies := [o])
  {
  }

  lemma {:induction false} DoingFirst(steps: seq<Step>, last: seq<Act>)
    requires steps != []
    ensures [Do(steps[0])] + (Doing(steps[1..]) + last) == Doing(steps) + last
  {
  }

  lemma {:induction false} RunThenFinish(s: Exchange, steps: seq<Step>, s2: Exchange, o: Order)
    requires Run(s, steps, s2) && NoCancel(steps) && Client(s2, o.terms.username)
    ensures Acts(Resting(s).(copies := [o]), Doing(steps) + ([Release(0)] + [Finish(s2, o)]),
                 Resting(Erased(Unlocked(s2, o), o.terms)))
    decreases |steps|
  {
    var last := [Release(0)] + [Finish(s2, o)];
    if steps == [] {
      assert [] + last == last;
      ReleaseAndFinish(s2, o);
    } else {
      assert steps[0] in steps;
      RunThenFinish(Next(s, steps[0]), steps[1..], s2, o);
      DoAlone(s, steps[0], o);
      FirstAct(Resting(s).(copies := [o]), Do(steps[0]), Doing(steps[1..]) + last, Resting(Erased(Unlocked(s2, o), o.terms)));
      DoingFirst(steps, last);
    }
  }

  /** A CANCEL with any run in between its copy and its unlock: in the end the client's slack is what it was
      before the unlock, plus what the order still held by then, less what the copy freed. */
  lemma {:induction false} StepsBetween(s: Exchange, user: string, id: nat, steps: seq<Step>, s2: Exchange, o: Order)
    requires Orderly(s) && Client(s, user) && Copying(s, user, id) && OwnCopy(s, user, id) == o
    requires Run(s, steps, s2) && NoCancel(steps)
    ensures Orderly(s2) && CopyOk(s2, o) && o.terms.username == user
    ensures var end := Erased(Unlocked(s2, o), o.terms);
      && Acts(Resting(s), [Copy(user, id)] + (Doing(steps) + ([Release(0)] + [Finish(s2, o)])), Resting(end))
      && (forall c :: Slack(end, user, c) == Slack(s2, user, c) + StillHeld(s2.book, o.terms, c) - Freed(s2, o, c))
  {
    OwnCopyIsOk(s, user, id);
    CopyOutlasts(s, steps, s2, o);
    var end := Erased(Unlocked(s2, o), o.terms);
    forall c ensures Slack(end, user, c) == Slack(s2, user, c) + StillHeld(s2.book, o.terms, c) - Freed(s2, o, c) {
      CancelShifts(s2, o, c);
    }
    RunThenFinish(s, steps, s2, o);
    CopyAlone(s, user, id, o);
    FirstAct(Resting(s), Copy(user, id), Doing(steps) + ([Release(0)] + [Finish(s2, o)]), Resting(end));
  }

  // ---- locked funds, while some orders' funds are released ----

  /** Locked funds that no order accounts for, where the orders whose funds are released need none. */
  ghost function Loose(d: Midway, user: string, currency: string): real {
    Slack(d.s, user, currency) + Measure(Reserve(user, currency), d.released) + Measure(Stuck(user, currency), d.released)
  }

  /** Some clients' orders of the book, each once. */
  ghost predicate SomeOf(s: Exchange, orders: seq<Order>) {
    Apart(orders) && forall o | o in orders :: Listed(s, o) && Client(s, o.terms.username)
  }

  ghost predicate CoveredBut(d: Midway) { forall u, c | u != DEFAULT_USER :: Loose(d, u, c) >= 0.0 }

  /** Funds that are released are the funds of an order that is in the book as it was copied, whose funds
      no other CANCEL has released, and which no step changes until it is removed. */
  ghost predicate Clean(d: Midway, act: Act) {
    match act
    case Do(step) => Ready(d, act) ==> forall o | o in d.released :: Listed(Next(d.s, step), o)
    case Release(k) => Ready(d, act) && Frees(d.s, d.copies[k]) ==> Listed(d.s, d.copies[k]) && d.copies[k] !in d.released
    case Discard(k) => Ready(d, act) ==> forall o | o in d.released :: Listed(Erased(d.s, d.refused[k].terms), o)
    case _ => true
  }

  ghost predicate AllClean(d: Midway, acts: seq<Act>)
    decreases |acts|
  {
    acts != [] && Ready(d, acts[0]) ==> Clean(d, acts[0]) && AllClean(After(d, acts[0]), acts[1..])
  }

  lemma {:induction false} StillListed(s: Exchange, product: string, k: nat, o: Order, q: Order)
    requires Sound(s) && k < |ListOf(s.book, product)| && o == ListOf(s.book, product)[k]
    requires Listed(s, q) && q.terms != o.terms
    ensures q in ListOf(Drop(s.book, product, k), q.terms.product)
  {
    if q.terms.product == product {
      var orders := ListOf(s.book, product);
      var i :| 0 <= i < |orders| && orders[i] == q;
      assert RemoveAt(orders, k)[if i < k then i else i - 1] == q;
    }
  }

  /** Orders of the book weigh no more than the book. */
  lemma {:induction false} SomeWithinNeeded(s: Exchange, orders: seq<Order>, m: Meter)
    requires Sound(s) && OfClient(m) && SomeOf(s, orders)
    ensures Measure(m, orders) <= Needed(s, m)
    decreases |orders|
  {
    ListWithinNeeded(s, "", m);
    if orders != [] {
      var s1 := WithoutFirst(s, orders, m);
      SomeWithinNeeded(s1, orders[1..], m);
    }
  }

  lemma {:induction false} WithoutFirst(s: Exchange, orders: seq<Order>, m: Meter) returns (s1: Exchange)
    requires Sound(s) && SomeOf(s, orders) && orders != []
    ensures Sound(s1) && SomeOf(s1, orders[1..]) && Needed(s1, m) == Needed(s, m) - Weight(m, orders[0])
  {
    var o := orders[0];
    assert o in orders;
    var product := o.terms.product;
    var k :| 0 <= k < |ListOf(s.book, product)| && ListOf(s.book, product)[k] == o;
    s1 := CancelAt(s, o.terms.username, product, k);
    CancelIsSound(s, o.terms.username, product, k, o.terms.id);
    RestStays(s, s1, orders, 0, product, k);
    assert RemoveAt(orders, 0) == orders[1..];
    DropTakes(s.book, s1.book, product, k, m);
  }

  lemma {:induction false} RestStays(s: Exchange, s1: Exchange, orders: seq<Order>, j: nat, product: string, k: nat)
    requires Sound(s) && SomeOf(s, orders) && j < |orders| && k < |ListOf(s.book, product)|
    requires ListOf(s.book, product)[k] == orders[j]
    requires s1.book == Drop(s.book, product, k) && s.ledger.Keys <= s1.ledger.Keys
    ensures SomeOf(s1, RemoveAt(orders, j))
  {
    OthersOf(orders, j);
    forall q | q in RemoveAt(orders, j) ensures Listed(s1, q) && Client(s1, q.terms.username) {
      StillListed(s, product, k, orders[j], q);
    }
  }

  lemma {:induction false} OthersOf(orders: seq<Order>, j: nat)
    requires Apart(orders) && j < |orders|
    ensures Apart(RemoveAt(orders, j))
    ensures forall q | q in RemoveAt(orders, j) :: q in orders && q.terms != orders[j].terms
  {
    var rest := RemoveAt(orders, j);
    assert forall i | 0 <= i < |rest| :: rest[i] == orders[if i < j then i else i + 1];
  }

  /** What locked funds are left beyond what the released orders leave over. */
  lemma {:induction false} LockedBeyond(d: Midway, user: string, currency: string, reserve: real, stuck: real)
    requires CoveredBut(d) && user != DEFAULT_USER
    requires Measure(Reserve(user, currency), d.released) + reserve <= Needed(d.s, Reserve(user, currency))
    requires Measure(Stuck(user, currency), d.released) + stuck <= Needed(d.s, Stuck(user, currency))
    ensures LockedOf(d.s.ledger, user, currency) >= reserve + stuck
  {
    assert Loose(d, user, currency) >= 0.0;
  }

  // ---- the acts ----

  lemma {:induction false} OneMoreMeasured(m: Meter, orders: seq<Order>, o: Order)
    ensures Measure(m, orders + [o]) == Measure(m, orders) + Weight(m, o)
  {
    MeasureJoins(m, orders, [o]);
    MeasureOfOne(m, o);
  }

  lemma {:induction false} OneMoreOf(s: Exchange, orders: seq<Order>, o: Order)
    requires Sound(s) && SomeOf(s, orders) && Listed(s, o) && Client(s, o.terms.username) && o !in orders
    ensures SomeOf(s, orders + [o])
  {
    ListIsApart(s.book, o.terms.product);
    forall q | q in orders ensures q.terms != o.terms {
      assert Listed(s, q);
      if q.terms.product == o.terms.product {
        OnlyOneSuch(ListOf(s.book, o.terms.product), q, o);
      }
    }
  }

  lemma {:induction false} OnlyOneSuch(orders: seq<Order>, q: Order, o: Order)
    requires Apart(orders) && q in orders && o in orders && q != o
    ensures q.terms != o.terms
  {
  }

  // ---- the acts ----

  /** Every copy under way is of an order that lost nothing but fills. */
  ghost predicate CopiesOk(d: Midway) {
    && Orderly(d.s) && (forall o | o in d.copies :: CopyOk(d.s, o)) && (forall o | o in d.released :: CopyOk(d.s, o))
    && (forall o | o in d.refused :: CopyOk(d.s, o))
  }

  /** What holds of every state that clean acts reach. */
  ghost predicate Held(d: Midway) { CopiesOk(d) && SomeOf(d.s, d.released) && CoveredBut(d) }

  /** What an act leaves locked with no order to account for it: a pass what it leaks, and a removal after a
      refused unlock what the order still held. */
  ghost function LeakOf(d: Midway, act: Act, user: string, currency: string): real
    requires Ready(d, act)
  {
    match act
    case Do(step) => Leak(d.s, step, user, currency)
    case Discard(k) =>
      if d.refused[k].terms.username == user then StillHeld(d.s.book, d.refused[k].terms, currency) else 0.0
    case _ => 0.0
  }

  /** Each client's loose funds change by the leak alone. */
  ghost predicate Moves(d: Midway, act: Act, d': Midway)
    requires Ready(d, act)
  {
    forall u, c | u != DEFAULT_USER :: Loose(d', u, c) == Loose(d, u, c) + LeakOf(d, act, u, c)
  }

  /** Copies stay what they are while the book wanes. */
  lemma {:induction false} AllStayOk(d: Midway, d': Midway)
    requires CopiesOk(d) && Orderly(d'.s) && forall o | CopyOk(d.s, o) :: CopyOk(d'.s, o)
    requires forall o | o in d'.copies :: o in d.copies || CopyOk(d.s, o)
    requires forall o | o in d'.released :: o in d.released || o in d.copies
    requires forall o | o in d'.refused :: o in d.refused || o in d.copies
    ensures CopiesOk(d')
  {
  }

  lemma {:induction false} CopyKeepsCopies(d: Midway, user: string, id: nat)
    requires CopiesOk(d) && Ready(d, Copy(user, id))
    ensures CopiesOk(After(d, Copy(user, id)))
  {
    var product, k := CopyFinds(d.s, user, id);
    var o := ListOf(d.s.book, product)[k];
    ListIsApart(d.s.book, product);
    assert o in ListOf(d.s.book, product);
    ListedIsCopyOk(d.s, o);
    AllStayOk(d, After(d, Copy(user, id)));
  }

  lemma {:induction false} ReleaseKeepsCopies(d: Midway, k: nat)
    requires CopiesOk(d) && Ready(d, Release(k))
    ensures CopiesOk(After(d, Release(k)))
  {
    UnlockedStaysOrderly(d.s, d.copies[k]);
    AllStayOk(d, After(d, Release(k)));
  }

  lemma {:induction false} EraseKeepsCopies(d: Midway, k: nat)
    requires CopiesOk(d) && Ready(d, Erase(k))
    ensures CopiesOk(After(d, Erase(k)))
  {
    assert d.released[k] in d.released;
    ErasedStaysOrderly(d.s, d.released[k]);
    AllStayOk(d, After(d, Erase(k)));
  }

  lemma {:induction false} DiscardKeepsCopies(d: Midway, k: nat)
    requires CopiesOk(d) && Ready(d, Discard(k))
    ensures CopiesOk(After(d, Discard(k)))
  {
    assert d.refused[k] in d.refused;
    ErasedStaysOrderly(d.s, d.refused[k]);
    AllStayOk(d, After(d, Discard(k)));
  }

  lemma {:induction false} DoKeepsCopies(d: Midway, step: Step)
    requires CopiesOk(d) && Ready(d, Do(step))
    ensures CopiesOk(d.(s := Next(d.s, step)))
  {
    StepIsOrderly(d.s, step);
    CopiesStayOk(d.s, step);
    AllStayOk(d, d.(s := Next(d.s, step)));
  }

  lemma {:induction false} ActKeepsCopies(d: Midway, act: Act)
    requires CopiesOk(d) && Ready(d, act)
    ensures CopiesOk(After(d, act))
  {
    match act
    case Do(step) =>
      DoKeepsCopies(d, step);
    case Copy(user, id) =>
      CopyKeepsCopies(d, user, id);
    case Release(k) =>
      ReleaseKeepsCopies(d, k);
    case Erase(k) =>
      EraseKeepsCopies(d, k);
    case Discard(k) =>
      DiscardKeepsCopies(d, k);
  }

  /** In every run at all, clean or not, every copy under way is of an order that lost nothing but fills, so
      that CancelKeepsAccountsExactlyWhen speaks of it. */
  lemma {:induction false} CopiesAlwaysOk(d: Midway, acts: seq<Act>, d': Midway)
    requires CopiesOk(d) && Acts(d, acts, d')
    ensures CopiesOk(d')
    decreases |acts|
  {
    if acts != [] {
      ActKeepsCopies(d, acts[0]);
      CopiesAlwaysOk(After(d, acts[0]), acts[1..], d');
    }
  }

  lemma {:induction false} CopyKeeps(d: Midway, user: string, id: nat)
    requires Held(d) && Ready(d, Copy(user, id))
    ensures Held(After(d, Copy(user, id))) && Moves(d, Copy(user, id), After(d, Copy(user, id)))
  {
    CopyKeepsCopies(d, user, id);
    CopiesDoNotMatter(d, After(d, Copy(user, id)));
  }

  lemma {:induction false} CopiesDoNotMatter(d: Midway, d': Midway)
    requires d'.s == d.s && d'.released == d.released
    ensures forall u, c :: Loose(d', u, c) == Loose(d, u, c)
  {
    forall u, c ensures Loose(d', u, c) == Loose(d, u, c) {
    }
  }

  // ---- release ----

  lemma {:induction false} UnlockedStaysOrderly(s: Exchange, o: Order)
    requires Orderly(s) && Client(s, o.terms.username)
    ensures Orderly(Unlocked(s, o)) && forall q | CopyOk(s, q) :: CopyOk(Unlocked(s, o), q)
  {
    QuietIsOrderly(s, Unlocked(s, o));
    forall q | CopyOk(s, q) ensures CopyOk(Unlocked(s, o), q) {
      QuietWanes(s, Unlocked(s, o), q);
      CopyStaysOk(s, Unlocked(s, o), q);
    }
  }

  /** Releasing never changes the loose funds: what leaves the locks is what the released copies hold. */
  lemma {:induction false} ReleaseBalances(d: Midway, k: nat, user: string, currency: string)
    requires Ready(d, Release(k)) && ClientOrder(d.copies[k])
    ensures Loose(After(d, Release(k)), user, currency) == Loose(d, user, currency)
  {
    var d', o := After(d, Release(k)), d.copies[k];
    if user == o.terms.username {
      UnlockShifts(d.s, o, currency);
    }
    if Frees(d.s, o) {
      OneMoreMeasured(Reserve(user, currency), d.released, o);
      OneMoreMeasured(Stuck(user, currency), d.released, o);
      WeightIs(o, user, currency);
      LockedForSplits(o, currency);
    }
  }

  lemma {:induction false} ReleaseKeeps(d: Midway, k: nat)
    requires Held(d) && Ready(d, Release(k)) && Clean(d, Release(k))
    ensures Held(After(d, Release(k))) && Moves(d, Release(k), After(d, Release(k)))
  {
    var d', o := After(d, Release(k)), d.copies[k];
    assert o in d.copies && CopyOk(d.s, o);
    ReleaseKeepsCopies(d, k);
    if Frees(d.s, o) {
      OneMoreOf(d'.s, d.released, o);
    }
    forall u, c | u != DEFAULT_USER ensures Loose(d', u, c) == Loose(d, u, c) {
      ReleaseBalances(d, k, u, c);
    }
    assert forall u, c | u != DEFAULT_USER :: Loose(d, u, c) >= 0.0;
  }

  // ---- removal ----

  lemma {:induction false} ErasedStaysOrderly(s: Exchange, o: Order)
    requires Orderly(s) && CopyOk(s, o)
    ensures Orderly(Erased(s, o.terms)) && forall q | CopyOk(s, q) :: CopyOk(Erased(s, o.terms), q)
    ensures Erased(s, o.terms).ledger == s.ledger
  {
    GoneIsNotFound(s, o.terms);
    if Holds(ListOf(s.book, o.terms.product), o.terms) {
      var k := HeldIsFound(s.book, o.terms);
      DroppedStaysOrderly(s, ListOf(s.book, o.terms.product)[k], k);
    }
  }

  lemma {:induction false} DroppedStaysOrderly(s: Exchange, q: Order, k: nat)
    requires Orderly(s) && Client(s, q.terms.username)
    requires k < |ListOf(s.book, q.terms.product)| && ListOf(s.book, q.terms.product)[k] == q
    ensures Orderly(Erased(s, q.terms)) && forall o | CopyOk(s, o) :: CopyOk(Erased(s, q.terms), o)
  {
    var product := q.terms.product;
    ErasedIsDropped(s, q, product, k);
    CancelIsSound(s, q.terms.username, product, k, q.terms.id);
    DropKeepsSubmissionOrder(s.book, s.log, product, k);
    QuietIsOrderly(CancelAt(s, q.terms.username, product, k), Erased(s, q.terms));
    forall o | CopyOk(s, o) ensures CopyOk(Erased(s, q.terms), o) {
      DropWanes(s, Erased(s, q.terms), product, k, o);
      CopyStaysOk(s, Erased(s, q.terms), o);
    }
  }

  lemma {:induction false} DropWanes(s: Exchange, s': Exchange, product: string, k: nat, o: Order)
    requires Sound(s) && k < |ListOf(s.book, product)|
    requires s' == s.(book := Drop(s.book, product, k), closed := s'.closed)
    ensures Wanes(s, s', o)
  {
    DropLeavesFewer(s.book, product, k, o.terms.product);
    DropLoses(s.book, product, k);
  }

  lemma {:induction false} RemovalLoose(d: Midway, d': Midway, o: Order, user: string, currency: string)
    requires Orderly(d.s) && CopyOk(d.s, o) && d'.s == Erased(d.s, o.terms)
    ensures Slack(d'.s, user, currency)
         == Slack(d.s, user, currency) + if user == o.terms.username then StillHeld(d.s.book, o.terms, currency) else 0.0
  {
    if user == o.terms.username {
      EraseShifts(d.s, o.terms, currency);
    } else {
      GoneIsNotFound(d.s, o.terms);
      if Holds(ListOf(d.s.book, o.terms.product), o.terms) {
        var k := HeldIsFound(d.s.book, o.terms);
        OthersKeepSlack(d.s, ListOf(d.s.book, o.terms.product)[k], k, user, currency);
      }
    }
  }

  lemma {:induction false} OthersKeepSlack(s: Exchange, o: Order, k: nat, user: string, currency: string)
    requires Sound(s) && o.terms.username != DEFAULT_USER && user != o.terms.username
    requires k < |ListOf(s.book, o.terms.product)| && ListOf(s.book, o.terms.product)[k] == o
    ensures Slack(Erased(s, o.terms), user, currency) == Slack(s, user, currency)
  {
    ErasedIsDropped(s, o, o.terms.product, k);
    DropTakes(s.book, Erased(s, o.terms).book, o.terms.product, k, Reserve(user, currency));
    DropTakes(s.book, Erased(s, o.terms).book, o.terms.product, k, Stuck(user, currency));
    WeightIs(o, user, currency);
  }

  lemma {:induction false} ListedHolds(s: Exchange, o: Order, currency: string)
    requires Sound(s) && Listed(s, o)
    ensures StillHeld(s.book, o.terms, currency) == LockedFor(o, currency)
  {
    ListIsApart(s.book, o.terms.product);
    AmountFound(ListOf(s.book, o.terms.product), o);
    ListedIsLive(s.book, o);
  }

  /** Removing an order whose funds were released changes the loose funds by what it holds by now beyond
      what was released. */
  lemma {:induction false} EraseBalances(d: Midway, k: nat, user: string, currency: string)
    requires Orderly(d.s) && Ready(d, Erase(k)) && CopyOk(d.s, d.released[k])
    ensures var o := d.released[k];
      Loose(After(d, Erase(k)), user, currency) == Loose(d, user, currency)
        + if user == o.terms.username then StillHeld(d.s.book, o.terms, currency) - LockedFor(o, currency) else 0.0
  {
    var o := d.released[k];
    RemovalLoose(d, After(d, Erase(k)), o, user, currency);
    MeasureRemoveAt(Reserve(user, currency), d.released, k);
    MeasureRemoveAt(Stuck(user, currency), d.released, k);
    WeightIs(o, user, currency);
    LockedForSplits(o, currency);
  }

  lemma {:induction false} ReleasedRestStays(d: Midway, k: nat)
    requires Held(d) && Ready(d, Erase(k))
    ensures SomeOf(Erased(d.s, d.released[k].terms), RemoveAt(d.released, k))
  {
    var o := d.released[k];
    assert o in d.released && Listed(d.s, o);
    var j :| 0 <= j < |ListOf(d.s.book, o.terms.product)| && ListOf(d.s.book, o.terms.product)[j] == o;
    ErasedIsDropped(d.s, o, o.terms.product, j);
    RestStays(d.s, Erased(d.s, o.terms), d.released, k, o.terms.product, j);
  }

  lemma {:induction false} EraseKeeps(d: Midway, k: nat)
    requires Held(d) && Ready(d, Erase(k))
    ensures Held(After(d, Erase(k))) && Moves(d, Erase(k), After(d, Erase(k)))
  {
    var d', o := After(d, Erase(k)), d.released[k];
    assert o in d.released && Listed(d.s, o) && CopyOk(d.s, o);
    EraseKeepsCopies(d, k);
    ReleasedRestStays(d, k);
    EraseMoves(d, k);
  }

  lemma {:induction false} EraseMoves(d: Midway, k: nat)
    requires Orderly(d.s) && CoveredBut(d) && Ready(d, Erase(k)) && CopyOk(d.s, d.released[k]) && Listed(d.s, d.released[k])
    ensures CoveredBut(After(d, Erase(k))) && Moves(d, Erase(k), After(d, Erase(k)))
  {
    var d' := After(d, Erase(k));
    forall u, c | u != DEFAULT_USER ensures Loose(d', u, c) == Loose(d, u, c) && Loose(d, u, c) >= 0.0 {
      EraseBalances(d, k, u, c);
      ListedHolds(d.s, d.released[k], c);
    }
  }

  lemma {:induction false} StillHeldNotNegative(s: Exchange, o: Order, currency: string)
    requires Sound(s) && CopyOk(s, o)
    ensures StillHeld(s.book, o.terms, currency) >= 0.0
  {
    StillHeldIs(s, o);
    LockedForSplits(o, PaysIn(o.terms));
    LockedForIs(o, PaysIn(o.terms));
  }

  /** Removing an order after a refused unlock strands what it still held. */
  lemma {:induction false} DiscardBalances(d: Midway, k: nat, user: string, currency: string)
    requires Orderly(d.s) && Ready(d, Discard(k)) && CopyOk(d.s, d.refused[k])
    ensures Loose(After(d, Discard(k)), user, currency) == Loose(d, user, currency) + LeakOf(d, Discard(k), user, currency)
    ensures LeakOf(d, Discard(k), user, currency) >= 0.0
  {
    RemovalLoose(d, After(d, Discard(k)), d.refused[k], user, currency);
    StillHeldNotNegative(d.s, d.refused[k], currency);
  }

  lemma {:induction false} DiscardKeeps(d: Midway, k: nat)
    requires Held(d) && Ready(d, Discard(k)) && Clean(d, Discard(k))
    ensures Held(After(d, Discard(k))) && Moves(d, Discard(k), After(d, Discard(k)))
  {
    assert d.refused[k] in d.refused && CopyOk(d.s, d.refused[k]);
    ErasedStaysOrderly(d.s, d.refused[k]);
    DiscardKeepsCopies(d, k);
    DiscardMoves(d, k);
  }

  lemma {:induction false} DiscardMoves(d: Midway, k: nat)
    requires Orderly(d.s) && CoveredBut(d) && Ready(d, Discard(k)) && CopyOk(d.s, d.refused[k])
    ensures CoveredBut(After(d, Discard(k))) && Moves(d, Discard(k), After(d, Discard(k)))
  {
    var d' := After(d, Discard(k));
    forall u, c | u != DEFAULT_USER
      ensures Loose(d', u, c) == Loose(d, u, c) + LeakOf(d, Discard(k), u, c) && Loose(d', u, c) >= 0.0
    {
      DiscardBalances(d, k, u, c);
      assert Loose(d, u, c) >= 0.0;
    }
  }

  // ---- a pass while some orders' funds are released ----

  /** Fills that leave the released orders in the book do not need their funds. */
  lemma {:induction false} ReleasedStayCovers(d: Midway, s': Exchange, booked: seq<Trade>)
    requires Held(d) && Sound(s') && SomeOf(s', d.released)
    requires forall u, c :: Needed(s', Reserve(u, c)) == Needed(d.s, Reserve(u, c)) - Traded(Reserve(u, c), booked)
    ensures CoversAll(d.s.ledger, booked)
  {
    forall u, c | u != DEFAULT_USER ensures LockedOf(d.s.ledger, u, c) >= Traded(Reserve(u, c), booked) {
      SomeWithinNeeded(s', d.released, Reserve(u, c));
      SomeWithinNeeded(d.s, d.released, Stuck(u, c));
      LockedBeyond(d, u, c, Traded(Reserve(u, c), booked), 0.0);
    }
  }

  lemma {:induction false} CleanSettledCovers(d: Midway, product: string, now: string, trades: seq<Trade>)
    requires Held(d) && IsPass(ListOf(d.s.book, product), trades)
    requires SomeOf(AfterSettled(d.s, product, now, trades), d.released)
    ensures CoversAll(d.s.ledger, trades)
  {
    var s' := AfterSettled(d.s, product, now, trades);
    PassUsersKnown(d.s, product, trades);
    MatchIsWithin(d.s, product, trades);
    SettledIsSound(d.s, product, now, trades);
    AfterPassKeeps(d.s.book, product, trades, SalesOf(trades, product, now, d.s.nextId));
    forall u, c ensures Needed(s', Reserve(u, c)) == Needed(d.s, Reserve(u, c)) - Traded(Reserve(u, c), trades) {
      MatchTakes(d.s, s'.book, product, trades, Reserve(u, c));
    }
    ReleasedStayCovers(d, s', trades);
  }

  lemma {:induction false} CleanThrowCovers(d: Midway, product: string, trades: seq<Trade>)
    requires Held(d) && IsPass(ListOf(d.s.book, product), trades)
    requires SomeOf(AfterThrow(d.s, product, trades), d.released)
    ensures CoversAll(d.s.ledger, Reached(d.s.ledger, trades))
  {
    var s', booked := AfterThrow(d.s, product, trades), Reached(d.s.ledger, trades);
    PassUsersKnown(d.s, product, trades);
    ReachedIsPrefix(d.s.ledger, trades);
    PrefixIsFeasible(ListOf(d.s.book, product), trades, booked);
    MatchIsWithin(d.s, product, trades);
    ThrowIsSound(d.s, product, trades);
    forall u, c ensures Needed(s', Reserve(u, c)) == Needed(d.s, Reserve(u, c)) - Traded(Reserve(u, c), booked) {
      BookedTakes(d.s, product, booked, Reserve(u, c));
    }
    ReleasedStayCovers(d, s', booked);
  }

  /** While CANCELs are under way, a pass that leaves the released orders as they are throws only for a bad
      product or price, although their funds are gone. */
  lemma {:induction false} CleanPassThrowsExactlyWhen(d: Midway, product: string, now: string, trades: seq<Trade>)
    requires Held(d) && IsPass(ListOf(d.s.book, product), trades)
    requires SomeOf(AfterMatch(d.s, product, now, trades), d.released)
    ensures SettleAll(d.s.ledger, trades).error.Some? <==> Wild(ListOf(d.s.book, product), product)
    ensures SettleAll(d.s.ledger, trades).error.None? ==>
      Settled(d.s.ledger, SettleAll(d.s.ledger, trades).ledger, trades)
  {
    ListIsApart(d.s.book, product);
    PassUsersKnown(d.s, product, trades);
    if SettleAll(d.s.ledger, trades).error.None? {
      CleanSettledCovers(d, product, now, trades);
      PassThrowsExactlyWhen(d.s.ledger, ListOf(d.s.book, product), product, trades);
    } else {
      CleanThrowCovers(d, product, trades);
      ThrownIsWildBut(d, product, trades);
    }
  }

  lemma {:induction false} ThrownIsWildBut(d: Midway, product: string, trades: seq<Trade>)
    requires Held(d) && IsPass(ListOf(d.s.book, product), trades) && SettleAll(d.s.ledger, trades).error.Some?
    requires CoversAll(d.s.ledger, Reached(d.s.ledger, trades))
    ensures Wild(ListOf(d.s.book, product), product)
  {
    var orders := ListOf(d.s.book, product);
    ListIsApart(d.s.book, product);
    PassUsersKnown(d.s, product, trades);
    TradesExactlyWhenCrossed(orders, trades);
    if |ExtractTokens(product, '/')| == 2 && forall a | a in orders :: !NegativeAsk(a) {
      CoveredReachSettles(d.s.ledger, orders, product, trades);
    }
  }

  lemma {:induction false} LocksNotNegative(d: Midway, user: string, currency: string)
    requires Held(d) && user != DEFAULT_USER
    ensures LockedOf(d.s.ledger, user, currency) >= 0.0
  {
    SomeWithinNeeded(d.s, d.released, Reserve(user, currency));
    SomeWithinNeeded(d.s, d.released, Stuck(user, currency));
    LockedBeyond(d, user, currency, 0.0, 0.0);
  }

  lemma {:induction false} CleanThrowLeaks(d: Midway, product: string, now: string, trades: seq<Trade>)
    requires Held(d) && IsPass(ListOf(d.s.book, product), trades) && SettleAll(d.s.ledger, trades).error.Some?
    requires SomeOf(AfterThrow(d.s, product, trades), d.released)
    ensures forall u, c | u != DEFAULT_USER ::
      Slack(AfterThrow(d.s, product, trades), u, c) == Slack(d.s, u, c) + ThrowLeak(trades, u, c)
  {
    ListIsApart(d.s.book, product);
    CleanPassThrowsExactlyWhen(d, product, now, trades);
    PassUsersKnown(d.s, product, trades);
    FirstFillThrows(d.s.ledger, ListOf(d.s.book, product), product, trades);
    CleanThrowCovers(d, product, trades);
    forall u, c | u != DEFAULT_USER ensures LockedOf(d.s.ledger, u, c) >= 0.0 {
      LocksNotNegative(d, u, c);
    }
    ThrowLeaks(d.s, product, trades);
  }

  lemma {:induction false} CleanPassLeaks(d: Midway, step: Step)
    requires Held(d) && Ready(d, Do(step)) && step.Match? && SomeOf(Next(d.s, step), d.released)
    ensures forall u, c | u != DEFAULT_USER :: Slack(Next(d.s, step), u, c) == Slack(d.s, u, c) + Leak(d.s, step, u, c)
  {
    var trades := Merge(step.asks, step.bids);
    if Settles(d.s, step) {
      CleanPassThrowsExactlyWhen(d, step.product, step.now, trades);
      SettledLeaks(d.s, step.product, step.now, trades);
    } else {
      CleanThrowLeaks(d, step.product, step.now, trades);
    }
  }

  lemma {:induction false} StepKeepsUsers(s: Exchange, step: Step)
    requires Enabled(s, step)
    ensures s.ledger.Keys <= Next(s, step).ledger.Keys
  {
    if step.Match? {
      SettleAllKeepsUsers(s.ledger, Merge(step.asks, step.bids));
    }
  }

  /** A step while CANCELs are under way changes a client's slack by its leak, as ever. */
  lemma {:induction false} CleanStepLeaks(d: Midway, step: Step)
    requires Held(d) && Ready(d, Do(step)) && SomeOf(Next(d.s, step), d.released)
    ensures forall u, c | u != DEFAULT_USER :: Slack(Next(d.s, step), u, c) == Slack(d.s, u, c) + Leak(d.s, step, u, c)
  {
    if step.Match? {
      CleanPassLeaks(d, step);
    } else if step.Place? {
      PlaceKeepsSlack(d.s, step.order);
    } else if step.Insert? {
      InsertKeepsSlack(d.s, step.k);
    } else {
      QuietKeepsSlack(d.s, step);
    }
  }

  lemma {:induction false} LooseFollows(d: Midway, step: Step, s': Exchange)
    requires CoveredBut(d) && Ready(d, Do(step))
    requires forall u, c | u != DEFAULT_USER :: Slack(s', u, c) == Slack(d.s, u, c) + Leak(d.s, step, u, c)
    requires forall u, c | u != DEFAULT_USER :: Leak(d.s, step, u, c) >= 0.0
    ensures CoveredBut(d.(s := s')) && Moves(d, Do(step), d.(s := s'))
  {
    forall u, c | u != DEFAULT_USER
      ensures Loose(d.(s := s'), u, c) == Loose(d, u, c) + Leak(d.s, step, u, c) && Loose(d.(s := s'), u, c) >= 0.0
    {
      assert Loose(d, u, c) >= 0.0;
    }
  }

  lemma {:induction false} CopiesStayOk(s: Exchange, step: Step)
    requires Orderly(s) && Enabled(s, step) && !step.CancelById?
    ensures forall o | CopyOk(s, o) :: CopyOk(Next(s, step), o)
  {
    forall o | CopyOk(s, o) ensures CopyOk(Next(s, step), o) {
      StepWanes(s, step, o);
      CopyStaysOk(s, Next(s, step), o);
    }
  }

  lemma {:induction false} DoKeeps(d: Midway, step: Step)
    requires Held(d) && Ready(d, Do(step)) && Clean(d, Do(step))
    ensures Held(After(d, Do(step))) && Moves(d, Do(step), After(d, Do(step)))
  {
    StepKeepsUsers(d.s, step);
    assert SomeOf(Next(d.s, step), d.released);
    StepIsOrderly(d.s, step);
    CleanStepLeaks(d, step);
    forall u, c | u != DEFAULT_USER ensures Leak(d.s, step, u, c) >= 0.0 {
      LeakNonNegative(d.s, step, u, c);
    }
    LooseFollows(d, step, Next(d.s, step));
    DoKeepsCopies(d, step);
  }

  // ---- whole runs ----

  /** What a run leaves locked with no order to account for it. */
  ghost function LeakOver(d: Midway, acts: seq<Act>, user: string, currency: string): real
    decreases |acts|
  {
    if acts == [] || !Ready(d, acts[0]) then 0.0
    else LeakOf(d, acts[0], user, currency) + LeakOver(After(d, acts[0]), acts[1..], user, currency)
  }

  lemma {:induction false} ActKeeps(d: Midway, act: Act)
    requires Held(d) && Ready(d, act) && Clean(d, act)
    ensures Held(After(d, act)) && Moves(d, act, After(d, act))
  {
    match act
    case Do(step) =>
      DoKeeps(d, step);
    case Copy(user, id) =>
      CopyKeeps(d, user, id);
    case Release(k) =>
      ReleaseKeeps(d, k);
    case Erase(k) =>
      EraseKeeps(d, k);
    case Discard(k) =>
      DiscardKeeps(d, k);
  }

  /** However CANCELs interleave with each other, with the passes and with everything else: as long as
      each order is in the book as it was copied from the moment its funds are released until it is
      removed, locked funds stay in step with the orders whose funds are not released, exactly up to what
      passes leak and what is stranded by removing an order whose unlock was refused. */
  lemma {:induction false} CleanCancelsKeepAccounts(d: Midway, acts: seq<Act>, d': Midway)
    requires Held(d) && Acts(d, acts, d') && AllClean(d, acts)
    ensures Held(d')
    ensures forall u, c | u != DEFAULT_USER :: Loose(d', u, c) == Loose(d, u, c) + LeakOver(d, acts, u, c)
    decreases |acts|
  {
    if acts != [] {
      ActKeeps(d, acts[0]);
      CleanCancelsKeepAccounts(After(d, acts[0]), acts[1..], d');
    }
  }

  /** So, from start-up, whenever no CANCEL is between its unlocking and its removal, a client's locked
      funds are what they were, plus what the client's orders hold, plus what was leaked. */
  lemma {:induction false} AccountsBetweenCancels(s: Exchange, acts: seq<Act>, d: Midway, user: string, currency: string)
    requires Initial(s) && Acts(Resting(s), acts, d) && AllClean(Resting(s), acts)
    requires d.released == [] && user != DEFAULT_USER
    ensures LockedOf(d.s.ledger, user, currency)
         == LockedOf(s.ledger, user, currency) + Reserves(d.s, user, currency) + StuckFunds(d.s, user, currency)
            + LeakOver(Resting(s), acts, user, currency)
  {
    var d0 := Resting(s);
    InitialIsOrderly(s);
    InitialSlack(s);
    forall u, c ensures Loose(d0, u, c) == Slack(s, u, c) {
    }
    CleanCancelsKeepAccounts(d0, acts, d);
    assert Loose(d, user, currency) == Slack(d.s, user, currency);
  }

  // ---- the guard is the exact one ----

  /** What is left unclean shows when the order is removed: whatever happened in between, removing an order
      whose funds were released keeps the loose funds if and only if the order still holds what was released. */
  lemma {:induction false} EraseKeepsExactlyWhen(d: Midway, k: nat)
    requires Orderly(d.s) && Ready(d, Erase(k)) && CopyOk(d.s, d.released[k])
    ensures (forall u, c :: Loose(After(d, Erase(k)), u, c) == Loose(d, u, c))
       <==> Listed(d.s, d.released[k]) || Required(d.released[k]) == 0.0
  {
    var o, d' := d.released[k], After(d, Erase(k));
    var u, paying := o.terms.username, PaysIn(o.terms);
    StillHeldIs(d.s, o);
    LockedForIs(o, paying);
    LockedForSplits(o, paying);
    EraseBalances(d, k, u, paying);
    if Listed(d.s, o) || Required(o) == 0.0 {
      EraseKeepsWhen(d, k);
    }
  }

  lemma {:induction false} EraseKeepsWhen(d: Midway, k: nat)
    requires Orderly(d.s) && Ready(d, Erase(k)) && CopyOk(d.s, d.released[k])
    requires Listed(d.s, d.released[k]) || Required(d.released[k]) == 0.0
    ensures forall u, c :: Loose(After(d, Erase(k)), u, c) == Loose(d, u, c)
  {
    var o, d' := d.released[k], After(d, Erase(k));
    StillHeldIs(d.s, o);
    forall u, c ensures Loose(d', u, c) == Loose(d, u, c) {
      EraseBalances(d, k, u, c);
      LockedForIs(o, c);
    }
  }

  /** And a release never changes the loose funds. */
  lemma {:induction false} ReleaseKeepsLoose(d: Midway, k: nat)
    requires Ready(d, Release(k)) && ClientOrder(d.copies[k])
    ensures forall u, c :: Loose(After(d, Release(k)), u, c) == Loose(d, u, c)
  {
    forall u, c ensures Loose(After(d, Release(k)), u, c) == Loose(d, u, c) {
      ReleaseBalances(d, k, u, c);
    }
  }
}
