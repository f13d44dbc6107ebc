/** No lost wake-up: a crossed book is never forgotten. */
module Wakeups {
  import opened Orders
  import opened Trades
  import opened Matching
  import opened Optimality
  import opened Books
  import opened Exchanges
  import opened Reachable

  /** Somebody will still run a pass over the product: it is queued, a pass is in flight, a client
      is about to trigger one, or the dispatcher has yet to queue it at start-up. */
  predicate Awake(s: Exchange, product: string) {
    || product in s.pending || product in s.passes || product in s.waking
    || s.startUp.Fresh? || (s.startUp.ProductsRead? && product in s.startUp.products)
  }

  /** Of all products but some. */
  ghost predicate Vigilant(s: Exchange, but: set<string>) {
    forall p | p !in but && Crossed(ListOf(s.book, p)) :: Awake(s, p)
  }

  lemma {:induction false} FewerOrdersStayUncrossed(orders: seq<Order>, fewer: seq<Order>)
    requires !Crossed(orders) && forall o | o in fewer :: o in orders
    ensures !Crossed(fewer)
  {
  }

  lemma {:induction false} MatchLeavesLists(s: Exchange, product: string, now: string, trades: seq<Trade>)
    requires Sound(s)
    ensures ListOf(AfterSettled(s, product, now, trades).book, product) == Purge(Apply(ListOf(s.book, product), trades))
    ensures forall p | p != product :: ListOf(AfterSettled(s, product, now, trades).book, p) == ListOf(s.book, p)
  {
    AfterPassKeeps(s.book, product, trades, SalesOf(trades, product, now, s.nextId));
    assert Apply([], trades) == [];
  }

  lemma {:induction false} MatchedIsUncrossed(s: Exchange, product: string, now: string, trades: seq<Trade>)
    requires Sound(s) && IsPass(ListOf(s.book, product), trades)
    ensures !Crossed(ListOf(AfterSettled(s, product, now, trades).book, product))
    ensures forall p | p != product :: ListOf(AfterSettled(s, product, now, trades).book, p) == ListOf(s.book, p)
  {
    MatchLeavesLists(s, product, now, trades);
    var orders := ListOf(s.book, product);
    assert Apart(orders) by {
      if product in s.book.orders {
        assert ListOk(orders, product);
      }
    }
    PassUncrosses(orders, trades);
    FewerOrdersStayUncrossed(Apply(orders, trades), Purge(Apply(orders, trades)));
  }

  /** A step that leaves the book alone and lets no product fall asleep. */
  lemma {:induction false} QueueStepIsVigilant(s: Exchange, step: Step, but: set<string>)
    requires Vigilant(s, but) && Enabled(s, step)
    requires !step.Insert? && !step.Match? && !step.CancelById?
    ensures Vigilant(Next(s, step), but)
  {
    var s' := Next(s, step);
    forall p | p !in but && Crossed(ListOf(s'.book, p)) ensures Awake(s', p) {
      assert s'.book == s.book && Awake(s, p);
      match step
      case ReadProducts(products) =>
        assert p in s.book.orders;
      case Dequeue =>
        assert s.pending == [s.pending[0]] + s.pending[1..];
      case _ =>
    }
  }

  lemma {:induction false} InsertIsVigilant(s: Exchange, k: nat, but: set<string>)
    requires Vigilant(s, but) && k < |s.accepted|
    ensures Vigilant(AfterInsert(s, k), but - {s.accepted[k].terms.product})
  {
    var s' := AfterInsert(s, k);
    forall p | p !in but - {s.accepted[k].terms.product} && Crossed(ListOf(s'.book, p)) ensures Awake(s', p) {
      if p != s.accepted[k].terms.product {
        assert ListOf(s'.book, p) == ListOf(s.book, p);
      }
    }
  }

  lemma {:induction false} MatchIsVigilant(s: Exchange, product: string, now: string, trades: seq<Trade>, but: set<string>)
    requires Sound(s) && Vigilant(s, but) && IsPass(ListOf(s.book, product), trades)
    ensures Vigilant(AfterSettled(s, product, now, trades), but - {product})
  {
    var s' := AfterSettled(s, product, now, trades);
    MatchedIsUncrossed(s, product, now, trades);
    forall p | p !in but - {product} && Crossed(ListOf(s'.book, p)) ensures Awake(s', p) {
      assert Awake(s, p);
    }
  }

  lemma {:induction false} CancelIsVigilant(s: Exchange, user: string, id: nat, but: set<string>)
    requires Sound(s) && Vigilant(s, but) && Client(s, user)
    ensures Vigilant(AfterCancel(s, user, id), but)
  {
    var s' := AfterCancel(s, user, id);
    var found, product, k := CancelFinds(s, user, id);
    if found {
      forall p | p !in but && Crossed(ListOf(s'.book, p)) ensures Awake(s', p) {
        DropLeavesFewer(s.book, product, k, p);
        CrossedBefore(ListOf(s.book, p), ListOf(s'.book, p));
        assert Awake(s, p);
      }
    }
  }

  lemma {:induction false} CrossedBefore(orders: seq<Order>, fewer: seq<Order>)
    requires Crossed(fewer) && forall o | o in fewer :: o in orders
    ensures Crossed(orders)
  {
  }

  /** A pass that throws leaves its own product behind, and no other. */
  lemma {:induction false} ThrowIsVigilant(s: Exchange, product: string, trades: seq<Trade>, but: set<string>)
    requires Vigilant(s, but)
    ensures Vigilant(AfterThrow(s, product, trades), but + {product})
  {
    var s' := AfterThrow(s, product, trades);
    forall p | p !in but + {product} && Crossed(ListOf(s'.book, p)) ensures Awake(s', p) {
      assert ListOf(s'.book, p) == ListOf(s.book, p) && Awake(s, p);
    }
  }

  /** The step puts the product on somebody's list again, or passes over it. */
  predicate Touches(s: Exchange, step: Step, product: string) {
    match step
    case Insert(k) => k < |s.accepted| && s.accepted[k].terms.product == product
    case Trigger(p) => p == product
    case Match(p, now, asks, bids) => p == product
    case _ => false
  }

  /** The step is a pass over the product, and throws. */
  predicate Throws(s: Exchange, step: Step, product: string) {
    step.Match? && step.product == product && !Settles(s, step)
  }

  /** The products left to sleep after a step: those left before that it does not touch, and one whose pass
      throws. */
  function LeftBy(s: Exchange, step: Step, but: set<string>): set<string> {
    match step
    case Insert(k) => if k < |s.accepted| then but - {s.accepted[k].terms.product} else but
    case Trigger(p) => but - {p}
    case Match(p, now, asks, bids) => if Settles(s, step) then but - {p} else but + {p}
    case _ => but
  }

  lemma {:induction false} LeftByMeans(s: Exchange, step: Step, but: set<string>, product: string)
    ensures product in LeftBy(s, step, but) <==>
      Throws(s, step, product) || (product in but && !Touches(s, step, product))
  {
  }

  lemma {:induction false} TriggerIsVigilant(s: Exchange, product: string, but: set<string>)
    requires Vigilant(s, but) && Enabled(s, Trigger(product))
    ensures Vigilant(Next(s, Trigger(product)), but - {product})
  {
    var s' := Next(s, Trigger(product));
    assert product in s'.pending;
    forall p | p !in but - {product} && Crossed(ListOf(s'.book, p)) ensures Awake(s', p) {
      assert p != product ==> Awake(s, p);
    }
  }

  lemma {:induction false} StepIsVigilant(s: Exchange, step: Step, but: set<string>)
    requires Sound(s) && Vigilant(s, but) && Enabled(s, step)
    ensures Vigilant(Next(s, step), LeftBy(s, step, but))
  {
    match step
    case Insert(k) =>
      InsertIsVigilant(s, k, but);
    case Trigger(product) =>
      TriggerIsVigilant(s, product, but);
    case Match(product, now, asks, bids) =>
      if Settles(s, step) {
        MatchIsVigilant(s, product, now, Merge(asks, bids), but);
      } else {
        ThrowIsVigilant(s, product, Merge(asks, bids), but);
      }
    case CancelById(user, id) =>
      CancelIsVigilant(s, user, id, but);
    case _ =>
      QueueStepIsVigilant(s, step, but);
  }

  /** Some step of the run touches the product. */
  ghost predicate Touched(s: Exchange, steps: seq<Step>, product: string)
    decreases |steps|
  {
    && steps != [] && Enabled(s, steps[0])
    && (Touches(s, steps[0], product) || Touched(Next(s, steps[0]), steps[1..], product))
  }

  /** A pass of the run over the product threw, and nothing touched the product since. */
  ghost predicate LastThrew(s: Exchange, steps: seq<Step>, product: string)
    decreases |steps|
  {
    && steps != [] && Enabled(s, steps[0])
    && (LastThrew(Next(s, steps[0]), steps[1..], product)
        || (Throws(s, steps[0], product) && !Touched(Next(s, steps[0]), steps[1..], product)))
  }

  ghost predicate LeftOver(s: Exchange, steps: seq<Step>, but: set<string>, product: string) {
    LastThrew(s, steps, product) || (product in but && !Touched(s, steps, product))
  }

  lemma {:induction false} OneMoreLeft(s: Exchange, steps: seq<Step>, but: set<string>, product: string)
    requires steps != [] && Enabled(s, steps[0])
    requires LeftOver(Next(s, steps[0]), steps[1..], LeftBy(s, steps[0], but), product)
    ensures LeftOver(s, steps, but, product)
  {
    LeftByMeans(s, steps[0], but, product);
  }

  lemma {:induction false} VigilantAlways(s: Exchange, steps: seq<Step>, s': Exchange, but: set<string>)
    requires Orderly(s) && Vigilant(s, but) && Run(s, steps, s')
    ensures forall p | Crossed(ListOf(s'.book, p)) :: Awake(s', p) || LeftOver(s, steps, but, p)
    decreases |steps|
  {
    if steps != [] {
      StepIsOrderly(s, steps[0]);
      StepIsVigilant(s, steps[0], but);
      VigilantAlways(Next(s, steps[0]), steps[1..], s', LeftBy(s, steps[0], but));
      forall p | Crossed(ListOf(s'.book, p)) ensures Awake(s', p) || LeftOver(s, steps, but, p) {
        if !Awake(s', p) {
          OneMoreLeft(s, steps, but, p);
        }
      }
    }
  }

  lemma {:induction false} CalmThrowsNothing(s: Exchange, steps: seq<Step>, product: string)
    requires Calm(s, steps)
    ensures !LastThrew(s, steps, product)
    decreases |steps|
  {
    if steps != [] && Enabled(s, steps[0]) {
      CalmThrowsNothing(Next(s, steps[0]), steps[1..], product);
    }
  }

  /** In every reachable state after the start-up fill, a product whose book is crossed is pending, or has
      a pass in flight, or some client stands between insertOrder and startMatchingProduct, or the last pass
      over it threw and nobody has inserted into it or triggered it since. So in a calm run, when the three
      are empty, every book is uncrossed. */
  lemma {:induction false} NoLostWakeup(s: Exchange, steps: seq<Step>, s': Exchange)
    requires Initial(s) && Run(s, steps, s') && s'.startUp.Started?
    ensures (forall p | Crossed(ListOf(s'.book, p)) ::
      p in s'.pending || p in s'.passes || p in s'.waking || LastThrew(s, steps, p))
    ensures (Calm(s, steps) && s'.pending == [] && s'.passes == multiset{} && s'.waking == multiset{} ==>
      forall p :: !Crossed(ListOf(s'.book, p)))
  {
    InitialIsOrderly(s);
    VigilantAlways(s, steps, s', {});
    forall p | Crossed(ListOf(s'.book, p))
      ensures p in s'.pending || p in s'.passes || p in s'.waking || LastThrew(s, steps, p)
    {
      assert Awake(s', p) || LeftOver(s, steps, {}, p);
    }
    if Calm(s, steps) {
      forall p ensures !LastThrew(s, steps, p) {
        CalmThrowsNothing(s, steps, p);
      }
    }
  }
}
