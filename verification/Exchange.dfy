/** The running server as a transition system.

    Client handlers, the dispatcher and the asynchronous match passes interleave step by step.
    A step is one critical section: one wallet call, one order book operation (ordersMutex) or
    one queue operation (matchingMutex). */
module Exchanges {
  import opened Orders
  import opened Trades
  import opened Matching
  import opened Purses
  import opened Settlement
  import opened Books

  /** The dispatcher's start-up: read the known products, then queue them all. */
  datatype StartUp = Fresh | ProductsRead(products: seq<string>) | Started

  datatype Exchange = Exchange(
    book: Book,
    ledger: Ledger,
    nextId: nat,
    accepted: seq<Order>,       // funds locked, not yet inserted
    waking: multiset<string>,   // inserted, startMatchingProduct not yet called
    startUp: StartUp,
    pending: seq<string>,       // pendingProducts
    passes: multiset<string>,   // dequeued, pass not yet run
    // history, read by no step
    log: seq<Terms>,            // client orders in the order they were inserted
    tape: seq<Trade>,           // every fill
    placed: map<Terms, real>,   // the amount each client order was accepted with
    closed: map<Terms, real>)   // what was left of a client order when it left the book

  datatype Step =
    | Register(user: string)
    | Deposit(user: string, currency: string, amount: real)
    | Withdraw(user: string, currency: string, amount: real)
    | Place(order: Order)
    | Insert(k: nat)
    | Trigger(product: string)
    | ReadProducts(products: seq<string>)
    | FillQueue
    | Dequeue
    | Match(product: string, now: string, asks: seq<Order>, bids: seq<Order>)
    | CancelById(user: string, id: nat)

  /** Someone logged in: clients cannot register or log in as default. */
  predicate Client(s: Exchange, user: string) { user in s.ledger && user != DEFAULT_USER }

  /** The client orders of a list that the trades exhaust. */
  function Exhausted(orders: seq<Order>, trades: seq<Trade>): set<Terms> {
    set o | o in orders && Remainder(o, trades).amount <= 0.0 && o.terms.username != DEFAULT_USER :: o.terms
  }

  /** The amount of the order with terms x. */
  function AmountOf(orders: seq<Order>, x: Terms): real {
    if orders == [] then 0.0 else if orders[0].terms == x then orders[0].amount else AmountOf(orders[1..], x)
  }

  /** What is left of the client orders that a pass purges: nothing, or what was negative all along. */
  function Leaving(orders: seq<Order>, trades: seq<Trade>): map<Terms, real> {
    map x | x in Exhausted(orders, trades) :: AmountOf(Apply(orders, trades), x)
  }

  ghost predicate Enabled(s: Exchange, step: Step) {
    match step
    case Register(user) => user != DEFAULT_USER && user !in s.ledger
    case Deposit(user, currency, amount) => Client(s, user)
    case Withdraw(user, currency, amount) => Client(s, user)
    case Place(o) => Client(s, o.terms.username) && o.terms.orderType != Sale && o.terms.id == s.nextId
    case Insert(k) => k < |s.accepted|
    case Trigger(product) => product in s.waking
    case ReadProducts(products) =>
      s.startUp.Fresh? && forall p :: p in products <==> p in s.book.orders
    case FillQueue => s.startUp.ProductsRead?
    case Dequeue => s.startUp.Started? && s.pending != []
    case Match(product, now, asks, bids) =>
      product in s.passes && Ranked(ListOf(s.book, product), asks, bids)
    case CancelById(user, id) => Client(s, user)
  }

  function WithPurse(s: Exchange, user: string, p: Purse): Exchange {
    s.(ledger := s.ledger[user := p])
  }

  function AfterPlace(s: Exchange, o: Order): Exchange
    requires Client(s, o.terms.username)
  {
    var effect := Fulfill(s.ledger[o.terms.username], o);
    var s1 := WithPurse(s, o.terms.username, effect.purse).(nextId := s.nextId + 1);
    if effect.outcome != Returned(true) then s1
    else s1.(accepted := s.accepted + [o], placed := s.placed[o.terms := o.amount])
  }

  function AfterInsert(s: Exchange, k: nat): Exchange
    requires k < |s.accepted|
  {
    var o := s.accepted[k];
    s.(book := InsertOrder(s.book, o), accepted := RemoveAt(s.accepted, k),
       waking := s.waking + multiset{o.terms.product}, log := s.log + [o.terms])
  }

  /** A pass that went through. */
  function AfterSettled(s: Exchange, product: string, now: string, trades: seq<Trade>): Exchange {
    s.(book := AfterPass(s.book, product, trades, SalesOf(trades, product, now, s.nextId)),
       ledger := SettleAll(s.ledger, trades).ledger,
       nextId := s.nextId + |trades|,
       passes := s.passes - multiset{product},
       tape := s.tape + trades,
       closed := s.closed + Leaving(ListOf(s.book, product), trades))
  }

  /** A pass that threw: what was sliced and settled until then stands, nothing is recorded or
      purged, and the exception is lost with the task. */
  function AfterThrow(s: Exchange, product: string, trades: seq<Trade>): Exchange {
    var booked := Reached(s.ledger, trades);
    s.(book := Booked(s.book, product, booked, []),
       ledger := SettleAll(s.ledger, trades).ledger,
       nextId := s.nextId + |booked|,
       passes := s.passes - multiset{product},
       tape := s.tape + booked)
  }

  function AfterMatch(s: Exchange, product: string, now: string, trades: seq<Trade>): Exchange {
    if SettleAll(s.ledger, trades).error.None? then AfterSettled(s, product, now, trades)
    else AfterThrow(s, product, trades)
  }

  /** CANCEL taken as one step: look the order up, unlock its funds, remove it. */
  function AfterCancel(s: Exchange, user: string, id: nat): Exchange
    requires Client(s, user)
  {
    var orders := OrdersForUser(s.book, user);
    var k := FindOrder(orders, id);
    if k == |orders| then s
    else
      var o := orders[k];
      var s1 := WithPurse(s, user, Cancel(s.ledger[user], o).purse);
      match RemoveById(s.book, user, id)
      case None => s1
      case Some(b) => s1.(book := b, closed := s.closed[o.terms := o.amount])
  }

  function Next(s: Exchange, step: Step): Exchange
    requires Enabled(s, step)
  {
    match step
    case Register(user) => WithPurse(s, user, EMPTY_PURSE)
    case Deposit(user, currency, amount) => WithPurse(s, user, Purses.Insert(s.ledger[user], currency, amount).purse)
    case Withdraw(user, currency, amount) => WithPurse(s, user, Remove(s.ledger[user], currency, amount).purse)
    case Place(o) => AfterPlace(s, o)
    case Insert(k) => AfterInsert(s, k)
    case Trigger(product) =>
      s.(waking := s.waking - multiset{product},
         pending := if product in s.pending then s.pending else s.pending + [product])
    case ReadProducts(products) => s.(startUp := ProductsRead(products))
    case FillQueue => s.(startUp := Started, pending := s.pending + s.startUp.products)
    case Dequeue => s.(pending := s.pending[1..], passes := s.passes + multiset{s.pending[0]})
    case Match(product, now, asks, bids) => AfterMatch(s, product, now, Merge(asks, bids))
    case CancelById(user, id) => AfterCancel(s, user, id)
  }

  // ---- runs ----

  /** Steps taken from s lead to s'. */
  ghost predicate Run(s: Exchange, steps: seq<Step>, s': Exchange)
    decreases |steps|
  {
    if steps == [] then s == s'
    else Enabled(s, steps[0]) && Run(Next(s, steps[0]), steps[1..], s')
  }

  /** The server as it comes up: the CSV orders all belong to default; clients, and default, may still
      have funds locked from an earlier session. */
  ghost predicate Initial(s: Exchange) {
    && WellFormed(s.book) && s.book.index == map[]
    && (forall p, o | p in s.book.orders && o in s.book.orders[p] ::
          o.terms.username == DEFAULT_USER && o.terms.id < s.nextId)
    && (forall u, c | u != DEFAULT_USER :: LockedOf(s.ledger, u, c) >= 0.0)
    && s.accepted == [] && s.waking == multiset{} && s.startUp == Fresh
    && s.pending == [] && s.passes == multiset{}
    && s.log == [] && s.tape == [] && s.placed == map[] && s.closed == map[]
  }

  /** No pass of these steps throws. */
  ghost predicate Calm(s: Exchange, steps: seq<Step>)
    decreases |steps|
  {
    steps != [] && Enabled(s, steps[0]) ==> Settles(s, steps[0]) && Calm(Next(s, steps[0]), steps[1..])
  }

  /** If the step is a pass, it does not throw. */
  predicate Settles(s: Exchange, step: Step) {
    step.Match? ==> SettleAll(s.ledger, Merge(step.asks, step.bids)).error.None?
  }
}
