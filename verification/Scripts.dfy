/** A client's wallet calls in the middle of a match pass. A pass holds ordersMutex, but every wallet has a mutex
    of its own: deposits, withdrawals and locking may come between any two wallet calls of the pass. */
module Scripts {
  import opened Orders
  import opened Tokenizer
  import opened Sequences
  import opened Trades
  import opened Matching
  import opened Purses
  import opened Settlement
  import opened Books
  import opened Exchanges
  import opened Reachable
  import opened Accounts
  import opened Interleavings

  datatype ClientCall =
    | Deposits(currency: string, amount: real)
    | Withdraws(currency: string, amount: real)
    | LocksFunds(currency: string, amount: real)

  function Done(p: Purse, op: ClientCall): Effect {
    match op
    case Deposits(currency, amount) => Purses.Insert(p, currency, amount)
    case Withdraws(currency, amount) => Remove(p, currency, amount)
    case LocksFunds(currency, amount) => Lock(p, currency, amount)
  }

  function WithDone(l: Ledger, user: string, op: ClientCall): Ledger { l[user := Done(PurseOf(l, user), op).purse] }

  /** What happens to the wallets, in order: a call of the pass, or a call of the client. */
  datatype Item = OfPass(call: Call) | Own(op: ClientCall)

  function PassPart(script: seq<Item>): seq<Call> {
    if script == [] then []
    else (if script[0].OfPass? then [script[0].call] else []) + PassPart(script[1..])
  }

  function OwnPart(script: seq<Item>): seq<ClientCall> {
    if script == [] then []
    else (if script[0].Own? then [script[0].op] else []) + OwnPart(script[1..])
  }

  /** The wallets after a script, and what the client's calls returned. */
  datatype Played = Played(ledger: Ledger, outcomes: seq<Outcome>)

  function Play(l: Ledger, script: seq<Item>, user: string): Played
    decreases |script|
  {
    if script == [] then Played(l, [])
    else
      match script[0]
      case OfPass(call) => Play(Called(l, call), script[1..], user)
      case Own(op) =>
        var rest := Play(WithDone(l, user, op), script[1..], user);
        Played(rest.ledger, [Done(PurseOf(l, user), op).outcome] + rest.outcomes)
  }

  function Owns(ops: seq<ClientCall>): seq<Item> { seq(|ops|, i requires 0 <= i < |ops| => Own(ops[i])) }

  function Passes(calls: seq<Call>): seq<Item> { seq(|calls|, i requires 0 <= i < |calls| => OfPass(calls[i])) }

  /** The client's first j calls, the pass, the client's other calls. */
  function Serial(ops: seq<ClientCall>, calls: seq<Call>, j: nat): seq<Item>
    requires j <= |ops|
  {
    Owns(ops[..j]) + Passes(calls) + Owns(ops[j..])
  }

  ghost predicate SameBalances(l: Ledger, l': Ledger) {
    forall u, c :: Free(PurseOf(l', u), c) == Free(PurseOf(l, u), c) && Locked(PurseOf(l', u), c) == Locked(PurseOf(l, u), c)
  }

  ghost predicate Same(a: Played, b: Played) { a.outcomes == b.outcomes && SameBalances(a.ledger, b.ledger) }

  /** Some order of the client's calls, as the client made them, and the pass as a whole would have returned
      the same and left the same balances. */
  ghost predicate Serialisable(l: Ledger, script: seq<Item>, user: string) {
    var ops, calls := OwnPart(script), PassPart(script);
    exists j: nat :: j <= |ops| && Same(Play(l, script, user), Play(l, Serial(ops, calls, j), user))
  }

  /** Every call on the user's wallet does what it is called for, and no refund takes anything away. */
  ghost predicate PaysOut(l: Ledger, calls: seq<Call>, user: string) {
    ServedFor(l, calls, user) && forall call | call in calls :: Giving(call)
  }

  // ---- scripts in parts ----

  lemma {:induction false} PartsJoin(first: seq<Item>, second: seq<Item>)
    ensures PassPart(first + second) == PassPart(first) + PassPart(second)
    ensures OwnPart(first + second) == OwnPart(first) + OwnPart(second)
  {
    if first == [] {
      assert first + second == second;
    } else {
      assert (first + second)[1..] == first[1..] + second;
      PartsJoin(first[1..], second);
      var call := if first[0].OfPass? then [first[0].call] else [];
      var op := if first[0].Own? then [first[0].op] else [];
      assert call + (PassPart(first[1..]) + PassPart(second)) == call + PassPart(first[1..]) + PassPart(second);
      assert op + (OwnPart(first[1..]) + OwnPart(second)) == op + OwnPart(first[1..]) + OwnPart(second);
    }
  }

  lemma {:induction false} PlayJoins(l: Ledger, first: seq<Item>, second: seq<Item>, user: string)
    ensures var p := Play(l, first, user);
      var q := Play(p.ledger, second, user);
      Play(l, first + second, user) == Played(q.ledger, p.outcomes + q.outcomes)
    decreases |first|
  {
    if first == [] {
      assert first + second == second;
      assert [] + Play(l, second, user).outcomes == Play(l, second, user).outcomes;
    } else {
      assert (first + second)[1..] == first[1..] + second;
      match first[0]
      case OfPass(call) =>
        PlayJoins(Called(l, call), first[1..], second, user);
      case Own(op) =>
        var l1 := WithDone(l, user, op);
        PlayJoins(l1, first[1..], second, user);
        var p := Play(l1, first[1..], user);
        var q := Play(p.ledger, second, user);
        Regroup([], Done(PurseOf(l, user), op).outcome, p.outcomes);
        assert [Done(PurseOf(l, user), op).outcome] + (p.outcomes + q.outcomes)
            == [Done(PurseOf(l, user), op).outcome] + p.outcomes + q.outcomes;
    }
  }

  lemma {:induction false} OutcomesCount(l: Ledger, script: seq<Item>, user: string)
    ensures |Play(l, script, user).outcomes| == |OwnPart(script)|
    decreases |script|
  {
    if script != [] {
      match script[0]
      case OfPass(call) =>
        OutcomesCount(Called(l, call), script[1..], user);
      case Own(op) =>
        OutcomesCount(WithDone(l, user, op), script[1..], user);
    }
  }

  lemma {:induction false} PlayPasses(l: Ledger, calls: seq<Call>, user: string)
    ensures Play(l, Passes(calls), user) == Played(AfterCalls(l, calls), [])
    ensures PassPart(Passes(calls)) == calls && OwnPart(Passes(calls)) == []
    decreases |calls|
  {
    if calls != [] {
      assert Passes(calls)[1..] == Passes(calls[1..]);
      PlayPasses(Called(l, calls[0]), calls[1..], user);
    }
  }

  lemma {:induction false} OwnsParts(ops: seq<ClientCall>)
    ensures OwnPart(Owns(ops)) == ops && PassPart(Owns(ops)) == []
  {
    if ops != [] {
      assert Owns(ops)[1..] == Owns(ops[1..]);
      OwnsParts(ops[1..]);
    }
  }

  lemma {:induction false} SerialParts(ops: seq<ClientCall>, calls: seq<Call>, j: nat)
    requires j <= |ops|
    ensures OwnPart(Serial(ops, calls, j)) == ops && PassPart(Serial(ops, calls, j)) == calls
  {
    PartsJoin(Owns(ops[..j]) + Passes(calls), Owns(ops[j..]));
    PartsJoin(Owns(ops[..j]), Passes(calls));
    OwnsParts(ops[..j]);
    OwnsParts(ops[j..]);
    PlayPasses(map[], calls, "");
    assert ops == ops[..j] + ops[j..];
  }

  // ---- what a script leaves depends on its outcomes alone ----

  function FreeBy(op: ClientCall, r: Outcome): real {
    if r != Returned(true) then 0.0 else if op.Deposits? then op.amount else -op.amount
  }

  function LockedBy(op: ClientCall, r: Outcome): real {
    if r == Returned(true) && op.LocksFunds? then op.amount else 0.0
  }

  /** What calls with these outcomes add to the free and to the locked funds of one currency. */
  function NetFree(ops: seq<ClientCall>, outcomes: seq<Outcome>, currency: string): real
    requires |ops| == |outcomes|
  {
    if ops == [] then 0.0
    else
      (if ops[0].currency == currency then FreeBy(ops[0], outcomes[0]) else 0.0) + NetFree(ops[1..], outcomes[1..], currency)
  }

  function NetLocked(ops: seq<ClientCall>, outcomes: seq<Outcome>, currency: string): real
    requires |ops| == |outcomes|
  {
    if ops == [] then 0.0
    else
      (if ops[0].currency == currency then LockedBy(ops[0], outcomes[0]) else 0.0)
      + NetLocked(ops[1..], outcomes[1..], currency)
  }

  /** The second ledger has this much more in one user's funds of one currency. */
  ghost predicate Further(l: Ledger, l': Ledger, user: string, currency: string, free: real, locked: real) {
    && Free(PurseOf(l', user), currency) == Free(PurseOf(l, user), currency) + free
    && Locked(PurseOf(l', user), currency) == Locked(PurseOf(l, user), currency) + locked
  }

  /** A call of the pass keeps them as far apart as they are. */
  lemma {:induction false} CallKeepsDistance(l: Ledger, l': Ledger, call: Call, user: string, currency: string, free: real,
                                          locked: real)
    requires Further(l, l', user, currency, free, locked) && locked >= 0.0
    requires (call.user == user ==> Succeeds(l, call)) || locked == 0.0
    ensures Further(Called(l, call), Called(l', call), user, currency, free, locked)
  {
    OthersStay(l, call);
    OthersStay(l', call);
  }

  lemma {:induction false} DoneMoves(l: Ledger, l': Ledger, user: string, op: ClientCall, currency: string, free: real,
                                     locked: real)
    requires Further(l, l', user, currency, free, locked)
    ensures var out, here := Done(PurseOf(l', user), op).outcome, op.currency == currency;
      && Further(l, WithDone(l', user, op), user, currency, free + (if here then FreeBy(op, out) else 0.0),
                 locked + if here then LockedBy(op, out) else 0.0)
      && LockedBy(op, out) >= 0.0
  {
  }

  lemma {:induction false} NetFirst(op: ClientCall, ops: seq<ClientCall>, out: Outcome, outs: seq<Outcome>, currency: string)
    requires |ops| == |outs|
    ensures NetFree([op] + ops, [out] + outs, currency)
         == (if op.currency == currency then FreeBy(op, out) else 0.0) + NetFree(ops, outs, currency)
    ensures NetLocked([op] + ops, [out] + outs, currency)
         == (if op.currency == currency then LockedBy(op, out) else 0.0) + NetLocked(ops, outs, currency)
  {
    assert ([op] + ops)[1..] == ops && ([out] + outs)[1..] == outs;
  }

  /** After a script the client's funds are as far from what the pass alone would have left as the client's
      calls, with the outcomes they had, take them. */
  lemma {:induction false} ScriptMoves(l: Ledger, l': Ledger, script: seq<Item>, user: string, currency: string, free: real,
                                       locked: real)
    requires Further(l, l', user, currency, free, locked) && locked >= 0.0 && ServedFor(l, PassPart(script), user)
    ensures var p := Play(l', script, user);
      && |p.outcomes| == |OwnPart(script)|
      && Further(AfterCalls(l, PassPart(script)), p.ledger, user, currency,
               free + NetFree(OwnPart(script), p.outcomes, currency), locked + NetLocked(OwnPart(script), p.outcomes, currency))
    decreases |script|
  {
    if script != [] {
      match script[0]
      case OfPass(call) =>
        assert PassPart(script) == [call] + PassPart(script[1..]) && OwnPart(script) == OwnPart(script[1..]);
        CallKeepsDistance(l, l', call, user, currency, free, locked);
        ScriptMoves(Called(l, call), Called(l', call), script[1..], user, currency, free, locked);
      case Own(op) =>
        var out, l2 := Done(PurseOf(l', user), op).outcome, WithDone(l', user, op);
        var here := op.currency == currency;
        assert PassPart(script) == PassPart(script[1..]) && OwnPart(script) == [op] + OwnPart(script[1..]);
        DoneMoves(l, l', user, op, currency, free, locked);
        ScriptMoves(l, l2, script[1..], user, currency, free + (if here then FreeBy(op, out) else 0.0),
                    locked + if here then LockedBy(op, out) else 0.0);
        NetFirst(op, OwnPart(script[1..]), out, Play(l2, script[1..], user).outcomes, currency);
    }
  }

  /** No call of the client changes another user's funds. */
  lemma {:induction false} ScriptSpares(l: Ledger, l': Ledger, script: seq<Item>, user: string, other: string, currency: string)
    requires Further(l, l', other, currency, 0.0, 0.0) && other != user
    ensures Further(AfterCalls(l, PassPart(script)), Play(l', script, user).ledger, other, currency, 0.0, 0.0)
    decreases |script|
  {
    if script != [] {
      match script[0]
      case OfPass(call) =>
        assert PassPart(script) == [call] + PassPart(script[1..]);
        CallKeepsDistance(l, l', call, other, currency, 0.0, 0.0);
        ScriptSpares(Called(l, call), Called(l', call), script[1..], user, other, currency);
      case Own(op) =>
        assert PassPart(script) == PassPart(script[1..]);
        ScriptSpares(l, WithDone(l', user, op), script[1..], user, other, currency);
    }
  }

  /** So two scripts of the same calls with the same outcomes leave the same balances. */
  lemma {:induction false} OutcomesDecide(l: Ledger, script: seq<Item>, other: seq<Item>, user: string)
    requires PassPart(other) == PassPart(script) && OwnPart(other) == OwnPart(script) && ServedFor(l, PassPart(script), user)
    requires Play(l, other, user).outcomes == Play(l, script, user).outcomes
    ensures Same(Play(l, script, user), Play(l, other, user))
  {
    var a, b := Play(l, script, user).ledger, Play(l, other, user).ledger;
    forall u, c
      ensures Free(PurseOf(b, u), c) == Free(PurseOf(a, u), c) && Locked(PurseOf(b, u), c) == Locked(PurseOf(a, u), c)
    {
      if u == user {
        ScriptMoves(l, l, script, user, c, 0.0, 0.0);
        ScriptMoves(l, l, other, user, c, 0.0, 0.0);
      } else {
        ScriptSpares(l, l, script, user, u, c);
        ScriptSpares(l, l, other, user, u, c);
      }
    }
  }

  // ---- what each call returned ----

  /** What a call returns to a client with this much free. */
  function OutcomeWith(op: ClientCall, free: real): Outcome {
    if op.amount < 0.0 then Threw(NegativeAmount) else Returned(op.Deposits? || free >= op.amount)
  }

  lemma {:induction false} OutcomeIs(p: Purse, op: ClientCall)
    ensures Done(p, op).outcome == OutcomeWith(op, Free(p, op.currency))
  {
  }

  /** What the client's calls before the kth, with these outcomes, have done to the free funds it asks for. */
  function NetAt(ops: seq<ClientCall>, outcomes: seq<Outcome>, k: nat): real
    requires k < |ops| == |outcomes|
  {
    NetFree(ops[..k], outcomes[..k], ops[k].currency)
  }

  /** What the kth call would return if this ledger's funds and the client's own calls were all there is. */
  function OutcomeFrom(l: Ledger, user: string, ops: seq<ClientCall>, outcomes: seq<Outcome>, k: nat): Outcome
    requires k < |ops| == |outcomes|
  {
    OutcomeWith(ops[k], Free(PurseOf(l, user), ops[k].currency) + NetAt(ops, outcomes, k))
  }

  /** Where the kth call stands in a script. */
  lemma {:induction false} CutAt(script: seq<Item>, k: nat) returns (first: seq<Item>, second: seq<Item>)
    requires k < |OwnPart(script)|
    ensures script == first + ([Own(OwnPart(script)[k])] + second)
    ensures OwnPart(first) == OwnPart(script)[..k]
    decreases |script|
  {
    if script[0].Own? && k == 0 {
      first, second := [], script[1..];
      assert OwnPart(script) == [script[0].op] + OwnPart(script[1..]);
    } else if script[0].Own? {
      assert OwnPart(script) == [script[0].op] + OwnPart(script[1..]);
      first, second := CutAt(script[1..], k - 1);
      PartsJoin([script[0]], first);
      first := [script[0]] + first;
    } else {
      assert OwnPart(script) == OwnPart(script[1..]);
      first, second := CutAt(script[1..], k);
      PartsJoin([script[0]], first);
      first := [script[0]] + first;
    }
  }

  lemma {:induction false} ServedFirst(l: Ledger, first: seq<Call>, second: seq<Call>, user: string)
    requires ServedFor(l, first + second, user)
    ensures ServedFor(l, first, user)
    decreases |first|
  {
    if first != [] {
      assert (first + second)[1..] == first[1..] + second;
      ServedFirst(Called(l, first[0]), first[1..], second, user);
    }
  }

  /** The kth call returns what the pass's calls so far and the client's own leave it. */
  lemma {:induction false} CallReturns(l: Ledger, script: seq<Item>, first: seq<Item>, second: seq<Item>, k: nat, user: string)
    requires k < |OwnPart(script)| && script == first + ([Own(OwnPart(script)[k])] + second)
    requires OwnPart(first) == OwnPart(script)[..k] && ServedFor(l, PassPart(script), user)
    ensures var ops, outcomes := OwnPart(script), Play(l, script, user).outcomes;
      && |outcomes| == |ops| && outcomes[k] == OutcomeFrom(AfterCalls(l, PassPart(first)), user, ops, outcomes, k)
  {
    var op := OwnPart(script)[k];
    var p := Play(l, first, user);
    PartsJoin(first, [Own(op)] + second);
    ServedFirst(l, PassPart(first), PassPart([Own(op)] + second), user);
    ScriptMoves(l, l, first, user, op.currency, 0.0, 0.0);
    PlayJoins(l, first, [Own(op)] + second, user);
    assert ([Own(op)] + second)[1..] == second;
    OutcomesCount(l, script, user);
    OutcomesCount(l, first, user);
    OutcomeIs(PurseOf(p.ledger, user), op);
    assert Play(l, script, user).outcomes[..k] == p.outcomes;
  }

  /** The kth call would have returned something else. */
  ghost predicate Differs(l: Ledger, user: string, ops: seq<ClientCall>, outcomes: seq<Outcome>, k: nat)
    requires k < |ops| == |outcomes|
  {
    OutcomeFrom(l, user, ops, outcomes, k) != outcomes[k]
  }

  /** What the kth call sees of the pass when it comes after the first j calls. */
  function Seen(l: Ledger, after: Ledger, j: nat, k: nat): Ledger { if k < j then l else after }

  lemma {:induction false} CutBefore(ops: seq<ClientCall>, calls: seq<Call>, j: nat, k: nat)
    returns (first: seq<Item>, second: seq<Item>)
    requires k < j <= |ops|
    ensures Serial(ops, calls, j) == first + ([Own(ops[k])] + second)
    ensures OwnPart(first) == ops[..k] && PassPart(first) == []
  {
    first, second := Owns(ops[..k]), Owns(ops[k + 1..j]) + (Passes(calls) + Owns(ops[j..]));
    OwnsParts(ops[..k]);
    assert Owns(ops[..j]) == first + ([Own(ops[k])] + Owns(ops[k + 1..j]));
  }

  lemma {:induction false} CutBehind(ops: seq<ClientCall>, calls: seq<Call>, j: nat, k: nat)
    returns (first: seq<Item>, second: seq<Item>)
    requires j <= k < |ops|
    ensures Serial(ops, calls, j) == first + ([Own(ops[k])] + second)
    ensures OwnPart(first) == ops[..k] && PassPart(first) == calls
  {
    first, second := Serial(ops[..k], calls, j), Owns(ops[k + 1..]);
    SerialParts(ops[..k], calls, j);
    assert ops[..k][..j] == ops[..j] && ops[..k][j..] == ops[j..k];
    assert Owns(ops[j..]) == Owns(ops[j..k]) + ([Own(ops[k])] + second);
  }

  /** Where the pass comes in one piece, the calls before it see the funds before it, those after it the funds
      after it. */
  lemma {:induction false} SerialReturns(l: Ledger, ops: seq<ClientCall>, calls: seq<Call>, j: nat, k: nat, user: string)
    requires k < |ops| && j <= |ops| && ServedFor(l, calls, user)
    ensures var outcomes := Play(l, Serial(ops, calls, j), user).outcomes;
      && |outcomes| == |ops|
      && !Differs(Seen(l, AfterCalls(l, calls), j, k), user, ops, outcomes, k)
  {
    SerialParts(ops, calls, j);
    if k < j {
      var first, second := CutBefore(ops, calls, j, k);
      CallReturns(l, Serial(ops, calls, j), first, second, k, user);
    } else {
      var first, second := CutBehind(ops, calls, j, k);
      CallReturns(l, Serial(ops, calls, j), first, second, k, user);
    }
  }

  /** A script's call sees no less than the funds before the pass, and no more than those after it. */
  lemma {:induction false} CallIsBetween(l: Ledger, script: seq<Item>, k: nat, user: string)
    requires k < |OwnPart(script)| && PaysOut(l, PassPart(script), user)
    ensures var ops, outcomes, after := OwnPart(script), Play(l, script, user).outcomes, AfterCalls(l, PassPart(script));
      && |outcomes| == |ops|
      && (Differs(l, user, ops, outcomes, k) ==> outcomes[k] == Returned(true))
      && (Differs(after, user, ops, outcomes, k) ==> outcomes[k] == Returned(false))
  {
    var first, second := CutAt(script, k);
    CallReturns(l, script, first, second, k, user);
    PartsJoin(first, [Own(OwnPart(script)[k])] + second);
    var c, before, rest := OwnPart(script)[k].currency, PassPart(first), PassPart([Own(OwnPart(script)[k])] + second);
    forall call | call in before ensures Giving(call) {
      assert call in PassPart(script);
    }
    forall call | call in rest ensures Giving(call) {
      assert call in PassPart(script);
    }
    FreeGrows(l, before, user, c);
    FreeGrows(AfterCalls(l, before), rest, user, c);
    CallsJoin(l, before, rest);
  }

  /** With the pass after the first j calls, every call returns this. */
  ghost predicate Fits(l: Ledger, after: Ledger, user: string, ops: seq<ClientCall>, outcomes: seq<Outcome>, j: nat)
    requires j <= |ops| == |outcomes|
  {
    forall k: nat | k < |ops| :: !Differs(Seen(l, after, j, k), user, ops, outcomes, k)
  }

  lemma {:induction false} OneMoreAgrees(l: Ledger, user: string, ops: seq<ClientCall>, a: seq<Outcome>, b: seq<Outcome>,
                                         k: nat)
    requires k < |ops| == |a| == |b| && a[..k] == b[..k]
    requires !Differs(l, user, ops, a, k) && !Differs(l, user, ops, b, k)
    ensures a[..k + 1] == b[..k + 1]
  {
    assert a[..k + 1] == a[..k] + [a[k]] && b[..k + 1] == b[..k] + [b[k]];
  }

  lemma {:induction false} FittingIsForced(l: Ledger, ops: seq<ClientCall>, calls: seq<Call>, outcomes: seq<Outcome>, j: nat,
                                           n: nat, user: string)
    requires j <= |ops| == |outcomes| && n <= |ops| && ServedFor(l, calls, user)
    requires Fits(l, AfterCalls(l, calls), user, ops, outcomes, j)
    ensures var serial := Play(l, Serial(ops, calls, j), user).outcomes;
      |serial| == |ops| && serial[..n] == outcomes[..n]
  {
    SerialParts(ops, calls, j);
    OutcomesCount(l, Serial(ops, calls, j), user);
    if n > 0 {
      var serial, k := Play(l, Serial(ops, calls, j), user).outcomes, n - 1;
      FittingIsForced(l, ops, calls, outcomes, j, k, user);
      SerialReturns(l, ops, calls, j, k, user);
      assert !Differs(Seen(l, AfterCalls(l, calls), j, k), user, ops, outcomes, k);
      OneMoreAgrees(Seen(l, AfterCalls(l, calls), j, k), user, ops, serial, outcomes, k);
    }
  }

  /** The pass after the first j calls is a serial order of the script exactly when every call returns what it
      would have returned there. */
  lemma {:induction false} SerialFits(l: Ledger, script: seq<Item>, j: nat, user: string)
    requires j <= |OwnPart(script)| && ServedFor(l, PassPart(script), user)
    ensures var ops, calls, p := OwnPart(script), PassPart(script), Play(l, script, user);
      && |p.outcomes| == |ops|
      && (Same(p, Play(l, Serial(ops, calls, j), user)) <==> Fits(l, AfterCalls(l, calls), user, ops, p.outcomes, j))
  {
    var ops, calls, p := OwnPart(script), PassPart(script), Play(l, script, user);
    var q := Play(l, Serial(ops, calls, j), user);
    OutcomesCount(l, script, user);
    SerialParts(ops, calls, j);
    if Fits(l, AfterCalls(l, calls), user, ops, p.outcomes, j) {
      FittingIsForced(l, ops, calls, p.outcomes, j, |ops|, user);
      assert q.outcomes[..|ops|] == q.outcomes && p.outcomes[..|ops|] == p.outcomes;
      OutcomesDecide(l, script, Serial(ops, calls, j), user);
    }
    if Same(p, q) {
      forall k: nat | k < |ops| ensures !Differs(Seen(l, AfterCalls(l, calls), j, k), user, ops, p.outcomes, k) {
        SerialReturns(l, ops, calls, j, k, user);
      }
    }
  }

  // ---- exactly which scripts are as if in turn ----

  /** Granted, although the funds before the pass would not have sufficed. */
  ghost predicate OwesToPass(l: Ledger, script: seq<Item>, user: string, k: nat) {
    var ops, outcomes := OwnPart(script), Play(l, script, user).outcomes;
    k < |ops| == |outcomes| && outcomes[k] == Returned(true) && OutcomeFrom(l, user, ops, outcomes, k) == Returned(false)
  }

  /** Refused, although the funds after the pass would have sufficed. */
  ghost predicate AheadOfPass(l: Ledger, script: seq<Item>, user: string, k: nat) {
    var ops, outcomes := OwnPart(script), Play(l, script, user).outcomes;
    && k < |ops| == |outcomes| && outcomes[k] == Returned(false)
    && OutcomeFrom(AfterCalls(l, PassPart(script)), user, ops, outcomes, k) == Returned(true)
  }

  lemma {:induction false} DiffersIs(l: Ledger, script: seq<Item>, user: string, k: nat)
    requires k < |OwnPart(script)| && PaysOut(l, PassPart(script), user)
    ensures var ops, outcomes, after := OwnPart(script), Play(l, script, user).outcomes, AfterCalls(l, PassPart(script));
      && |outcomes| == |ops|
      && (Differs(l, user, ops, outcomes, k) <==> OwesToPass(l, script, user, k))
      && (Differs(after, user, ops, outcomes, k) <==> AheadOfPass(l, script, user, k))
  {
    CallIsBetween(l, script, k, user);
  }

  /** The first call that owes to the pass, or the number of calls. */
  lemma {:induction false} FirstOwing(l: Ledger, script: seq<Item>, user: string, n: nat) returns (j: nat)
    requires n <= |OwnPart(script)|
    ensures j <= n && (forall k: nat | k < j :: !OwesToPass(l, script, user, k)) && (j < n ==> OwesToPass(l, script, user, j))
  {
    if n == 0 {
      j := 0;
    } else {
      j := FirstOwing(l, script, user, n - 1);
      if j == n - 1 && !OwesToPass(l, script, user, j) {
        j := n;
      }
    }
  }

  /** However many calls a client makes in the middle of a pass, they and the pass are as if made in turn exactly
      when no call that the pass paid for comes before one that was refused too early. */
  lemma {:induction false} SerialisableExactlyWhen(l: Ledger, script: seq<Item>, user: string)
    requires PaysOut(l, PassPart(script), user)
    ensures Serialisable(l, script, user)
       <==> !exists i: nat, k: nat :: i < k && OwesToPass(l, script, user, i) && AheadOfPass(l, script, user, k)
  {
    var n := |OwnPart(script)|;
    if Serialisable(l, script, user) {
      var j: nat :| j <= n && Same(Play(l, script, user), Play(l, Serial(OwnPart(script), PassPart(script), j), user));
      forall i: nat, k: nat | i < k && OwesToPass(l, script, user, i) ensures !AheadOfPass(l, script, user, k) {
        SerialOrders(l, script, user, j, i, k);
      }
    }
    if !exists i: nat, k: nat :: i < k && OwesToPass(l, script, user, i) && AheadOfPass(l, script, user, k) {
      var j := FirstOwing(l, script, user, n);
      SerialAt(l, script, user, j);
    }
  }

  lemma {:induction false} SerialOrders(l: Ledger, script: seq<Item>, user: string, j: nat, i: nat, k: nat)
    requires PaysOut(l, PassPart(script), user)
    requires j <= |OwnPart(script)| && i < k && OwesToPass(l, script, user, i)
    requires Same(Play(l, script, user), Play(l, Serial(OwnPart(script), PassPart(script), j), user))
    ensures !AheadOfPass(l, script, user, k)
  {
    SerialFits(l, script, j, user);
    var ops, outcomes, after := OwnPart(script), Play(l, script, user).outcomes, AfterCalls(l, PassPart(script));
    DiffersIs(l, script, user, i);
    assert !Differs(Seen(l, after, j, i), user, ops, outcomes, i);
    if k < |ops| {
      DiffersIs(l, script, user, k);
      assert !Differs(Seen(l, after, j, k), user, ops, outcomes, k);
    }
  }

  lemma {:induction false} SerialAt(l: Ledger, script: seq<Item>, user: string, j: nat)
    requires PaysOut(l, PassPart(script), user)
    requires j <= |OwnPart(script)| && forall k: nat | k < j :: !OwesToPass(l, script, user, k)
    requires forall k: nat | j <= k < |OwnPart(script)| :: !AheadOfPass(l, script, user, k)
    ensures Serialisable(l, script, user)
  {
    var ops, outcomes, after := OwnPart(script), Play(l, script, user).outcomes, AfterCalls(l, PassPart(script));
    OutcomesCount(l, script, user);
    forall k: nat | k < |ops| ensures !Differs(Seen(l, after, j, k), user, ops, outcomes, k) {
      DiffersIs(l, script, user, k);
    }
    SerialFits(l, script, j, user);
  }

  /** A single call, and any calls of which none is refused, are always as if in turn. */
  lemma {:induction false} OneCallOrNoRefusal(l: Ledger, script: seq<Item>, user: string)
    requires PaysOut(l, PassPart(script), user)
    requires |OwnPart(script)| <= 1 || Returned(false) !in Play(l, script, user).outcomes
    ensures Serialisable(l, script, user)
  {
    SerialisableExactlyWhen(l, script, user);
  }

  /** So it is in a sound, covered state with every pass that goes through. */
  lemma {:induction false} PassIsSerialisableExactlyWhen(s: Exchange, product: string, trades: seq<Trade>, script: seq<Item>,
                                                         user: string)
    requires Sound(s) && Covered(s) && IsPass(ListOf(s.book, product), trades) && user != DEFAULT_USER
    requires SettleAll(s.ledger, trades).error.None? && PassPart(script) == AllCalls(trades)
    ensures Serialisable(s.ledger, script, user)
       <==> !exists i: nat, k: nat :: i < k && OwesToPass(s.ledger, script, user, i) && AheadOfPass(s.ledger, script, user, k)
  {
    PassCalls(s, product, trades, user);
    SerialisableExactlyWhen(s.ledger, script, user);
  }

  // ---- two withdrawals that no order explains ----

  /** Two withdrawals of the same amount between two parts of a pass. */
  function TwoWithdrawals(first: seq<Call>, second: seq<Call>, op: ClientCall): seq<Item> {
    Passes(first) + (Owns([op, op]) + Passes(second))
  }

  lemma {:induction false} AmidParts(first: seq<Call>, ops: seq<ClientCall>, second: seq<Call>)
    ensures PassPart(Passes(first) + (Owns(ops) + Passes(second))) == first + second
    ensures OwnPart(Passes(first) + (Owns(ops) + Passes(second))) == ops
  {
    PartsJoin(Passes(first), Owns(ops) + Passes(second));
    PartsJoin(Owns(ops), Passes(second));
    PlayPasses(map[], first, "");
    PlayPasses(map[], second, "");
    OwnsParts(ops);
    assert [] + second == second && ops + [] == ops && [] + ops == ops;
  }

  lemma {:induction false} TwoWithdrawalsParts(first: seq<Call>, second: seq<Call>, op: ClientCall)
    ensures PassPart(TwoWithdrawals(first, second, op)) == first + second
    ensures OwnPart(TwoWithdrawals(first, second, op)) == [op, op]
  {
    AmidParts(first, [op, op], second);
  }

  lemma {:induction false} OneIsGranted(l: Ledger, first: seq<Call>, second: seq<Call>, user: string, currency: string, x: real)
    requires 0.0 < x <= Free(PurseOf(AfterCalls(l, first), user), currency) < x + x
    ensures Play(l, TwoWithdrawals(first, second, Withdraws(currency, x)), user).outcomes == [Returned(true), Returned(false)]
  {
    var op := Withdraws(currency, x);
    var mid := AfterCalls(l, first);
    PlayPasses(l, first, user);
    assert Owns([op, op]) == [Own(op), Own(op)];
    PlayJoins(l, Passes(first), [Own(op), Own(op)] + Passes(second), user);
    var l1 := WithDone(mid, user, op);
    var l2 := WithDone(l1, user, op);
    PlayPasses(l2, second, user);
    var rest := [Own(op), Own(op)] + Passes(second);
    assert rest[1..] == [Own(op)] + Passes(second) && rest[1..][1..] == Passes(second);
  }

  lemma {:induction false} OutOfOrder(l: Ledger, script: seq<Item>, user: string, ops: seq<ClientCall>, outcomes: seq<Outcome>)
    requires PaysOut(l, PassPart(script), user)
    requires OwnPart(script) == ops && Play(l, script, user).outcomes == outcomes && |ops| == |outcomes| == 2
    requires outcomes[0] == Returned(true) && OutcomeFrom(l, user, ops, outcomes, 0) == Returned(false)
    requires outcomes[1] == Returned(false)
    requires OutcomeFrom(AfterCalls(l, PassPart(script)), user, ops, outcomes, 1) == Returned(true)
    ensures !Serialisable(l, script, user)
  {
    assert OwesToPass(l, script, user, 0) && AheadOfPass(l, script, user, 1);
    SerialisableExactlyWhen(l, script, user);
  }

  lemma {:induction false} NetOfTwo(op: ClientCall)
    ensures NetAt([op, op], [Returned(true), Returned(false)], 0) == 0.0
    ensures NetAt([op, op], [Returned(true), Returned(false)], 1) == FreeBy(op, Returned(true))
  {
    assert [op, op][..1] == [op] && [Returned(true), Returned(false)][..1] == [Returned(true)];
    assert [op][1..] == [] && [Returned(true)][1..] == [];
  }

  /** Where the funds before the pass cover neither of them, those in its middle one, and those after it both,
      one is granted and one refused, as in no order of the two and the pass. */
  lemma {:induction false} TwoWithdrawalsFail(l: Ledger, first: seq<Call>, second: seq<Call>, user: string, currency: string,
                                              x: real)
    requires PaysOut(l, first + second, user)
    requires Free(PurseOf(l, user), currency) < x <= Free(PurseOf(AfterCalls(l, first), user), currency) < x + x
    requires Free(PurseOf(AfterCalls(l, first + second), user), currency) >= x + x
    ensures !Serialisable(l, TwoWithdrawals(first, second, Withdraws(currency, x)), user)
  {
    var op := Withdraws(currency, x);
    var script := TwoWithdrawals(first, second, op);
    TwoWithdrawalsParts(first, second, op);
    OneIsGranted(l, first, second, user, currency, x);
    NetOfTwo(op);
    OutOfOrder(l, script, user, [op, op], [Returned(true), Returned(false)]);
  }

  lemma {:induction false} PaymentArrives(l: Ledger, t: Trade, user: string, quote: string)
    requires SaneTrade(t) && |ExtractTokens(t.ask.product, '/')| == 2 && CoversTrade(l, t) && KnownUsers(l, [t])
    requires Earns(t, user, quote) && t.bid.username != user && user != DEFAULT_USER
    ensures Settle(l, t).error.None?
    ensures Free(PurseOf(Settle(l, t).ledger, user), quote) == Free(PurseOf(l, user), quote) + Cost(t)
  {
    assert t in [t];
    SettleEffect(l, t);
    OneTrade(l, t);
    assert FreeOf(Settle(l, t).ledger, user, quote) == FreeOf(l, user, quote) + ReceivedBy([t], user, quote);
  }

  /** A client with nothing free of the currency is paid the same twice by a pass, and withdraws as much twice
      between the payments. */
  lemma {:induction false} PaidTwice(l: Ledger, t: Trade, next: Trade, user: string, quote: string)
    requires forall x | x in [t, next] :: SaneTrade(x) && |ExtractTokens(x.ask.product, '/')| == 2
    requires forall x | x in [t, next] :: Earns(x, user, quote) && x.bid.username != user
    requires CoversAll(l, [t, next]) && KnownUsers(l, [t, next]) && user != DEFAULT_USER
    requires Free(PurseOf(l, user), quote) == 0.0 && Cost(t) == Cost(next) > 0.0
    ensures var op := Withdraws(quote, Cost(t));
      && PassPart(TwoWithdrawals(CallsOf(t), CallsOf(next), op)) == AllCalls([t, next])
      && Play(l, TwoWithdrawals(CallsOf(t), CallsOf(next), op), user).outcomes == [Returned(true), Returned(false)]
      && !Serialisable(l, TwoWithdrawals(CallsOf(t), CallsOf(next), op), user)
  {
    assert t in [t, next] && next in [t, next];
    CallsOfTwo(t, next);
    TwoFills(l, t, next);
    var l1 := Settle(l, t).ledger;
    PaymentArrives(l, t, user, quote);
    PaymentArrives(l1, next, user, quote);
    PassServes(l, [t, next], user);
    SaneGives([t, next]);
    CallsJoin(l, CallsOf(t), CallsOf(next));
    SettleIsCalls(l, t);
    SettleIsCalls(l1, next);
    TwoWithdrawalsParts(CallsOf(t), CallsOf(next), Withdraws(quote, Cost(t)));
    OneIsGranted(l, CallsOf(t), CallsOf(next), user, quote, Cost(t));
    TwoWithdrawalsFail(l, CallsOf(t), CallsOf(next), user, quote, Cost(t));
  }

  lemma {:induction false} CallsOfTwo(t: Trade, next: Trade)
    ensures AllCalls([t, next]) == CallsOf(t) + CallsOf(next)
  {
    assert [t, next][1..] == [next] && [next][1..] == [];
    assert AllCalls([next]) == CallsOf(next) + [];
  }

  lemma {:induction false} TwoFills(l: Ledger, t: Trade, next: Trade)
    requires forall x | x in [t, next] :: SaneTrade(x) && |ExtractTokens(x.ask.product, '/')| == 2
    requires CoversAll(l, [t, next]) && KnownUsers(l, [t, next])
    ensures CoversTrade(l, t) && KnownUsers(l, [t])
    ensures CoversTrade(Settle(l, t).ledger, next) && KnownUsers(Settle(l, t).ledger, [next])
  {
    assert [t, next][1..] == [next];
    FirstIsCovered(l, [t, next]);
    FirstIsCovered(Settle(l, t).ledger, [next]);
    assert t in [t, next];
  }
}
