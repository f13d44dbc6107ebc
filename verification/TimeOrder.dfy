/** Timestamps compare as strings; product lists are kept in timestamp order. */
module TimeOrder {
  import opened Orders
  import opened Sequences

  /** operator<= of std::string. */
  predicate NotAfter(a: string, b: string) {
    a == [] || (b != [] && (a[0] < b[0] || (a[0] == b[0] && NotAfter(a[1..], b[1..]))))
  }

  /** The order of strings: a is not after b if and only if a is a prefix of b, or has the smaller character
      where they first differ. */
  lemma {:induction false} NotAfterExactlyWhen(a: string, b: string)
    ensures NotAfter(a, b) <==>
      a <= b || exists k: nat :: k < |a| && k < |b| && a[..k] == b[..k] && a[k] < b[k]
    decreases |a|
  {
    if a != [] && b != [] {
      NotAfterExactlyWhen(a[1..], b[1..]);
      if a[0] == b[0] && NotAfter(a, b) {
        NotAfterWithHead(a, b);
      } else if a[0] < b[0] {
        assert a[..0] == b[..0];
      } else if !NotAfter(a, b) {
        AfterWithHead(a, b);
      }
    }
  }

  lemma {:induction false} NotAfterWithHead(a: string, b: string)
    requires a != [] && b != [] && a[0] == b[0]
    requires a[1..] <= b[1..] ||
      exists k: nat :: k < |a[1..]| && k < |b[1..]| && a[1..][..k] == b[1..][..k] && a[1..][k] < b[1..][k]
    ensures a <= b || exists k: nat :: k < |a| && k < |b| && a[..k] == b[..k] && a[k] < b[k]
  {
    assert a == [a[0]] + a[1..] && b == [a[0]] + b[1..];
    if !(a[1..] <= b[1..]) {
      var k: nat :| k < |a[1..]| && k < |b[1..]| && a[1..][..k] == b[1..][..k] && a[1..][k] < b[1..][k];
      assert a[..k + 1] == [a[0]] + a[1..][..k] && b[..k + 1] == [a[0]] + b[1..][..k];
      assert a[k + 1] < b[k + 1];
    }
  }

  lemma {:induction false} AfterWithHead(a: string, b: string)
    requires a != [] && b != [] && (a[0] > b[0] || (a[0] == b[0] && !(a[1..] <= b[1..])))
    requires a[0] == b[0] ==>
      !exists k: nat :: k < |a[1..]| && k < |b[1..]| && a[1..][..k] == b[1..][..k] && a[1..][k] < b[1..][k]
    ensures !(a <= b) && !exists k: nat :: k < |a| && k < |b| && a[..k] == b[..k] && a[k] < b[k]
  {
    forall k: nat | k < |a| && k < |b| && a[..k] == b[..k] ensures !(a[k] < b[k]) {
      if k > 0 {
        assert a[..k][0] == b[..k][0];
        assert a[1..][..k - 1] == a[..k][1..] && b[1..][..k - 1] == b[..k][1..];
        assert a[1..][k - 1] == a[k] && b[1..][k - 1] == b[k];
      }
    }
  }

  lemma {:induction false} NotAfterTotal(a: string, b: string)
    ensures NotAfter(a, b) || NotAfter(b, a)
    ensures NotAfter(a, b) && NotAfter(b, a) ==> a == b
    decreases |a|
  {
    if a != [] && b != [] && a[0] == b[0] {
      NotAfterTotal(a[1..], b[1..]);
      assert a == [a[0]] + a[1..] && b == [b[0]] + b[1..];
    }
  }

  lemma {:induction false} NotAfterTransitive(a: string, b: string, c: string)
    requires NotAfter(a, b) && NotAfter(b, c)
    ensures NotAfter(a, c)
    decreases |a|
  {
    if a != [] && a[0] == b[0] && b[0] == c[0] {
      NotAfterTransitive(a[1..], b[1..], c[1..]);
    }
  }

  predicate Before(x: Order, y: Order) { NotAfter(x.terms.timestamp, y.terms.timestamp) }

  ghost predicate InTimeOrder(orders: seq<Order>) {
    forall i, j | 0 <= i < j < |orders| :: Before(orders[i], orders[j])
  }

  /** insertOrder's scan: from the back, past every later order. */
  function InsertByTime(orders: seq<Order>, o: Order): (r: seq<Order>)
    ensures |r| == |orders| + 1
  {
    var n := |orders|;
    if n == 0 || Before(orders[n - 1], o) then orders + [o]
    else InsertByTime(orders[..n - 1], o) + [orders[n - 1]]
  }

  function KeepBefore(orders: seq<Order>, o: Order, before: bool): seq<Order> {
    if orders == [] then []
    else (if Before(orders[0], o) == before then [orders[0]] else []) + KeepBefore(orders[1..], o, before)
  }

  /** Where the scan stops, on any list. */
  lemma {:induction false} InsertSplits(orders: seq<Order>, o: Order) returns (k: nat)
    ensures k <= |orders|
    ensures InsertByTime(orders, o) == orders[..k] + [o] + orders[k..]
    ensures k > 0 ==> Before(orders[k - 1], o)
    ensures forall i | k <= i < |orders| :: !Before(orders[i], o)
  {
    var n := |orders|;
    if n == 0 || Before(orders[n - 1], o) {
      k := n;
      assert orders[..k] == orders && orders[k..] == [];
    } else {
      k := InsertSplits(orders[..n - 1], o);
      CutLast(orders, k);
    }
  }

  lemma {:induction false} KeepAll(orders: seq<Order>, o: Order, all: bool, before: bool)
    requires forall x | x in orders :: Before(x, o) == all
    ensures KeepBefore(orders, o, before) == if all == before then orders else []
  {
    if orders != [] {
      assert orders == [orders[0]] + orders[1..];
      assert orders[0] in orders;
      KeepAll(orders[1..], o, all, before);
    }
  }

  lemma {:induction false} KeepJoins(first: seq<Order>, second: seq<Order>, o: Order, before: bool)
    ensures KeepBefore(first + second, o, before) == KeepBefore(first, o, before) + KeepBefore(second, o, before)
  {
    if first == [] {
      assert first + second == second;
    } else {
      assert (first + second)[1..] == first[1..] + second;
      KeepJoins(first[1..], second, o, before);
    }
  }

  /** On a list in time order the scan stops exactly between the two. */
  lemma {:induction false} SplitInOrder(orders: seq<Order>, o: Order) returns (k: nat)
    requires InTimeOrder(orders)
    ensures k <= |orders|
    ensures InsertByTime(orders, o) == orders[..k] + [o] + orders[k..]
    ensures forall x | x in orders[..k] :: Before(x, o)
    ensures forall x | x in orders[k..] :: !Before(x, o) && Before(o, x)
  {
    k := InsertSplits(orders, o);
    forall i | 0 <= i < k ensures Before(orders[i], o) {
      if i < k - 1 {
        NotAfterTransitive(orders[i].terms.timestamp, orders[k - 1].terms.timestamp, o.terms.timestamp);
      }
    }
    forall i | k <= i < |orders| ensures Before(o, orders[i]) {
      NotAfterTotal(o.terms.timestamp, orders[i].terms.timestamp);
    }
  }

  /** On a list in time order, both the fast path and the scan insert stably: behind every order
      that is not later, in front of every order that is. */
  lemma {:induction false} InsertIsStable(orders: seq<Order>, o: Order)
    requires InTimeOrder(orders)
    ensures InsertByTime(orders, o) == KeepBefore(orders, o, true) + [o] + KeepBefore(orders, o, false)
  {
    var k := SplitInOrder(orders, o);
    var front, back := orders[..k], orders[k..];
    assert orders == front + back;
    forall before ensures KeepBefore(orders, o, before) == if before then front else back {
      KeepJoins(front, back, o, before);
      KeepAll(front, o, true, before);
      KeepAll(back, o, false, before);
    }
  }

  lemma {:induction false} InsertKeepsTimeOrder(orders: seq<Order>, o: Order)
    requires InTimeOrder(orders)
    ensures InTimeOrder(InsertByTime(orders, o))
  {
    var k := SplitInOrder(orders, o);
    var r := InsertByTime(orders, o);
    forall i, j | 0 <= i < j < |r| ensures Before(r[i], r[j]) {
      assert i < k ==> r[i] in orders[..k];
      assert j > k ==> r[j] in orders[k..] && r[j] == orders[j - 1];
      assert i > k ==> r[i] == orders[i - 1];
    }
  }

  // ---- list::sort ----

  /** The orders with this timestamp, in list order. */
  function At(orders: seq<Order>, stamp: string): seq<Order> {
    if orders == [] then []
    else (if orders[0].terms.timestamp == stamp then [orders[0]] else []) + At(orders[1..], stamp)
  }

  /** In time order, and orders with equal timestamps keep their order. */
  ghost predicate IsStableSort(sorted: seq<Order>, orders: seq<Order>) {
    InTimeOrder(sorted) && forall stamp :: At(sorted, stamp) == At(orders, stamp)
  }

  lemma {:induction false} AtJoins(first: seq<Order>, second: seq<Order>, stamp: string)
    ensures At(first + second, stamp) == At(first, stamp) + At(second, stamp)
  {
    if first == [] {
      assert first + second == second;
    } else {
      var head := if first[0].terms.timestamp == stamp then [first[0]] else [];
      assert (first + second)[1..] == first[1..] + second;
      AtJoins(first[1..], second, stamp);
      assert head + (At(first[1..], stamp) + At(second, stamp)) == (head + At(first[1..], stamp)) + At(second, stamp);
    }
  }

  lemma {:induction false} AtMembers(orders: seq<Order>, stamp: string)
    ensures forall o :: o in At(orders, stamp) <==> o in orders && o.terms.timestamp == stamp
  {
    if orders != [] {
      AtMembers(orders[1..], stamp);
    }
  }

  lemma {:induction false} AtNone(orders: seq<Order>, stamp: string)
    requires forall o | o in orders :: o.terms.timestamp != stamp
    ensures At(orders, stamp) == []
  {
    if orders != [] {
      assert orders[0] in orders;
      AtNone(orders[1..], stamp);
    }
  }

  lemma {:induction false} InsertKeepsTies(orders: seq<Order>, o: Order, stamp: string)
    requires InTimeOrder(orders)
    ensures At(InsertByTime(orders, o), stamp) == At(orders + [o], stamp)
  {
    var k := SplitInOrder(orders, o);
    NotAfterTotal(stamp, stamp);
    assert orders == orders[..k] + orders[k..];
    TiesAround(orders[..k], o, orders[k..], stamp);
  }

  lemma {:induction false} TiesAround(front: seq<Order>, o: Order, back: seq<Order>, stamp: string)
    requires o.terms.timestamp == stamp ==> forall x | x in back :: x.terms.timestamp != stamp
    ensures At(front + [o] + back, stamp) == At(front + back + [o], stamp)
  {
    AtJoins(front + [o], back, stamp);
    AtJoins(front, [o], stamp);
    AtJoins(front + back, [o], stamp);
    AtJoins(front, back, stamp);
    AtOne(o, stamp);
    if o.terms.timestamp == stamp {
      AtNone(back, stamp);
    }
  }

  lemma {:induction false} AtOne(o: Order, stamp: string)
    ensures At([o], stamp) == if o.terms.timestamp == stamp then [o] else []
  {
    assert [o][1..] == [];
  }

  /** std::list::sort with compareByTimestamp. */
  method SortByTimestamp(orders: seq<Order>) returns (sorted: seq<Order>)
    ensures IsStableSort(sorted, orders)
  {
    sorted := [];
    var k := 0;
    while k < |orders|
      invariant 0 <= k <= |orders|
      invariant IsStableSort(sorted, orders[..k])
    {
      InsertKeepsTimeOrder(sorted, orders[k]);
      forall stamp ensures At(InsertByTime(sorted, orders[k]), stamp) == At(orders[..k + 1], stamp) {
        InsertKeepsTies(sorted, orders[k], stamp);
        AtJoins(sorted, [orders[k]], stamp);
        AtJoins(orders[..k], [orders[k]], stamp);
        assert orders[..k + 1] == orders[..k] + [orders[k]];
      }
      sorted := InsertByTime(sorted, orders[k]);
      k := k + 1;
    }
    assert orders[..k] == orders;
  }

  lemma {:induction false} SameAtRest(a: seq<Order>, b: seq<Order>, stamp: string)
    requires a != [] && b != [] && a[0] == b[0] && At(a, stamp) == At(b, stamp)
    ensures At(a[1..], stamp) == At(b[1..], stamp)
  {
    if a[0].terms.timestamp == stamp {
      SameRest(a[0], At(a[1..], stamp), At(b[1..], stamp));
    } else {
      assert [] + At(a[1..], stamp) == At(a[1..], stamp) && [] + At(b[1..], stamp) == At(b[1..], stamp);
    }
  }

  lemma {:induction false} NonEmptyToo(a: seq<Order>, b: seq<Order>)
    requires IsStableSort(a, b) && a != []
    ensures b != []
  {
    AtMembers(a, a[0].terms.timestamp);
    AtMembers(b, a[0].terms.timestamp);
    assert a[0] in At(b, a[0].terms.timestamp);
  }

  lemma {:induction false} EarliestFirst(a: seq<Order>, b: seq<Order>)
    requires IsStableSort(a, b) && a != [] && b != []
    ensures Before(a[0], b[0])
  {
    var stamp := b[0].terms.timestamp;
    AtMembers(a, stamp);
    AtMembers(b, stamp);
    assert b[0] in At(b, stamp);
    assert At(a, stamp)[0] in a;
    var k :| 0 <= k < |a| && a[k] == At(a, stamp)[0];
    NotAfterTotal(stamp, stamp);
  }

  /** There is only one stable sort; in particular a list in time order stays as it is. */
  lemma {:induction false} StableSortIsUnique(a: seq<Order>, b: seq<Order>)
    requires IsStableSort(a, b) && InTimeOrder(b)
    ensures a == b
  {
    assert IsStableSort(b, a);
    if b != [] {
      NonEmptyToo(b, a);
    }
    if a != [] {
      NonEmptyToo(a, b);
      EarliestFirst(a, b);
      EarliestFirst(b, a);
      var stamp := a[0].terms.timestamp;
      NotAfterTotal(stamp, b[0].terms.timestamp);
      assert At(a, stamp)[0] == a[0] && At(b, stamp)[0] == b[0];
      forall s ensures At(a[1..], s) == At(b[1..], s) {
        SameAtRest(a, b, s);
      }
      StableSortIsUnique(a[1..], b[1..]);
      assert a == [a[0]] + a[1..] && b == [b[0]] + b[1..];
    }
  }
}
