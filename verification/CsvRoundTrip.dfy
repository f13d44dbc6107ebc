/** What writing the book as CSV and reading it back preserves. */
module CsvRoundTrip {
  import opened Orders
  import opened Sequences
  import opened Tokenizer
  import opened TimeOrder
  import opened Books
  import opened Csv

  /** The same order up to what a CSV line does not hold: owner and id. */
  ghost predicate Alike(a: Order, b: Order) {
    a.amount == b.amount && a.terms == b.terms.(username := a.terms.username, id := a.terms.id)
  }

  ghost predicate AllAlike(a: seq<Order>, b: seq<Order>) {
    |a| == |b| && forall k | 0 <= k < |a| :: Alike(a[k], b[k])
  }

  /** The numbers of this order print as clean fields and read back as themselves. */
  ghost predicate Exact(o: Order, show: Shower, read: Reader) {
    && Clean(show(o.terms.price), COMMA) && read(show(o.terms.price)) == Some(o.terms.price)
    && Clean(show(o.amount), COMMA) && read(show(o.amount)) == Some(o.amount)
  }

  ghost predicate OneLine(o: Order, show: Shower) { forall f | f in Fields(o, show) :: NEWLINE !in f }

  ghost predicate Writable(o: Order, show: Shower, read: Reader) {
    && Exact(o, show, read) && OneLine(o, show)
    && Clean(o.terms.timestamp, COMMA) && Clean(o.terms.product, COMMA)
  }

  // ---- one line ----

  lemma {:induction false} FieldsClean(o: Order, show: Shower, read: Reader)
    requires Exact(o, show, read)
    ensures (forall f | f in Fields(o, show) :: Clean(f, COMMA))
       <==> Clean(o.terms.timestamp, COMMA) && Clean(o.terms.product, COMMA)
  {
    var f := Fields(o, show);
    assert f[0] in f && f[1] in f;
    assert Clean(OrderTypeToString(o.terms.orderType), COMMA);
  }

  /** A line gives its order back exactly when timestamp and product are clean fields. */
  lemma {:induction false} LineRestored(o: Order, show: Shower, read: Reader, id: nat)
    requires Exact(o, show, read)
    ensures (EntryOf(LineOf(o, show), read, id).Some? && Alike(EntryOf(LineOf(o, show), read, id).value, o))
       <==> (Clean(o.terms.timestamp, COMMA) && Clean(o.terms.product, COMMA))
  {
    FieldsClean(o, show, read);
    TokensUndoJoin(Fields(o, show), COMMA);
    var tokens := ExtractTokens(LineOf(o, show), COMMA);
    TokensAreClean(SkipLeading(LineOf(o, show), COMMA), COMMA);
    if ParseLine(tokens, read, id).Some? && Alike(ParseLine(tokens, read, id).value, o) {
      assert tokens[0] in tokens && tokens[1] in tokens;
    }
  }

  /** Which lines are read, and as what: a line of clean fields is an order exactly when there are five of them, time,
      product, type, price and amount, the type has a name, and both numbers can be read. */
  lemma {:induction false} LineIsRead(fields: seq<string>, read: Reader, id: nat, o: Order)
    requires fields != [] && forall f | f in fields :: Clean(f, COMMA)
    ensures EntryOf(Join(fields, COMMA), read, id) == Some(o) <==>
      && |fields| == 5 && o.terms.timestamp == fields[0] && o.terms.product == fields[1]
      && fields[2] == OrderTypeToString(o.terms.orderType)
      && read(fields[3]) == Some(o.terms.price) && read(fields[4]) == Some(o.amount)
      && o.terms.username == DEFAULT_USER && o.terms.id == id
  {
    TokensUndoJoin(fields, COMMA);
  }

  // ---- all lines ----

  function LinesOf(orders: seq<Order>, show: Shower): (lines: seq<string>)
    ensures |lines| == |orders|
    ensures forall k | 0 <= k < |lines| :: lines[k] == LineOf(orders[k], show)
  {
    if orders == [] then [] else [LineOf(orders[0], show)] + LinesOf(orders[1..], show)
  }

  lemma {:induction false} NotInJoin(fields: seq<string>, sep: char, c: char)
    requires c != sep && forall f | f in fields :: c !in f
    ensures c !in Join(fields, sep)
  {
    if fields != [] {
      assert fields[0] in fields;
      NotInJoin(fields[1..], sep, c);
    }
  }

  lemma {:induction false} LinesOfWritten(orders: seq<Order>, show: Shower)
    requires forall o | o in orders :: OneLine(o, show)
    ensures Lines(Written(orders, show)) == LinesOf(orders, show)
  {
    if orders != [] {
      assert orders[0] in orders;
      var line, rest := LineOf(orders[0], show), Written(orders[1..], show);
      NotInJoin(Fields(orders[0], show), COMMA, NEWLINE);
      Associate(line, [NEWLINE], rest);
      LinesFirst(line, rest);
      LinesOfWritten(orders[1..], show);
    }
  }

  lemma {:induction false} WrittenEnds(orders: seq<Order>, show: Shower)
    requires orders != []
    ensures Written(orders, show) != [] && Written(orders, show)[|Written(orders, show)| - 1] == NEWLINE
  {
    if |orders| > 1 {
      WrittenEnds(orders[1..], show);
    }
  }

  lemma {:induction false} LinesJoin(file: string, text: string)
    requires file == [] || file[|file| - 1] == NEWLINE
    ensures Lines(file + text) == Lines(file) + Lines(text)
    decreases |file|
  {
    if file == [] {
      assert file + text == text;
    } else {
      var n := FieldLength(file, NEWLINE);
      LinesJoin(file[n + 1..], text);
      OneMoreLine(file, text, n);
    }
  }

  lemma {:induction false} OneMoreLine(file: string, text: string, n: nat)
    requires n < |file| && n == FieldLength(file, NEWLINE)
    requires Lines(file[n + 1..] + text) == Lines(file[n + 1..]) + Lines(text)
    ensures Lines(file + text) == Lines(file) + Lines(text)
  {
    var first, rest := [file[..n]], Lines(file[n + 1..]);
    FirstLineStays(file, text, n);
    CutAtNewline(file, n);
    Associate(first, rest, Lines(text));
  }

  lemma {:induction false} FirstLineStays(file: string, text: string, n: nat)
    requires n < |file| && n == FieldLength(file, NEWLINE)
    ensures Lines(file + text) == [file[..n]] + Lines(file[n + 1..] + text)
  {
    var line, rest := file[..n], file[n + 1..] + text;
    CutAtNewline(file, n);
    Associate(line, [NEWLINE], file[n + 1..]);
    Associate(line, [NEWLINE] + file[n + 1..], text);
    Associate([NEWLINE], file[n + 1..], text);
    LinesFirst(line, rest);
  }

  lemma {:induction false} LinesFirst(line: string, rest: string)
    requires NEWLINE !in line
    ensures Lines(line + ([NEWLINE] + rest)) == [line] + Lines(rest)
  {
    var text := line + ([NEWLINE] + rest);
    LengthOfField(line, [NEWLINE] + rest, NEWLINE);
    assert text[..|line|] == line && text[|line| + 1..] == rest;
  }

  /** Appending orders to a file that was written leaves its lines and adds theirs, and the file can be appended
      to again. */
  lemma {:induction false} AppendingAddsLines(file: string, orders: seq<Order>, show: Shower)
    requires file == [] || file[|file| - 1] == NEWLINE
    requires forall o | o in orders :: OneLine(o, show)
    ensures Lines(file + Written(orders, show)) == Lines(file) + LinesOf(orders, show)
    ensures file + Written(orders, show) == [] || (file + Written(orders, show))[|file + Written(orders, show)| - 1] == NEWLINE
  {
    LinesJoin(file, Written(orders, show));
    LinesOfWritten(orders, show);
    if orders != [] {
      WrittenEnds(orders, show);
    }
  }

  lemma {:induction false} EntryBack(o: Order, show: Shower, read: Reader, id: nat) returns (back: Order)
    requires Writable(o, show, read)
    ensures EntryOf(LineOf(o, show), read, id) == Some(back) && Alike(back, o)
  {
    LineRestored(o, show, read, id);
    back := EntryOf(LineOf(o, show), read, id).value;
  }

  lemma {:induction false} LinesInit(orders: seq<Order>, show: Shower)
    requires orders != []
    ensures LinesOf(orders, show)[..|orders| - 1] == LinesOf(orders[..|orders| - 1], show)
  {
    var n := |orders| - 1;
    forall k | 0 <= k < n ensures LinesOf(orders, show)[k] == LinesOf(orders[..n], show)[k] {
      assert orders[..n][k] == orders[k];
    }
  }

  lemma {:induction false} AlikeSnoc(a: seq<Order>, x: Order, b: seq<Order>)
    requires b != [] && AllAlike(a, b[..|b| - 1]) && Alike(x, b[|b| - 1])
    ensures AllAlike(a + [x], b)
  {
  }

  /** The last line: either nothing more is read, or its order with the next id. */
  lemma {:induction false} ParsedThen(lines: seq<string>, read: Reader, id: nat, before: seq<Order>, entry: Option<Order>)
    requires lines != [] && Parsed(lines[..|lines| - 1], read, id) == before
    requires EntryOf(lines[|lines| - 1], read, id + |before|) == entry
    ensures Parsed(lines, read, id) == WithEntry(before, entry)
  {
  }

  lemma {:induction false} ParsedAlike(orders: seq<Order>, show: Shower, read: Reader, id: nat)
    requires forall o | o in orders :: Writable(o, show, read)
    ensures AllAlike(Parsed(LinesOf(orders, show), read, id), orders)
  {
    if orders != [] {
      var n := |orders| - 1;
      ParsedAlike(orders[..n], show, read, id);
      var before := Parsed(LinesOf(orders[..n], show), read, id);
      var back := EntryBack(orders[n], show, read, id + |before|);
      LinesInit(orders, show);
      ParsedThen(LinesOf(orders, show), read, id, before, Some(back));
      AlikeSnoc(before, back, orders);
    }
  }

  /** Reading goes line by line, the ids counting on over the lines that were read. */
  lemma {:induction false} ParsedJoins(first: seq<string>, second: seq<string>, read: Reader, id: nat)
    ensures Parsed(first + second, read, id)
         == Parsed(first, read, id) + Parsed(second, read, id + |Parsed(first, read, id)|)
    decreases |second|
  {
    if second == [] {
      assert first + second == first;
    } else {
      var n := |second| - 1;
      ParsedJoins(first, second[..n], read, id);
      JoinOneMore(Parsed(first, read, id), first, second, read, id);
    }
  }

  lemma {:induction false} JoinOneMore(before: seq<Order>, first: seq<string>, second: seq<string>, read: Reader, id: nat)
    requires second != []
    requires Parsed(first + second[..|second| - 1], read, id)
          == before + Parsed(second[..|second| - 1], read, id + |before|)
    ensures Parsed(first + second, read, id) == before + Parsed(second, read, id + |before|)
  {
    var n, all := |second| - 1, first + second;
    var more := Parsed(second[..n], read, id + |before|);
    assert all[..|all| - 1] == first + second[..n];
    var entry := EntryOf(second[n], read, id + |before + more|);
    ParsedThen(all, read, id, before + more, entry);
    ParsedThen(second, read, id + |before|, more, entry);
    EntryJoins(before, more, entry);
  }

  lemma {:induction false} EntryJoins(before: seq<Order>, more: seq<Order>, entry: Option<Order>)
    ensures WithEntry(before + more, entry) == before + WithEntry(more, entry)
  {
    if entry.Some? {
      Associate(before, more, [entry.value]);
    }
  }

  lemma {:induction false} ParsedOne(line: string, read: Reader, id: nat)
    ensures Parsed([line], read, id) == if EntryOf(line, read, id).Some? then [EntryOf(line, read, id).value] else []
  {
    assert [] + [line] == [line];
    ParsedOneMore([], line, read, id);
  }

  /** A line that does not parse is skipped, and nothing else with it. */
  lemma {:induction false} BadLinesAreSkipped(first: seq<string>, bad: string, second: seq<string>, read: Reader, id: nat)
    requires forall k: nat :: EntryOf(bad, read, k).None?
    ensures Parsed(first + ([bad] + second), read, id) == Parsed(first + second, read, id)
  {
    ParsedJoins(first, [bad] + second, read, id);
    FirstIsSkipped(bad, second, read, id + |Parsed(first, read, id)|);
    ParsedJoins(first, second, read, id);
  }

  lemma {:induction false} FirstIsSkipped(bad: string, second: seq<string>, read: Reader, id: nat)
    requires EntryOf(bad, read, id).None?
    ensures Parsed([bad] + second, read, id) == Parsed(second, read, id)
  {
    ParsedJoins([bad], second, read, id);
    ParsedOne(bad, read, id);
    assert [] + Parsed(second, read, id) == Parsed(second, read, id);
  }

  /** Whatever the text, what is read belongs to the default user and has ids of its own. */
  lemma {:induction false} ParsedFresh(lines: seq<string>, read: Reader, id: nat)
    ensures forall k | 0 <= k < |Parsed(lines, read, id)| ::
      Parsed(lines, read, id)[k].terms.username == DEFAULT_USER && Parsed(lines, read, id)[k].terms.id == id + k
  {
    if lines != [] {
      var n := |lines| - 1;
      ParsedFresh(lines[..n], read, id);
      assert lines == lines[..n] + [lines[n]];
      ParsedOneMore(lines[..n], lines[n], read, id);
    }
  }

  // ---- by product ----

  lemma {:induction false} OfProductAlike(a: seq<Order>, b: seq<Order>, product: string)
    requires AllAlike(a, b)
    ensures AllAlike(OfProduct(a, product), OfProduct(b, product))
  {
    if a != [] {
      var n := |a| - 1;
      assert Alike(a[n], b[n]);
      OfProductAlike(a[..n], b[..n], product);
    }
  }

  lemma {:induction false} OfProductJoins(first: seq<Order>, second: seq<Order>, product: string)
    ensures OfProduct(first + second, product) == OfProduct(first, product) + OfProduct(second, product)
  {
    if second == [] {
      assert first + second == first;
    } else {
      var n := |second| - 1;
      var all := first + second;
      var last := if second[n].terms.product == product then [second[n]] else [];
      assert all[..|all| - 1] == first + second[..n];
      OfProductJoins(first, second[..n], product);
      assert OfProduct(first, product) + (OfProduct(second[..n], product) + last)
          == OfProduct(first, product) + OfProduct(second[..n], product) + last;
    }
  }

  lemma {:induction false} OfOneProduct(orders: seq<Order>, one: string, product: string)
    requires forall o | o in orders :: o.terms.product == one
    ensures OfProduct(orders, product) == if one == product then orders else []
  {
    if orders != [] {
      var n := |orders| - 1;
      assert orders[n] in orders && orders == orders[..n] + [orders[n]];
      OfOneProduct(orders[..n], one, product);
    }
  }

  ghost predicate OwnProducts(lists: map<string, seq<Order>>) {
    forall p, o | p in lists && o in lists[p] :: o.terms.product == p
  }

  /** Whatever order the products are enumerated in, each list is still there in one piece. */
  lemma {:induction false} AllOrdersOfProduct(lists: map<string, seq<Order>>, keys: seq<string>, product: string)
    requires OwnProducts(lists) && NoDuplicates(keys) && forall p | p in keys :: p in lists
    ensures OfProduct(AllOrders(lists, keys), product) == if product in keys then lists[product] else []
  {
    if keys != [] {
      assert keys[0] in keys && keys[0] !in keys[1..];
      OfProductJoins(lists[keys[0]], AllOrders(lists, keys[1..]), product);
      OfOneProduct(lists[keys[0]], keys[0], product);
      AllOrdersOfProduct(lists, keys[1..], product);
    }
  }

  lemma {:induction false} AllOrdersMembers(lists: map<string, seq<Order>>, keys: seq<string>, o: Order)
    requires (forall p | p in keys :: p in lists) && o in AllOrders(lists, keys)
    ensures exists p :: p in lists && o in lists[p]
  {
    if o in lists[keys[0]] {
      assert keys[0] in keys;
    } else {
      AllOrdersMembers(lists, keys[1..], o);
    }
  }

  lemma {:induction false} InProducts(orders: seq<Order>, product: string)
    ensures product in ProductsOf(orders) <==> OfProduct(orders, product) != []
  {
    if orders != [] {
      var n := |orders| - 1;
      InProducts(orders[..n], product);
      assert orders == orders[..n] + [orders[n]];
    }
  }

  lemma {:induction false} AlikeInOrder(a: seq<Order>, b: seq<Order>)
    requires AllAlike(a, b) && InTimeOrder(b)
    ensures InTimeOrder(a)
  {
    forall i, j | 0 <= i < j < |a| ensures Before(a[i], a[j]) {
      assert Alike(a[i], b[i]) && Alike(a[j], b[j]);
    }
  }

  // ---- the whole book ----

  /** A book that can be written and read back: time-ordered lists of their own product's orders,
      each of which survives its line. */
  ghost predicate Savable(lists: map<string, seq<Order>>, show: Shower, read: Reader) {
    && OwnProducts(lists)
    && (forall p | p in lists :: InTimeOrder(lists[p]))
    && (forall p, o | p in lists && o in lists[p] :: Writable(o, show, read))
  }

  lemma {:induction false} OneProductBack(lists: map<string, seq<Order>>, keys: seq<string>, read: Reader, show: Shower,
                                          parsed: seq<Order>, product: string)
    requires Savable(lists, show, read) && NoDuplicates(keys) && forall p :: p in keys <==> p in lists
    requires AllAlike(parsed, AllOrders(lists, keys))
    ensures product in ProductsOf(parsed) <==> product in lists && lists[product] != []
    ensures product in lists ==> AllAlike(OfProduct(parsed, product), lists[product]) && InTimeOrder(OfProduct(parsed, product))
  {
    OfProductAlike(parsed, AllOrders(lists, keys), product);
    AllOrdersOfProduct(lists, keys, product);
    InProducts(parsed, product);
    if product in lists {
      AlikeInOrder(OfProduct(parsed, product), lists[product]);
    }
  }

  lemma {:induction false} WrittenReadsBack(lists: map<string, seq<Order>>, keys: seq<string>, show: Shower,
                                            read: Reader, id: nat)
    requires Savable(lists, show, read) && forall p | p in keys :: p in lists
    ensures AllAlike(Parsed(Lines(Written(AllOrders(lists, keys), show)), read, id), AllOrders(lists, keys))
  {
    var all := AllOrders(lists, keys);
    forall o | o in all ensures Writable(o, show, read) {
      AllOrdersMembers(lists, keys, o);
    }
    LinesOfWritten(all, show);
    ParsedAlike(all, show, read, id);
  }

  /** Writing all orders and reading them back, for any order the products are enumerated in and any
      stable sort: every non-empty list is back, in its order, up to owners and ids. */
  lemma {:induction false} SavedAndLoaded(lists: map<string, seq<Order>>, keys: seq<string>, show: Shower, read: Reader,
                                          id: nat, loaded: map<string, seq<Order>>)
    requires Savable(lists, show, read) && NoDuplicates(keys) && forall p :: p in keys <==> p in lists
    requires Loaded(loaded, Parsed(Lines(Written(AllOrders(lists, keys), show)), read, id))
    ensures forall p :: p in loaded <==> p in lists && lists[p] != []
    ensures forall p | p in loaded :: AllAlike(loaded[p], lists[p])
  {
    var parsed := Parsed(Lines(Written(AllOrders(lists, keys), show)), read, id);
    WrittenReadsBack(lists, keys, show, read, id);
    forall p ensures p in loaded <==> p in lists && lists[p] != [] {
      OneProductBack(lists, keys, read, show, parsed, p);
    }
    forall p | p in loaded ensures AllAlike(loaded[p], lists[p]) {
      OneProductBack(lists, keys, read, show, parsed, p);
      StableSortIsUnique(loaded[p], OfProduct(parsed, p));
    }
  }
}
