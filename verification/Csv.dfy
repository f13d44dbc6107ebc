/** CSVHandler: writing orders as CSV text and reading them back. Numbers are printed and parsed by
    functions that stand for operator<< and std::stod. */
module Csv {
  import opened Orders
  import opened Sequences
  import opened Tokenizer
  import opened TimeOrder
  import opened Entries

  type Reader = string -> Option<real>
  type Shower = real -> string

  const COMMA := ','
  const NEWLINE := '\n'

  // ---- reading ----

  /** One line's tokens as an order of the default user; None stands for any exception. */
  function ParseLine(tokens: seq<string>, read: Reader, id: nat): Option<Order> {
    if |tokens| != 5 then None
    else
      var orderType, price, amount := DetermineOrderType(tokens[2]), read(tokens[3]), read(tokens[4]);
      if orderType.None? || price.None? || amount.None? then None
      else Some(Order(Terms(price.value, tokens[0], tokens[1], orderType.value, DEFAULT_USER, id), amount.value))
  }

  /** The orders of the lines that parse; the ids count on from the first. */
  function Parsed(lines: seq<string>, read: Reader, id: nat): (r: seq<Order>)
    ensures |r| <= |lines|
  {
    if lines == [] then []
    else
      var n := |lines| - 1;
      var before := Parsed(lines[..n], read, id);
      WithEntry(before, EntryOf(lines[n], read, id + |before|))
  }

  function EntryOf(line: string, read: Reader, id: nat): Option<Order> {
    ParseLine(ExtractTokens(line, COMMA), read, id)
  }

  function WithEntry(orders: seq<Order>, entry: Option<Order>): seq<Order> {
    if entry.Some? then orders + [entry.value] else orders
  }

  /** What getline finds in a text: a last line without a newline counts unless it is empty. */
  function Lines(text: string): seq<string> {
    if text == [] then []
    else
      var n := FieldLength(text, NEWLINE);
      if n == |text| then [text] else [text[..n]] + Lines(text[n + 1..])
  }

  lemma {:induction false} CutAtNewline(text: string, n: nat)
    requires n < |text| && n == FieldLength(text, NEWLINE)
    ensures text == text[..n] + [NEWLINE] + text[n + 1..] && NEWLINE !in text[..n]
    ensures Lines(text) == [text[..n]] + Lines(text[n + 1..])
  {
  }

  lemma {:induction false} JoinFirst(line: string, rest: seq<string>, sep: char)
    requires rest != []
    ensures Join([line] + rest, sep) == line + [sep] + Join(rest, sep)
  {
    assert ([line] + rest)[1..] == rest;
  }

  /** On every text: no line holds a newline, and the lines joined by newlines are the text, up to the newline
      that it may end in. */
  lemma {:induction false} LinesAreTheText(text: string)
    ensures forall line | line in Lines(text) :: NEWLINE !in line
    ensures text == Join(Lines(text), NEWLINE) + if text != [] && text[|text| - 1] == NEWLINE then [NEWLINE] else []
    ensures Lines(text) == [] <==> text == []
    decreases |text|
  {
    if text != [] {
      var n := FieldLength(text, NEWLINE);
      if n == |text| {
        LastLine(text);
      } else {
        LinesAreTheText(text[n + 1..]);
        FirstLine(text, n);
      }
    }
  }

  lemma {:induction false} LastLine(text: string)
    requires text != [] && FieldLength(text, NEWLINE) == |text|
    ensures NEWLINE !in text && text[|text| - 1] != NEWLINE && text == Join([text], NEWLINE) + []
  {
    assert text[..|text|] == text && text[|text| - 1] in text;
  }

  lemma {:induction false} FirstLine(text: string, n: nat)
    requires n < |text| && n == FieldLength(text, NEWLINE)
    requires var rest := text[n + 1..];
      && (Lines(rest) == [] <==> rest == [])
      && rest == Join(Lines(rest), NEWLINE) + if rest != [] && rest[|rest| - 1] == NEWLINE then [NEWLINE] else []
    ensures text == Join(Lines(text), NEWLINE) + if text[|text| - 1] == NEWLINE then [NEWLINE] else []
  {
    var line, rest := text[..n], text[n + 1..];
    CutAtNewline(text, n);
    if rest == [] {
      assert Lines(text) == [line] && text[|text| - 1] == NEWLINE;
    } else {
      JoinFirst(line, Lines(rest), NEWLINE);
      assert text[|text| - 1] == rest[|rest| - 1];
    }
  }

  function OfProduct(orders: seq<Order>, product: string): seq<Order> {
    if orders == [] then []
    else
      var n := |orders| - 1;
      OfProduct(orders[..n], product) + (if orders[n].terms.product == product then [orders[n]] else [])
  }

  function ProductsOf(orders: seq<Order>): set<string> { set o | o in orders :: o.terms.product }

  ghost predicate Grouped(lists: map<string, seq<Order>>, orders: seq<Order>) {
    lists.Keys == ProductsOf(orders) && forall p | p in lists :: lists[p] == OfProduct(orders, p)
  }

  /** Grouped by product, each list sorted by time. */
  ghost predicate Loaded(lists: map<string, seq<Order>>, orders: seq<Order>) {
    lists.Keys == ProductsOf(orders) && forall p | p in lists :: IsStableSort(lists[p], OfProduct(orders, p))
  }

  lemma {:induction false} GroupOneMore(lists: map<string, seq<Order>>, orders: seq<Order>, o: Order)
    requires Grouped(lists, orders)
    ensures Grouped(Pushed(lists, o), orders + [o])
  {
    assert (orders + [o])[..|orders|] == orders;
    assert ProductsOf(orders + [o]) == ProductsOf(orders) + {o.terms.product};
    if o.terms.product !in lists {
      NoneOfProduct(orders, o.terms.product);
    }
  }

  lemma {:induction false} NoneOfProduct(orders: seq<Order>, product: string)
    requires product !in ProductsOf(orders)
    ensures OfProduct(orders, product) == []
  {
    if orders != [] {
      var n := |orders| - 1;
      assert orders[n] in orders;
      assert ProductsOf(orders[..n]) <= ProductsOf(orders);
      NoneOfProduct(orders[..n], product);
    }
  }

  lemma {:induction false} ParsedOneMore(lines: seq<string>, line: string, read: Reader, id: nat)
    ensures var before := Parsed(lines, read, id);
      Parsed(lines + [line], read, id) == WithEntry(before, EntryOf(line, read, id + |before|))
  {
    assert (lines + [line])[..|lines|] == lines;
  }

  lemma {:induction false} ReadOneMore(lists: map<string, seq<Order>>, lines: seq<string>, line: string,
                                       read: Reader, first: nat, entry: Option<Order>)
    requires Grouped(lists, Parsed(lines, read, first))
    requires entry == EntryOf(line, read, first + |Parsed(lines, read, first)|)
    ensures var after := Parsed(lines + [line], read, first);
      if entry.None? then after == Parsed(lines, read, first)
      else |after| == |Parsed(lines, read, first)| + 1 && Grouped(Pushed(lists, entry.value), after)
  {
    ParsedOneMore(lines, line, read, first);
    if entry.Some? {
      GroupOneMore(lists, Parsed(lines, read, first), entry.value);
    }
  }

  /** entries[product].push_back(entry). */
  function Pushed(lists: map<string, seq<Order>>, o: Order): map<string, seq<Order>> {
    lists[o.terms.product := (if o.terms.product in lists then lists[o.terms.product] else []) + [o]]
  }

  /** std::getline. */
  method GetLine(text: string) returns (line: string, rest: string)
    requires text != []
    ensures Lines(text) == [line] + Lines(rest) && |rest| < |text| && NEWLINE !in line
    ensures text == line + [NEWLINE] + rest || (text == line && rest == [])
  {
    var n := FieldLength(text, NEWLINE);
    if n == |text| {
      LastLine(text);
      return text, [];
    }
    CutAtNewline(text, n);
    return text[..n], text[n + 1..];
  }

  /** One line: its order goes to the back of its product's list, unless it does not parse. */
  method ReadLine(lists: map<string, seq<Order>>, line: string, read: Reader, ids: IdSource,
                  ghost done: seq<string>, ghost first: nat)
    returns (lists': map<string, seq<Order>>)
    requires Grouped(lists, Parsed(done, read, first)) && ids.nextId == first + |Parsed(done, read, first)|
    modifies ids
    ensures Grouped(lists', Parsed(done + [line], read, first))
    ensures ids.nextId == first + |Parsed(done + [line], read, first)|
  {
    var tokens := Tokenize(line, COMMA);
    var entry := ParseLine(tokens, read, ids.nextId);
    ReadOneMore(lists, done, line, read, first, entry);
    if entry.None? {
      return lists;
    }
    var _ := ids.Take();
    lists' := Pushed(lists, entry.value);
  }

  /** The reading loop. */
  method ReadLines(text: string, read: Reader, ids: IdSource) returns (lists: map<string, seq<Order>>)
    modifies ids
    ensures Grouped(lists, Parsed(Lines(text), read, old(ids.nextId)))
    ensures ids.nextId == old(ids.nextId) + |Parsed(Lines(text), read, old(ids.nextId))|
  {
    lists := map[];
    var rest := text;
    ghost var all, done, ahead := Lines(text), [], Lines(text);
    assert all == done + ahead;
    while rest != []
      invariant ahead == Lines(rest) && all == done + ahead
      invariant Grouped(lists, Parsed(done, read, old(ids.nextId)))
      invariant ids.nextId == old(ids.nextId) + |Parsed(done, read, old(ids.nextId))|
      decreases |rest|
    {
      var line;
      line, rest := GetLine(rest);
      ahead := Lines(rest);
      Regroup(done, line, ahead);
      lists := ReadLine(lists, line, read, ids, done, old(ids.nextId));
      done := done + [line];
    }
    assert done == all;
  }

  /** The sorting loop. */
  method SortLists(lists: map<string, seq<Order>>) returns (sorted: map<string, seq<Order>>)
    ensures sorted.Keys == lists.Keys && forall p | p in lists :: IsStableSort(sorted[p], lists[p])
  {
    sorted := lists;
    var todo := lists.Keys;
    while todo != {}
      invariant todo <= lists.Keys == sorted.Keys
      invariant forall p | p in lists :: if p in todo then sorted[p] == lists[p] else IsStableSort(sorted[p], lists[p])
      decreases |todo|
    {
      var product :| product in todo;
      var list := SortByTimestamp(sorted[product]);
      sorted := sorted[product := list];
      todo := todo - {product};
    }
  }

  /** readCSV: read the lines, then sort each list. A file that does not open holds nothing. */
  method ReadCsv(file: Option<string>, read: Reader, ids: IdSource) returns (lists: map<string, seq<Order>>)
    modifies ids
    ensures Loaded(lists, Parsed(Lines(file.GetOr("")), read, old(ids.nextId)))
    ensures ids.nextId == old(ids.nextId) + |Parsed(Lines(file.GetOr("")), read, old(ids.nextId))|
  {
    var grouped := ReadLines(file.GetOr(""), read, ids);
    lists := SortLists(grouped);
  }

  // ---- writing ----

  function Fields(o: Order, show: Shower): seq<string> {
    [o.terms.timestamp, o.terms.product, OrderTypeToString(o.terms.orderType), show(o.terms.price), show(o.amount)]
  }

  function LineOf(o: Order, show: Shower): string { Join(Fields(o, show), COMMA) }

  function Written(orders: seq<Order>, show: Shower): string {
    if orders == [] then [] else LineOf(orders[0], show) + [NEWLINE] + Written(orders[1..], show)
  }

  lemma {:induction false} JoinOfFive(a: string, b: string, c: string, d: string, e: string, sep: char)
    ensures Join([a, b, c, d, e], sep) == a + [sep] + b + [sep] + c + [sep] + d + [sep] + e
  {
    assert [a, b, c, d, e][1..] == [b, c, d, e];
    assert [b, c, d, e][1..] == [c, d, e];
    assert [c, d, e][1..] == [d, e];
    assert [d, e][1..] == [e];
    assert Join([d, e], sep) == d + [sep] + e;
    assert Join([c, d, e], sep) == c + [sep] + (d + [sep] + e);
    assert Join([b, c, d, e], sep) == b + [sep] + (c + [sep] + (d + [sep] + e));
  }

  /** entriesToCSV. */
  method EntriesToCsv(file: string, orders: seq<Order>, append: bool, show: Shower) returns (text: string)
    ensures text == (if append then file else "") + Written(orders, show)
  {
    text := if append then file else "";
    ghost var start := text;
    var k := 0;
    while k < |orders|
      invariant 0 <= k <= |orders|
      invariant start + Written(orders, show) == text + Written(orders[k..], show)
    {
      var o := orders[k];
      var line := o.terms.timestamp + [COMMA] + o.terms.product + [COMMA]
                + OrderTypeToString(o.terms.orderType) + [COMMA] + show(o.terms.price) + [COMMA] + show(o.amount);
      JoinOfFive(o.terms.timestamp, o.terms.product, OrderTypeToString(o.terms.orderType),
                 show(o.terms.price), show(o.amount), COMMA);
      assert line == LineOf(o, show);
      WrittenStep(text, line, orders, k, show);
      text := text + line + [NEWLINE];
      k := k + 1;
    }
    assert orders[k..] == [];
    assert text + [] == text;
  }

  lemma {:induction false} WrittenStep(text: string, line: string, orders: seq<Order>, k: nat, show: Shower)
    requires k < |orders| && line == LineOf(orders[k], show)
    ensures text + Written(orders[k..], show) == text + line + [NEWLINE] + Written(orders[k + 1..], show)
  {
    assert orders[k..][1..] == orders[k + 1..];
    var rest := Written(orders[k + 1..], show);
    assert text + (line + [NEWLINE] + rest) == text + line + [NEWLINE] + rest;
  }
}
