/** CSVHandler::extractTokens: the tokenizer behind CSV lines and BASE/QUOTE product names. */
module Tokenizer {
  import opened Sequences

  /** Length of the longest prefix without the separator. */
  function FieldLength(s: string, sep: char): (n: nat)
    ensures n <= |s|
    ensures forall k | 0 <= k < n :: s[k] != sep
    ensures n < |s| ==> s[n] == sep
  {
    if s == [] || s[0] == sep then 0 else 1 + FieldLength(s[1..], sep)
  }

  function SkipLeading(s: string, sep: char): string {
    if s != [] && s[0] == sep then SkipLeading(s[1..], sep) else s
  }

  /** The tokens from a position onwards: fields up to the first empty one. */
  function FieldsFrom(s: string, sep: char): seq<string> {
    var n := FieldLength(s, sep);
    if n == 0 then []
    else if n == |s| then [s]
    else [s[..n]] + FieldsFrom(s[n + 1..], sep)
  }

  function ExtractTokens(line: string, sep: char): seq<string> {
    FieldsFrom(SkipLeading(line, sep), sep)
  }

  // ---- the loop ----

  /** find_first_not_of from the start; -1 is npos in a signed int. */
  method FindFirstNotOf(s: string, sep: char) returns (i: int)
    ensures i == -1 ==> SkipLeading(s, sep) == []
    ensures i != -1 ==> 0 <= i < |s| && s[i..] == SkipLeading(s, sep)
  {
    i := 0;
    assert s[0..] == s;
    while i < |s| && s[i] == sep
      invariant 0 <= i <= |s|
      invariant SkipLeading(s[i..], sep) == SkipLeading(s, sep)
    {
      assert s[i..][1..] == s[i + 1..];
      i := i + 1;
    }
    if i == |s| {
      assert s[i..] == [];
      i := -1;
    }
  }

  /** Where find_first_of stops. */
  ghost predicate StopsAt(line: string, sep: char, start: int, end: int)
    requires -1 <= start <= |line|
  {
    if start == -1 then end == -1
    else
      var n := FieldLength(line[start..], sep);
      end == if start + n < |line| then start + n else -1
  }

  /** find_first_of from a position; -1 is npos on the way in and on the way out. */
  method FindFirstOf(s: string, sep: char, start: int) returns (i: int)
    requires -1 <= start <= |s|
    ensures StopsAt(s, sep, start, i)
  {
    if start == -1 {
      return -1;
    }
    i := start;
    while i < |s| && s[i] != sep
      invariant start <= i <= |s|
      invariant FieldLength(s[start..], sep) == i - start + FieldLength(s[i..], sep)
    {
      assert s[i..][1..] == s[i + 1..];
      i := i + 1;
    }
    if i == |s| {
      i := -1;
    }
  }

  ghost function TokensAt(line: string, sep: char, start: int): seq<string>
    requires -1 <= start <= |line|
  {
    if start == -1 then [] else FieldsFrom(line[start..], sep)
  }

  lemma {:induction false} NoField(line: string, sep: char, start: int, end: int)
    requires -1 <= start <= |line| && StopsAt(line, sep, start, end)
    requires start == |line| || start == end
    ensures TokensAt(line, sep, start) == []
  {
  }

  lemma {:induction false} LastField(line: string, sep: char, start: int, end: int)
    requires -1 <= start < |line| && StopsAt(line, sep, start, end) && start != end && end < 0
    ensures 0 <= start && TokensAt(line, sep, start) == [line[start..]]
  {
  }

  lemma {:induction false} NextField(line: string, sep: char, start: int, end: int)
    requires -1 <= start < |line| && StopsAt(line, sep, start, end) && start != end && end >= 0
    ensures 0 <= start < end < |line|
    ensures TokensAt(line, sep, start) == [line[start..end]] + TokensAt(line, sep, end + 1)
  {
    var rest := line[start..];
    assert rest[..end - start] == line[start..end];
    assert rest[end - start + 1..] == line[end + 1..];
  }

  /** extractTokens, as the loop it is. */
  method Tokenize(line: string, sep: char) returns (tokens: seq<string>)
    ensures tokens == ExtractTokens(line, sep)
  {
    tokens := [];
    var start := FindFirstNotOf(line, sep);
    ghost var rest := TokensAt(line, sep, start);
    ghost var whole := rest;
    while true
      invariant -1 <= start <= |line|
      invariant rest == TokensAt(line, sep, start) && whole == tokens + rest
      decreases |line| - start
    {
      var end := FindFirstOf(line, sep, start);
      if start == |line| || start == end {
        NoField(line, sep, start, end);
        break;
      }
      if end >= 0 {
        NextField(line, sep, start, end);
        rest := TokensAt(line, sep, end + 1);
        Regroup(tokens, line[start..end], rest);
        tokens := tokens + [line[start..end]];
        start := end + 1;
      } else {
        LastField(line, sep, start, end);
        tokens := tokens + [line[start..]];
        break;
      }
    }
    assert tokens == whole;
  }

  // ---- what it means ----

  /** All fields of a string, empty ones included. */
  function Split(s: string, sep: char): (fields: seq<string>)
    ensures fields != []
  {
    var n := FieldLength(s, sep);
    if n == |s| then [s] else [s[..n]] + Split(s[n + 1..], sep)
  }

  function Join(fields: seq<string>, sep: char): string {
    if fields == [] then []
    else if |fields| == 1 then fields[0]
    else fields[0] + [sep] + Join(fields[1..], sep)
  }

  /** A field that survives joining and splitting. */
  ghost predicate Clean(field: string, sep: char) { field != [] && sep !in field }

  lemma {:induction false} LengthOfField(field: string, rest: string, sep: char)
    requires sep !in field && (rest == [] || rest[0] == sep)
    ensures FieldLength(field + rest, sep) == |field|
  {
    if field == [] {
      assert field + rest == rest;
    } else {
      assert (field + rest)[1..] == field[1..] + rest;
      assert field[0] in field;
      LengthOfField(field[1..], rest, sep);
    }
  }

  /** Splitting takes a string apart, and joining puts it together again. */
  lemma {:induction false} JoinOfSplit(s: string, sep: char)
    ensures Join(Split(s, sep), sep) == s
    ensures forall f | f in Split(s, sep) :: sep !in f
    decreases |s|
  {
    var n := FieldLength(s, sep);
    if n < |s| {
      JoinOfSplit(s[n + 1..], sep);
      assert Split(s, sep)[1..] == Split(s[n + 1..], sep);
      assert s == s[..n] + [sep] + s[n + 1..];
    }
  }

  function DropEmpty(fields: seq<string>): seq<string> {
    if fields != [] && fields[0] == [] then DropEmpty(fields[1..]) else fields
  }

  function TakeFull(fields: seq<string>): seq<string> {
    if fields == [] || fields[0] == [] then [] else [fields[0]] + TakeFull(fields[1..])
  }

  lemma {:induction false} FieldsAreFull(s: string, sep: char)
    ensures FieldsFrom(s, sep) == TakeFull(Split(s, sep))
    decreases |s|
  {
    var n := FieldLength(s, sep);
    if n == |s| {
      assert [s][1..] == [];
    } else if n > 0 {
      FieldsAreFull(s[n + 1..], sep);
      assert ([s[..n]] + Split(s[n + 1..], sep))[1..] == Split(s[n + 1..], sep);
    }
  }

  lemma {:induction false} SkippingIsDropping(s: string, sep: char)
    ensures TakeFull(Split(SkipLeading(s, sep), sep)) == TakeFull(DropEmpty(Split(s, sep)))
  {
    if s != [] && s[0] == sep {
      assert s[0 + 1..] == s[1..];
      assert Split(s, sep)[1..] == Split(s[1..], sep);
      SkippingIsDropping(s[1..], sep);
    } else if s == [] {
      assert Split(s, sep) == [[]];
    }
  }

  /** On every string the tokens are the longest run of non-empty fields behind the empty ones it
      starts with, where the fields are what the separator cuts the string into. */
  lemma {:induction false} TokensAreFirstRun(line: string, sep: char)
    ensures ExtractTokens(line, sep) == TakeFull(DropEmpty(Split(line, sep)))
    ensures Join(Split(line, sep), sep) == line && forall f | f in Split(line, sep) :: sep !in f
  {
    JoinOfSplit(line, sep);
    FieldsAreFull(SkipLeading(line, sep), sep);
    SkippingIsDropping(line, sep);
  }

  lemma {:induction false} TokensAreClean(s: string, sep: char)
    ensures forall f | f in FieldsFrom(s, sep) :: Clean(f, sep)
    decreases |s|
  {
    var n := FieldLength(s, sep);
    if 0 < n < |s| {
      TokensAreClean(s[n + 1..], sep);
    }
  }

  lemma {:induction false} FieldsOfJoin(fields: seq<string>, sep: char)
    requires fields != [] && forall f | f in fields :: Clean(f, sep)
    ensures FieldsFrom(Join(fields, sep), sep) == fields
  {
    assert fields[0] in fields;
    var first := fields[0];
    if |fields| == 1 {
      LengthOfField(first, [], sep);
      assert first + [] == first;
    } else {
      var rest := [sep] + Join(fields[1..], sep);
      LengthOfField(first, rest, sep);
      assert Join(fields, sep) == first + rest;
      assert (first + rest)[..|first|] == first;
      assert (first + rest)[|first| + 1..] == Join(fields[1..], sep);
      FieldsOfJoin(fields[1..], sep);
    }
  }

  /** Extracting tokens undoes joining exactly for clean fields. */
  lemma {:induction false} TokensUndoJoin(fields: seq<string>, sep: char)
    ensures ExtractTokens(Join(fields, sep), sep) == fields <==> forall f | f in fields :: Clean(f, sep)
  {
    TokensAreClean(SkipLeading(Join(fields, sep), sep), sep);
    if fields != [] && forall f | f in fields :: Clean(f, sep) {
      assert fields[0] in fields && fields[0][0] in fields[0];
      assert Join(fields, sep)[0] == fields[0][0];
      FieldsOfJoin(fields, sep);
    }
  }
}
