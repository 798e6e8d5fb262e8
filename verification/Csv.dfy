/** Rows of text: fields escaped and joined to a line, and a line taken apart again. */
module Csv {
  datatype Dialect = Dialect(delimiter: char, quote: char)

  datatype Parsed = Nothing | Row(fields: seq<string>)

  // ---------- Escaping ----------

  predicate NeedsQuotes(d: Dialect, field: string) {
    d.delimiter in field || d.quote in field || '\n' in field || '\r' in field
  }

  function Doubled(q: char, s: string): string {
    if s == [] then []
    else Doubled(q, s[..|s| - 1]) + if s[|s| - 1] == q then [q, q] else [s[|s| - 1]]
  }

  function Escape(d: Dialect, field: string): string {
    if NeedsQuotes(d, field) then [d.quote] + Doubled(d.quote, field) + [d.quote] else field
  }

  predicate Special(d: Dialect, c: char) {
    c == d.delimiter || c == d.quote || c == '\n' || c == '\r'
  }

  /** No delimiter, quote or line break is written outside quotes, and a field without any is written as it is. */
  lemma SpecialOnlyInQuotes(d: Dialect, field: string)
    ensures (exists c | c in Escape(d, field) :: Special(d, c)) ==>
              |Escape(d, field)| >= 2 && Wrapped(d.quote, Escape(d, field))
    ensures (forall c | c in field :: !Special(d, c)) ==> Escape(d, field) == field
  {
    if NeedsQuotes(d, field) {
      assert Special(d, if d.delimiter in field then d.delimiter else if d.quote in field then d.quote
                        else if '\n' in field then '\n' else '\r');
    }
  }

  method EscapeField(d: Dialect, field: string) returns (escaped: string)
    ensures escaped == Escape(d, field)
  {
    if !NeedsQuotes(d, field) {
      return field;
    }
    escaped := [d.quote];
    for i := 0 to |field|
      invariant escaped == [d.quote] + Doubled(d.quote, field[..i])
    {
      assert field[..i + 1][..i] == field[..i];
      if field[i] == d.quote {
        escaped := escaped + [d.quote];
      }
      escaped := escaped + [field[i]];
    }
    assert field[..|field|] == field;
    escaped := escaped + [d.quote];
  }

  function Join(d: Dialect, row: seq<string>): string {
    if row == [] then []
    else if |row| == 1 then Escape(d, row[0])
    else Escape(d, row[0]) + [d.delimiter] + Join(d, row[1..])
  }

  // ---------- Unescaping ----------

  /** A field that the second pass takes for quoted; a lone quote is one. */
  predicate Wrapped(q: char, field: string) {
    field != [] && field[0] == q && field[|field| - 1] == q
  }

  function Undoubled(q: char, s: string): string {
    if |s| < 2 then s
    else if s[0] == q && s[1] == q then [q] + Undoubled(q, s[2..])
    else [s[0]] + Undoubled(q, s[1..])
  }

  function Inner(field: string): string
    requires field != []
  {
    if |field| == 1 then [] else field[1..|field| - 1]
  }

  function Unescape(q: char, field: string): string {
    if Wrapped(q, field) then Undoubled(q, Inner(field)) else field
  }

  predicate PairAt(q: char, s: string, i: nat) {
    i + 1 < |s| && s[i] == q && s[i + 1] == q
  }

  /** The first doubled quote from `pos` on. */
  method FindPair(q: char, s: string, pos: nat) returns (found: bool, at: nat)
    ensures found ==> pos <= at && PairAt(q, s, at) && forall i: nat | pos <= i < at :: !PairAt(q, s, i)
    ensures !found ==> forall i: nat | pos <= i :: !PairAt(q, s, i)
  {
    at := pos;
    while at + 1 < |s|
      invariant pos <= at
      invariant forall i: nat | pos <= i < at :: !PairAt(q, s, i)
    {
      if s[at] == q && s[at + 1] == q {
        return true, at;
      }
      at := at + 1;
    }
    return false, at;
  }

  lemma {:induction false} NoPairBefore(q: char, s: string, at: nat)
    requires at <= |s| && forall i: nat | i < at :: !PairAt(q, s, i)
    ensures Undoubled(q, s) == s[..at] + Undoubled(q, s[at..])
  {
    if at > 0 {
      forall i: nat | i < at - 1
        ensures !PairAt(q, s[1..], i)
      {
        assert !PairAt(q, s, i + 1);
      }
      NoPairBefore(q, s[1..], at - 1);
      assert !PairAt(q, s, 0);
      assert s[1..][at - 1..] == s[at..];
      assert s[..at] == [s[0]] + s[1..][..at - 1];
    }
  }

  lemma NoPairAfter(q: char, s: string, pos: nat, at: nat)
    requires pos <= at <= |s| && forall i: nat | pos <= i < at :: !PairAt(q, s, i)
    ensures s[..pos] + Undoubled(q, s[pos..]) == s[..at] + Undoubled(q, s[at..])
  {
    var rest := s[pos..];
    forall i: nat | i < at - pos
      ensures !PairAt(q, rest, i)
    {
      assert !PairAt(q, s, pos + i);
    }
    NoPairBefore(q, rest, at - pos);
    assert rest[at - pos..] == s[at..];
    assert s[..pos] + rest[..at - pos] == s[..at];
  }

  lemma UndoubledEmpty(q: char)
    ensures Undoubled(q, []) == []
  {
  }

  function Replaced(q: char, s: string, at: nat): string
    requires at + 1 < |s|
  {
    s[..at] + [q] + s[at + 2..]
  }

  lemma PairReplaced(q: char, s: string, pos: nat, at: nat)
    requires pos <= at && PairAt(q, s, at) && forall i: nat | pos <= i < at :: !PairAt(q, s, i)
    ensures var r := Replaced(q, s, at);
            r[..at + 1] + Undoubled(q, r[at + 1..]) == s[..pos] + Undoubled(q, s[pos..])
  {
    NoPairAfter(q, s, pos, at);
    var r := Replaced(q, s, at);
    assert r[..at + 1] == s[..at] + [q] && r[at + 1..] == s[at + 2..];
    assert s[at..][2..] == s[at + 2..];
    assert Undoubled(q, s[at..]) == [q] + Undoubled(q, s[at + 2..]);
  }

  method UnescapeField(q: char, field: string) returns (unescaped: string)
    ensures unescaped == Unescape(q, field)
  {
    hide Undoubled;
    if field == [] || field[0] != q || field[|field| - 1] != q {
      return field;
    }
    unescaped := Inner(field);
    var pos: nat := 0;
    var found, at := FindPair(q, unescaped, pos);
    while found
      invariant pos <= |unescaped|
      invariant unescaped[..pos] + Undoubled(q, unescaped[pos..]) == Undoubled(q, Inner(field))
      invariant found
                ==> pos <= at && PairAt(q, unescaped, at)
                    && forall i: nat | pos <= i < at :: !PairAt(q, unescaped, i)
      invariant !found ==> forall i: nat | pos <= i :: !PairAt(q, unescaped, i)
      decreases |unescaped| - pos, found
    {
      PairReplaced(q, unescaped, pos, at);
      unescaped := Replaced(q, unescaped, at);
      pos := at + 1;
      found, at := FindPair(q, unescaped, pos);
    }
    NoPairAfter(q, unescaped, pos, |unescaped|);
    assert unescaped[..|unescaped|] + Undoubled(q, []) == unescaped by { UndoubledEmpty(q); }
  }

  // ---------- Parsing ----------

  /** What the parser makes of the rest of a line, by its state. */
  function Scan(d: Dialect, line: string, inQuotes: bool, current: string, fields: seq<string>): seq<string>
    decreases |line|
  {
    if line == [] then fields + [Unescape(d.quote, current)]
    else if line[0] == d.quote then
      if inQuotes && 1 < |line| && line[1] == d.quote then Scan(d, line[2..], true, current + [d.quote], fields)
      else Scan(d, line[1..], !inQuotes, current, fields)
    else if line[0] == d.delimiter && !inQuotes then
      Scan(d, line[1..], false, [], fields + [Unescape(d.quote, current)])
    else Scan(d, line[1..], inQuotes, current + [line[0]], fields)
  }

  function Parse(d: Dialect, line: string): Parsed {
    if line == [] then Nothing else Row(Scan(d, line, false, [], []))
  }

  method ParseLineInto(d: Dialect, line: string) returns (ok: bool, fields: seq<string>)
    ensures (if ok then Row(fields) else Nothing) == Parse(d, line)
    ensures !ok ==> fields == []
  {
    fields := [];
    if line == [] {
      return false, fields;
    }
    var current: string, inQuotes := [], false;
    var i := 0;
    while i < |line|
      invariant i <= |line|
      invariant Scan(d, line[i..], inQuotes, current, fields) == Scan(d, line, false, [], [])
    {
      var c := line[i];
      if c == d.quote {
        if inQuotes && i + 1 < |line| && line[i + 1] == d.quote {
          current := current + [d.quote];
          assert line[i..][2..] == line[i + 2..];
          i := i + 1;
        } else {
          inQuotes := !inQuotes;
          assert line[i..][1..] == line[i + 1..];
        }
      } else if c == d.delimiter && !inQuotes {
        var field := UnescapeField(d.quote, current);
        fields := fields + [field];
        current := [];
        assert line[i..][1..] == line[i + 1..];
      } else {
        current := current + [c];
        assert line[i..][1..] == line[i + 1..];
      }
      i := i + 1;
    }
    var field := UnescapeField(d.quote, current);
    fields := fields + [field];
    ok := true;
  }

  // ---------- The round trip ----------

  lemma {:induction false} UndoubledShorter(q: char, s: string)
    ensures |Undoubled(q, s)| <= |s|
  {
    if |s| >= 2 {
      if s[0] == q && s[1] == q {
        UndoubledShorter(q, s[2..]);
      } else {
        UndoubledShorter(q, s[1..]);
      }
    }
  }

  /** Undoubling gives back what was doubled, and leaves alone what has no doubled quote. */
  lemma {:induction false} UndoubledDoubled(q: char, s: string)
    ensures Undoubled(q, Doubled(q, s)) == s
    decreases |s|
  {
    if s != [] {
      var c, rest := s[0], s[1..];
      assert s == [c] + rest;
      DoubledFront(q, c, rest);
      UndoubledDoubled(q, rest);
      if c == q {
        assert ([q, q] + Doubled(q, rest))[2..] == Doubled(q, rest);
      } else if rest == [] {
        assert Doubled(q, rest) == [];
      } else {
        assert ([c] + Doubled(q, rest))[1..] == Doubled(q, rest);
        DoubledLonger(q, rest);
      }
    }
  }

  lemma {:induction false} DoubledLonger(q: char, s: string)
    ensures |Doubled(q, s)| >= |s|
  {
    if s != [] {
      DoubledLonger(q, s[..|s| - 1]);
    }
  }

  lemma UndoubledAlone(q: char, s: string)
    requires forall i: nat :: !PairAt(q, s, i)
    ensures Undoubled(q, s) == s
  {
    NoPairBefore(q, s, |s|);
    UndoubledEmpty(q);
    assert s[|s|..] == [] && s[..|s|] == s;
  }

  lemma UnescapeIsIdentityIff(q: char, field: string)
    ensures Unescape(q, field) == field <==> !Wrapped(q, field)
  {
    if Wrapped(q, field) {
      UndoubledShorter(q, Inner(field));
    }
  }

  lemma {:induction false} DoubledFront(q: char, c: char, s: string)
    ensures Doubled(q, [c] + s) == (if c == q then [q, q] else [c]) + Doubled(q, s)
  {
    var all := [c] + s;
    if s == [] {
      assert all[..0] == [];
    } else {
      assert all[..|all| - 1] == [c] + s[..|s| - 1];
      DoubledFront(q, c, s[..|s| - 1]);
    }
  }

  lemma ScanInside(d: Dialect, c: char, next: string, current: string, fields: seq<string>)
    requires next != []
    ensures Scan(d, (if c == d.quote then [c, c] else [c]) + next, true, current, fields)
            == Scan(d, next, true, current + [c], fields)
  {
    hide Unescape;
    assert ([c, c] + next)[2..] == next && ([c] + next)[1..] == next;
  }

  lemma ScanClosing(d: Dialect, rest: string, current: string, fields: seq<string>)
    requires rest == [] || rest[0] != d.quote
    ensures Scan(d, [d.quote] + rest, true, current, fields) == Scan(d, rest, false, current, fields)
  {
    assert ([d.quote] + rest)[1..] == rest;
  }

  /** Between quotes, the doubled text comes back as it was, and the quote after it closes. */
  lemma {:induction false} ScanQuoted(d: Dialect, text: string, rest: string, current: string, fields: seq<string>)
    requires rest == [] || rest[0] != d.quote
    ensures Scan(d, Doubled(d.quote, text) + [d.quote] + rest, true, current, fields)
            == Scan(d, rest, false, current + text, fields)
    decreases |text|
  {
    hide Unescape, Scan;
    var q := d.quote;
    var line := Doubled(q, text) + [q] + rest;
    if text == [] {
      assert line == [q] + rest && current + text == current;
      ScanClosing(d, rest, current, fields);
    } else {
      var c, tail := text[0], text[1..];
      DoubledFront(q, c, tail);
      assert text == [c] + tail;
      var next := Doubled(q, tail) + [q] + rest;
      assert line == (if c == q then [c, c] else [c]) + next;
      ScanInside(d, c, next, current, fields);
      ScanQuoted(d, tail, rest, current + [c], fields);
      assert current + [c] + tail == current + text;
    }
  }

  lemma {:induction false} ScanPlain(d: Dialect, text: string, rest: string, current: string, fields: seq<string>)
    requires d.quote !in text && d.delimiter !in text
    ensures Scan(d, text + rest, false, current, fields) == Scan(d, rest, false, current + text, fields)
    decreases |text|
  {
    hide Unescape;
    if text == [] {
      assert text + rest == rest && current + text == current;
    } else {
      assert (text + rest)[1..] == text[1..] + rest;
      ScanPlain(d, text[1..], rest, current + [text[0]], fields);
      assert current + [text[0]] + text[1..] == current + text;
    }
  }

  lemma ScanEscaped(d: Dialect, field: string, rest: string, fields: seq<string>)
    requires rest == [] || rest[0] != d.quote
    ensures Scan(d, Escape(d, field) + rest, false, [], fields) == Scan(d, rest, false, field, fields)
  {
    hide Unescape;
    assert [] + field == field;
    if NeedsQuotes(d, field) {
      var line := Escape(d, field) + rest;
      assert line[1..] == Doubled(d.quote, field) + [d.quote] + rest;
      assert line[0] == d.quote;
      ScanQuoted(d, field, rest, [], fields);
    } else {
      ScanPlain(d, field, rest, [], fields);
    }
  }

  /** Quotes may stand anywhere in a field: what is between them is taken as it is, delimiters included, and joined to
      what is in front of them and behind. */
  lemma QuotedPart(d: Dialect, plain: string, text: string, rest: string, current: string, fields: seq<string>)
    requires d.quote !in plain && d.delimiter !in plain && (rest == [] || rest[0] != d.quote)
    ensures Scan(d, plain + [d.quote] + Doubled(d.quote, text) + [d.quote] + rest, false, current, fields)
            == Scan(d, rest, false, current + plain + text, fields)
  {
    hide Unescape;
    var inside := Doubled(d.quote, text) + [d.quote] + rest;
    assert plain + [d.quote] + Doubled(d.quote, text) + [d.quote] + rest == plain + ([d.quote] + inside);
    ScanPlain(d, plain, [d.quote] + inside, current, fields);
    assert ([d.quote] + inside)[1..] == inside;
    ScanQuoted(d, text, rest, current + plain, fields);
  }

  lemma {:induction false} ScanUnclosed(d: Dialect, text: string, current: string, fields: seq<string>)
    requires d.quote !in text
    ensures Scan(d, text, true, current, fields) == fields + [Unescape(d.quote, current + text)]
    decreases |text|
  {
    hide Unescape;
    if text == [] {
      assert current + text == current;
    } else {
      ScanUnclosed(d, text[1..], current + [text[0]], fields);
      assert current + [text[0]] + text[1..] == current + text;
    }
  }

  /** A quote that is never closed takes in the rest of the line. */
  lemma UnclosedQuote(d: Dialect, plain: string, text: string)
    requires d.quote !in plain && d.delimiter !in plain && d.quote !in text
    ensures Parse(d, plain + [d.quote] + text) == Row([Unescape(d.quote, plain + text)])
  {
    hide Unescape;
    assert plain + [d.quote] + text == plain + ([d.quote] + text);
    ScanPlain(d, plain, [d.quote] + text, [], []);
    assert ([d.quote] + text)[1..] == text && [] + plain == plain;
    ScanUnclosed(d, text, plain, []);
  }

  function Unescaped(q: char, row: seq<string>): seq<string> {
    if row == [] then [] else [Unescape(q, row[0])] + Unescaped(q, row[1..])
  }

  lemma {:induction false} ScanRow(d: Dialect, row: seq<string>, fields: seq<string>)
    requires row != [] && (|row| == 1 || d.delimiter != d.quote)
    ensures Scan(d, Join(d, row), false, [], fields) == fields + Unescaped(d.quote, row)
    decreases |row|
  {
    hide Unescape, Escape;
    if |row| == 1 {
      ScanEscaped(d, row[0], [], fields);
      assert Escape(d, row[0]) + [] == Escape(d, row[0]);
      assert Unescaped(d.quote, row) == [Unescape(d.quote, row[0])];
    } else {
      var rest := [d.delimiter] + Join(d, row[1..]);
      ScanEscaped(d, row[0], rest, fields);
      assert Join(d, row) == Escape(d, row[0]) + rest;
      assert rest[1..] == Join(d, row[1..]);
      ScanRow(d, row[1..], fields + [Unescape(d.quote, row[0])]);
      assert fields + [Unescape(d.quote, row[0])] + Unescaped(d.quote, row[1..]) == fields + Unescaped(d.quote, row);
    }
  }

  lemma {:induction false} UnescapedIsIdentityIff(q: char, row: seq<string>)
    ensures Unescaped(q, row) == row <==> forall f | f in row :: !Wrapped(q, f)
  {
    if row != [] {
      UnescapeIsIdentityIff(q, row[0]);
      UnescapedIsIdentityIff(q, row[1..]);
      assert Unescaped(q, row) == [Unescape(q, row[0])] + Unescaped(q, row[1..]);
      assert row == [row[0]] + row[1..];
      assert Unescaped(q, row)[1..] == Unescaped(q, row[1..]) && Unescaped(q, row)[0] == Unescape(q, row[0]);
      assert forall f :: f in row <==> f == row[0] || f in row[1..];
    }
  }

  /** Where the delimiter is the quote, a line is never split. */
  lemma {:induction false} NeverSplit(d: Dialect, line: string, inQuotes: bool, current: string, fields: seq<string>)
    requires d.delimiter == d.quote
    ensures |Scan(d, line, inQuotes, current, fields)| == |fields| + 1
    decreases |line|
  {
    hide Unescape;
    if line != [] {
      if line[0] == d.quote && inQuotes && 1 < |line| && line[1] == d.quote {
        NeverSplit(d, line[2..], true, current + [d.quote], fields);
      } else if line[0] == d.quote {
        NeverSplit(d, line[1..], !inQuotes, current, fields);
      } else {
        NeverSplit(d, line[1..], inQuotes, current + [line[0]], fields);
      }
    }
  }

  /** Parsing what was escaped and joined gives the row back exactly when there is a row at all, it is not one
      empty field, no field begins and ends with a quote, and where it has several fields the delimiter is not
      the quote. */
  lemma RoundTripIff(d: Dialect, row: seq<string>)
    ensures Parse(d, Join(d, row)) == Row(row)
            <==> row != [] && row != [""]
                 && (forall f | f in row :: !Wrapped(d.quote, f))
                 && (|row| == 1 || d.delimiter != d.quote)
  {
    hide Scan, Unescape;
    if row != [] && row != [""] {
      assert Join(d, row) != [];
      if |row| == 1 || d.delimiter != d.quote {
        ScanRow(d, row, []);
        assert [] + Unescaped(d.quote, row) == Unescaped(d.quote, row);
        UnescapedIsIdentityIff(d.quote, row);
      } else {
        NeverSplit(d, Join(d, row), false, [], []);
      }
    }
  }
}
