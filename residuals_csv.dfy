/**
 * The residuals import's CSV reader (src/app/api/residuals/route.ts): a character-level state
 * machine that splits each line into trimmed fields, honouring double-quoted sections and
 * doubled-quote escapes, plus the header lookup and the two up-front rejections of an upload.
 */
module ResidualsCsv {
  import opened Wrappers

  // ---------------------------------------------------------------------------
  // String primitives of the JavaScript runtime
  // ---------------------------------------------------------------------------

  /** The characters JavaScript's `String.prototype.trim` removes: the white-space and
      line-terminator code points of ECMAScript (section 12.2 and 12.3 of ECMA-262). */
  predicate IsJsWhitespace(c: char)
  {
    || c == '\t' || c == '\n' || c == '\U{B}' || c == '\U{C}' || c == '\r' || c == ' '
    || c == '\U{A0}' || c == '\U{1680}' || ('\U{2000}' <= c <= '\U{200A}')
    || c == '\U{2028}' || c == '\U{2029}' || c == '\U{202F}' || c == '\U{205F}'
    || c == '\U{3000}' || c == '\U{FEFF}'
  }

  /** No white space at either end. */
  predicate IsTrimmed(s: string)
  {
    s == [] || (!IsJsWhitespace(s[0]) && !IsJsWhitespace(s[|s| - 1]))
  }

  predicate AllWhitespace(s: string)
  {
    forall i :: 0 <= i < |s| ==> IsJsWhitespace(s[i])
  }

  /** Leading white space removed. */
  function TrimStart(s: string): (r: string)
    ensures |r| <= |s|
  {
    if s != [] && IsJsWhitespace(s[0]) then TrimStart(s[1..]) else s
  }

  /** Trailing white space removed. */
  function TrimEnd(s: string): (r: string)
    ensures |r| <= |s|
  {
    if s != [] && IsJsWhitespace(s[|s| - 1]) then TrimEnd(s[..|s| - 1]) else s
  }

  /** `TrimStart` keeps a suffix, drops only white space, and stops at a non-blank character. */
  lemma {:induction false} TrimStartFacts(s: string)
    ensures TrimStart(s) == s[|s| - |TrimStart(s)|..]
    ensures AllWhitespace(s[..|s| - |TrimStart(s)|])
    ensures TrimStart(s) != [] ==> !IsJsWhitespace(TrimStart(s)[0])
    decreases |s|
  {
    if s != [] && IsJsWhitespace(s[0]) {
      TrimStartFacts(s[1..]);
      var r := TrimStart(s[1..]);
      assert s[1..][|s| - 1 - |r|..] == s[|s| - |r|..];
      forall m | 0 <= m < |s| - |r| ensures IsJsWhitespace(s[m]) {
        if m > 0 { assert s[m] == s[1..][..|s| - 1 - |r|][m - 1]; }
      }
    }
  }

  /** `TrimEnd` keeps a prefix, drops only white space, and stops at a non-blank character. */
  lemma {:induction false} TrimEndFacts(s: string)
    ensures TrimEnd(s) == s[..|TrimEnd(s)|]
    ensures AllWhitespace(s[|TrimEnd(s)|..])
    ensures TrimEnd(s) != [] ==> !IsJsWhitespace(TrimEnd(s)[|TrimEnd(s)| - 1])
    decreases |s|
  {
    if s != [] && IsJsWhitespace(s[|s| - 1]) {
      var s' := s[..|s| - 1];
      TrimEndFacts(s');
      var r := TrimEnd(s');
      assert s'[..|r|] == s[..|r|];
      forall m | |r| <= m < |s| ensures IsJsWhitespace(s[m]) {
        if m < |s| - 1 { assert s[m] == s'[|r|..][m - |r|]; }
      }
    }
  }

  /** `trim`: leading and trailing white space removed. */
  function Trim(s: string): (r: string)
    ensures |r| <= |s|
  {
    TrimEnd(TrimStart(s))
  }

  /** `Trim` leaves no white space at either end. */
  lemma TrimIsTrimmed(s: string)
    ensures IsTrimmed(Trim(s))
  {
    TrimStartFacts(s);
    TrimEndFacts(TrimStart(s));
    var t := TrimStart(s);
    var r := TrimEnd(t);
    if r != [] {
      assert r[0] == t[0];
    }
  }

  /** What `Trim` removes is white space at the two ends, and what it keeps is a contiguous
      middle part of the string. */
  lemma TrimKeepsMiddle(s: string)
    ensures var r := Trim(s); exists k :: 0 <= k <= |s| - |r| && s[k..k + |r|] == r && AllWhitespace(s[..k]) && AllWhitespace(s[k + |r|..])
  {
    TrimStartFacts(s);
    var t := TrimStart(s);
    TrimEndFacts(t);
    var k := |s| - |t|;
    var r := TrimEnd(t);
    assert s[k..k + |r|] == r;
    assert s[k + |r|..] == t[|r|..];
  }

  /** A string that is all white space trims to nothing. */
  lemma {:induction false} TrimStartOfBlank(s: string)
    requires AllWhitespace(s)
    ensures TrimStart(s) == []
    decreases |s|
  {
    if s != [] {
      assert IsJsWhitespace(s[0]);
      assert forall i :: 0 <= i < |s[1..]| ==> s[1..][i] == s[i + 1];
      TrimStartOfBlank(s[1..]);
    }
  }

  /** A string is blank for `!line.trim()` exactly when it is all white space. */
  lemma TrimEmptyIffBlank(s: string)
    ensures Trim(s) == [] <==> AllWhitespace(s)
  {
    if Trim(s) == [] {
      TrimKeepsMiddle(s);
      var k :| 0 <= k <= |s| && AllWhitespace(s[..k]) && AllWhitespace(s[k..]);
      forall i | 0 <= i < |s| ensures IsJsWhitespace(s[i]) {
        if i < k { assert s[i] == s[..k][i]; } else { assert s[i] == s[k..][i - k]; }
      }
    }
    if AllWhitespace(s) {
      TrimStartOfBlank(s);
    }
  }

  /** Trimming a trimmed string changes nothing. */
  lemma TrimOfTrimmed(s: string)
    requires IsTrimmed(s)
    ensures Trim(s) == s
  {
    assert TrimStart(s) == s;
  }

  /** `s.split(sep)` for a one-character separator. */
  function SplitOn(s: string, sep: char): (pieces: seq<string>)
    ensures |pieces| >= 1
    decreases |s|
  {
    if s == [] then [[]]
    else
      var rest := SplitOn(s[1..], sep);
      if s[0] == sep then [[]] + rest else [[s[0]] + rest[0]] + rest[1..]
  }

  /** The pieces joined back with the separator. */
  function Join(pieces: seq<string>, sep: char): string
    requires |pieces| >= 1
  {
    if |pieces| == 1 then pieces[0] else pieces[0] + [sep] + Join(pieces[1..], sep)
  }

  function Occurrences(s: string, c: char): nat
  {
    if s == [] then 0 else (if s[0] == c then 1 else 0) + Occurrences(s[1..], c)
  }

  /** Splitting is undone by joining, gives one more piece than there are separators, and
      leaves no separator in any piece. */
  lemma SplitOnJoin(s: string, sep: char)
    ensures Join(SplitOn(s, sep), sep) == s
    ensures |SplitOn(s, sep)| == Occurrences(s, sep) + 1
    ensures forall i :: 0 <= i < |SplitOn(s, sep)| ==> sep !in SplitOn(s, sep)[i]
  {
    SplitOnRoundTrip(s, sep);
    SplitOnCount(s, sep);
    SplitOnPiecesFree(s, sep);
  }

  /** Joining the pieces with the separator gives back the split string. */
  lemma {:induction false} SplitOnRoundTrip(s: string, sep: char)
    ensures Join(SplitOn(s, sep), sep) == s
    decreases |s|
  {
    if s != [] {
      SplitOnRoundTrip(s[1..], sep);
      var rest := SplitOn(s[1..], sep);
      var pieces := SplitOn(s, sep);
      assert s == [s[0]] + s[1..];
      if s[0] == sep {
        assert pieces[1..] == rest;
        assert Join(pieces, sep) == [] + [sep] + Join(rest, sep);
      } else if |rest| == 1 {
        assert Join(pieces, sep) == [s[0]] + rest[0];
      } else {
        assert pieces[1..] == rest[1..];
        assert Join(pieces, sep) == [s[0]] + rest[0] + [sep] + Join(rest[1..], sep);
      }
    }
  }

  /** There is one more piece than there are separators. */
  lemma {:induction false} SplitOnCount(s: string, sep: char)
    ensures |SplitOn(s, sep)| == Occurrences(s, sep) + 1
    decreases |s|
  {
    if s != [] {
      SplitOnCount(s[1..], sep);
    }
  }

  /** No piece holds the separator. */
  lemma {:induction false} SplitOnPiecesFree(s: string, sep: char)
    ensures forall i :: 0 <= i < |SplitOn(s, sep)| ==> sep !in SplitOn(s, sep)[i]
    decreases |s|
  {
    if s != [] {
      SplitOnPiecesFree(s[1..], sep);
      var rest := SplitOn(s[1..], sep);
      var pieces := SplitOn(s, sep);
      if s[0] != sep {
        forall i | 0 <= i < |pieces| ensures sep !in pieces[i] {
          if i == 0 {
            assert sep !in rest[0];
          } else {
            assert pieces[i] == rest[i];
          }
        }
      }
    }
  }

  /** One trailing carriage return removed. */
  function DropCarriageReturn(s: string): string
  {
    if s != [] && s[|s| - 1] == '\r' then s[..|s| - 1] else s
  }

  /** `text.split(/\r?\n/)`: split at each line feed and drop the carriage return just before it. */
  function SplitLines(text: string): (lines: seq<string>)
    ensures |lines| == Occurrences(text, '\n') + 1
    ensures forall i :: 0 <= i < |lines| ==> '\n' !in lines[i]
  {
    var pieces := SplitOn(text, '\n');
    SplitOnJoin(text, '\n');
    seq(|pieces|, i requires 0 <= i < |pieces| =>
      if i < |pieces| - 1 then DropCarriageReturn(pieces[i]) else pieces[i])
  }

  // ---------------------------------------------------------------------------
  // The line state machine
  // ---------------------------------------------------------------------------

  /** The rest of the scan of `line` from position `i`, with the fields found so far in `row`,
      the field being built in `current` and the quote state in `inQuotes`. */
  function ScanFrom(line: string, i: nat, row: seq<string>, current: string, inQuotes: bool): seq<string>
    requires i <= |line|
    decreases |line| - i
  {
    if i == |line| then row + [Trim(current)]
    else
      var c := line[i];
      if inQuotes then
        if c == '"' then
          if i + 1 < |line| && line[i + 1] == '"' then ScanFrom(line, i + 2, row, current + ['"'], true)
          else ScanFrom(line, i + 1, row, current, false)
        else ScanFrom(line, i + 1, row, current + [c], true)
      else if c == '"' then ScanFrom(line, i + 1, row, current, true)
      else if c == ',' then ScanFrom(line, i + 1, row + [Trim(current)], [], false)
      else ScanFrom(line, i + 1, row, current + [c], false)
  }

  /** The fields of one line; every line starts outside quotes. */
  function ParseLine(line: string): seq<string>
  {
    ScanFrom(line, 0, [], [], false)
  }

  /** The rows of a sequence of lines: one row per non-blank line, in order. */
  function CsvRows(lines: seq<string>): seq<seq<string>>
  {
    if lines == [] then []
    else
      var last := lines[|lines| - 1];
      CsvRows(lines[..|lines| - 1]) + (if Trim(last) == [] then [] else [ParseLine(last)])
  }

  /** `parseCSV` as a value. */
  function ParseCsvText(text: string): seq<seq<string>>
  {
    CsvRows(SplitLines(text))
  }

  /** `parseCSV` as the source writes it: a loop over lines, and inside it a loop over the
      characters of the line that skips the second quote of an escaped pair. */
  method ParseCsv(text: string) returns (rows: seq<seq<string>>)
    ensures rows == ParseCsvText(text)
  {
    rows := [];
    var lines := SplitLines(text);
    for k := 0 to |lines|
      invariant rows == CsvRows(lines[..k])
    {
      var line := lines[k];
      assert lines[..k + 1][..k] == lines[..k];
      if Trim(line) == [] {
        continue;
      }
      var row: seq<string> := [];
      var current: string := [];
      var inQuotes := false;
      var i := 0;
      while i < |line|
        invariant 0 <= i <= |line|
        invariant ScanFrom(line, i, row, current, inQuotes) == ParseLine(line)
        decreases |line| - i
      {
        var c := line[i];
        if inQuotes {
          if c == '"' {
            if i + 1 < |line| && line[i + 1] == '"' {
              current := current + ['"'];
              i := i + 1;
            } else {
              inQuotes := false;
            }
          } else {
            current := current + [c];
          }
        } else {
          if c == '"' {
            inQuotes := true;
          } else if c == ',' {
            row := row + [Trim(current)];
            current := [];
          } else {
            current := current + [c];
          }
        }
        i := i + 1;
      }
      row := row + [Trim(current)];
      rows := rows + [row];
    }
    assert lines[..|lines|] == lines;
  }

  // ---------------------------------------------------------------------------
  // Properties of the reader
  // ---------------------------------------------------------------------------

  lemma {:induction false} CsvRowsAppend(a: seq<string>, b: seq<string>)
    ensures CsvRows(a + b) == CsvRows(a) + CsvRows(b)
    decreases |b|
  {
    if b == [] {
      assert a + b == a;
    } else {
      var b' := b[..|b| - 1];
      assert (a + b)[..|a + b| - 1] == a + b';
      CsvRowsAppend(a, b');
    }
  }

  /** A blank line gives no row; any other line gives exactly one, its fields. */
  lemma CsvRowsOfOneLine(line: string)
    ensures AllWhitespace(line) ==> CsvRows([line]) == []
    ensures !AllWhitespace(line) ==> CsvRows([line]) == [ParseLine(line)]
  {
    TrimEmptyIffBlank(line);
    assert [line][..0] == [];
  }

  /** Scanning never loses a field: the fields found so far are a strict prefix of the result,
      because each scan ends by emitting the field in progress. */
  lemma {:induction false} ScanFromExtendsRow(line: string, i: nat, row: seq<string>, current: string, inQuotes: bool)
    requires i <= |line|
    ensures row < ScanFrom(line, i, row, current, inQuotes)
    decreases |line| - i
  {
    if i < |line| {
      var c := line[i];
      if inQuotes {
        if c == '"' {
          if i + 1 < |line| && line[i + 1] == '"' {
            ScanFromExtendsRow(line, i + 2, row, current + ['"'], true);
          } else {
            ScanFromExtendsRow(line, i + 1, row, current, false);
          }
        } else {
          ScanFromExtendsRow(line, i + 1, row, current + [c], true);
        }
      } else if c == '"' {
        ScanFromExtendsRow(line, i + 1, row, current, true);
      } else if c == ',' {
        ScanFromExtendsRow(line, i + 1, row + [Trim(current)], [], false);
      } else {
        ScanFromExtendsRow(line, i + 1, row, current + [c], false);
      }
    }
  }

  /** Every field emitted is trimmed. */
  lemma {:induction false} ScanFromFieldsTrimmed(line: string, i: nat, row: seq<string>, current: string, inQuotes: bool)
    requires i <= |line|
    requires forall k :: 0 <= k < |row| ==> IsTrimmed(row[k])
    ensures forall k :: 0 <= k < |ScanFrom(line, i, row, current, inQuotes)| ==> IsTrimmed(ScanFrom(line, i, row, current, inQuotes)[k])
    decreases |line| - i
  {
    if i == |line| {
      TrimIsTrimmed(current);
    } else {
      var c := line[i];
      if inQuotes {
        if c == '"' {
          if i + 1 < |line| && line[i + 1] == '"' {
            ScanFromFieldsTrimmed(line, i + 2, row, current + ['"'], true);
          } else {
            ScanFromFieldsTrimmed(line, i + 1, row, current, false);
          }
        } else {
          ScanFromFieldsTrimmed(line, i + 1, row, current + [c], true);
        }
      } else if c == '"' {
        ScanFromFieldsTrimmed(line, i + 1, row, current, true);
      } else if c == ',' {
        TrimIsTrimmed(current);
        ScanFromFieldsTrimmed(line, i + 1, row + [Trim(current)], [], false);
      } else {
        ScanFromFieldsTrimmed(line, i + 1, row, current + [c], false);
      }
    }
  }

  lemma ParseLineFieldsTrimmed(line: string)
    ensures forall k :: 0 <= k < |ParseLine(line)| ==> IsTrimmed(ParseLine(line)[k])
  {
    ScanFromFieldsTrimmed(line, 0, [], [], false);
  }

  /** Every piece trimmed. */
  function TrimAll(pieces: seq<string>): (r: seq<string>)
    ensures |r| == |pieces|
  {
    if pieces == [] then [] else [Trim(pieces[0])] + TrimAll(pieces[1..])
  }

  lemma {:induction false} TrimAllPointwise(pieces: seq<string>)
    ensures forall k :: 0 <= k < |pieces| ==> TrimAll(pieces)[k] == Trim(pieces[k])
  {
    if pieces != [] {
      TrimAllPointwise(pieces[1..]);
      forall k | 0 <= k < |pieces| ensures TrimAll(pieces)[k] == Trim(pieces[k]) {
        if k > 0 { assert pieces[1..][k - 1] == pieces[k]; }
      }
    }
  }

  /** Without quote characters the scan is a plain split at commas, each piece trimmed. */
  lemma {:induction false} ScanFromUnquoted(line: string, i: nat, row: seq<string>, current: string)
    requires i <= |line|
    requires '"' !in line[i..] && ',' !in current
    ensures ScanFrom(line, i, row, current, false) == row + TrimAll(SplitOn(current + line[i..], ','))
    decreases |line| - i
  {
    if i < |line| {
      assert line[i..] == [line[i]] + line[i + 1..];
      assert '"' !in line[i + 1..];
      if line[i] == ',' {
        ScanFromUnquoted(line, i + 1, row + [Trim(current)], []);
        UnquotedComma(line, i, row, current);
      } else {
        ScanFromUnquoted(line, i + 1, row, current + [line[i]]);
        assert current + [line[i]] + line[i + 1..] == current + line[i..];
      }
    } else {
      assert current + line[i..] == current;
      NoCommaSplit(current);
    }
  }

  /** The comma step of `ScanFromUnquoted`: the field in progress is closed. */
  lemma UnquotedComma(line: string, i: nat, row: seq<string>, current: string)
    requires i < |line| && line[i] == ',' && ',' !in current
    requires ScanFrom(line, i + 1, row + [Trim(current)], [], false) == row + [Trim(current)] + TrimAll(SplitOn([] + line[i + 1..], ','))
    ensures ScanFrom(line, i, row, current, false) == row + TrimAll(SplitOn(current + line[i..], ','))
  {
    ScanComma(line, i, row, current);
    assert [] + line[i + 1..] == line[i + 1..];
    SplitAfterComma(row, current, line[i..]);
  }

  lemma ScanComma(line: string, i: nat, row: seq<string>, current: string)
    requires i < |line| && line[i] == ','
    ensures ScanFrom(line, i, row, current, false) == ScanFrom(line, i + 1, row + [Trim(current)], [], false)
  {
  }

  lemma SplitAfterComma(row: seq<string>, current: string, s: string)
    requires s != [] && s[0] == ',' && ',' !in current
    ensures row + [Trim(current)] + TrimAll(SplitOn(s[1..], ',')) == row + TrimAll(SplitOn(current + s, ','))
  {
    var rest := s[1..];
    var fields := SplitOn(rest, ',');
    assert current + s == current + [','] + rest by { assert s == [','] + rest; }
    SplitAtComma(current, rest);
    assert SplitOn(current + s, ',') == [current] + fields;
    TrimAllCons(current, fields);
    assert TrimAll(SplitOn(current + s, ',')) == [Trim(current)] + TrimAll(fields);
    ConcatAssociative(row, [Trim(current)], TrimAll(fields));
  }

  lemma ConcatAssociative<T>(a: seq<T>, b: seq<T>, c: seq<T>)
    ensures a + b + c == a + (b + c)
  {
  }

  lemma TrimAllCons(first: string, pieces: seq<string>)
    ensures TrimAll([first] + pieces) == [Trim(first)] + TrimAll(pieces)
  {
    assert ([first] + pieces)[1..] == pieces;
  }

  lemma SplitAtComma(current: string, rest: string)
    requires ',' !in current
    ensures SplitOn(current + [','] + rest, ',') == [current] + SplitOn(rest, ',')
  {
    SplitPrefix(current, [','] + rest);
    assert current + [','] + rest == current + ([','] + rest);
    assert ([','] + rest)[1..] == rest;
    assert SplitOn([','] + rest, ',')[0] == [];
    assert current + [] == current;
  }

  /** A prefix without the separator joins the first piece. */
  lemma {:induction false} SplitPrefix(prefix: string, rest: string)
    requires ',' !in prefix
    ensures SplitOn(prefix + rest, ',') == [prefix + SplitOn(rest, ',')[0]] + SplitOn(rest, ',')[1..]
    decreases |prefix|
  {
    if prefix != [] {
      SplitPrefix(prefix[1..], rest);
      var p := SplitOn(rest, ',');
      var whole := prefix + rest;
      var tail := SplitOn(prefix[1..] + rest, ',');
      assert whole[1..] == prefix[1..] + rest;
      assert whole != [] && whole[0] == prefix[0] && whole[0] != ',';
      assert SplitOn(whole, ',') == [[whole[0]] + tail[0]] + tail[1..];
      assert tail[0] == prefix[1..] + p[0];
      assert tail[1..] == p[1..];
      assert [prefix[0]] + (prefix[1..] + p[0]) == prefix + p[0];
    } else {
      var p := SplitOn(rest, ',');
      assert prefix + rest == rest;
      assert prefix + p[0] == p[0];
      assert [prefix + p[0]] + p[1..] == p;
    }
  }

  lemma NoCommaSplit(s: string)
    requires ',' !in s
    ensures SplitOn(s, ',') == [s]
  {
    SplitPrefix(s, []);
    assert s + [] == s;
  }

  /** On a line without quote characters, the fields are the comma-separated pieces, each
      trimmed: a line with k commas has k + 1 fields. */
  lemma ParseLineUnquoted(line: string)
    requires '"' !in line
    ensures ParseLine(line) == TrimAll(SplitOn(line, ','))
    ensures |ParseLine(line)| == Occurrences(line, ',') + 1
  {
    assert line[0..] == line;
    ScanFromUnquoted(line, 0, [], []);
    assert [] + line == line;
    SplitOnJoin(line, ',');
  }

  /** A field's text with every quote character doubled, as a CSV writer emits it inside quotes. */
  function Escape(text: string): (r: string)
    ensures '"' !in text ==> r == text
  {
    if text == [] then []
    else (if text[0] == '"' then "\"\"" else [text[0]]) + Escape(text[1..])
  }

  /** One step inside quotes on an ordinary character: it joins the field. */
  lemma ScanQuotedChar(line: string, i: nat, row: seq<string>, current: string)
    requires i < |line| && line[i] != '"'
    ensures ScanFrom(line, i, row, current, true) == ScanFrom(line, i + 1, row, current + [line[i]], true)
  {
  }

  /** One step inside quotes on a doubled quote: one quote joins the field. */
  lemma ScanDoubledQuote(line: string, i: nat, row: seq<string>, current: string)
    requires i + 1 < |line| && line[i] == '"' && line[i + 1] == '"'
    ensures ScanFrom(line, i, row, current, true) == ScanFrom(line, i + 2, row, current + ['"'], true)
  {
  }

  /** A quote that is not doubled closes the quoted section. */
  lemma ScanClosingQuote(line: string, j: nat, row: seq<string>, current: string)
    requires j < |line| && line[j] == '"' && (j + 1 == |line| || line[j + 1] != '"')
    ensures ScanFrom(line, j, row, current, true) == ScanFrom(line, j + 1, row, current, false)
  {
  }

  /** Outside quotes, a quote opens a quoted section. */
  lemma ScanOpeningQuote(line: string, i: nat, row: seq<string>, current: string)
    requires i < |line| && line[i] == '"'
    ensures ScanFrom(line, i, row, current, false) == ScanFrom(line, i + 1, row, current, true)
  {
  }

  /** Outside quotes, an ordinary character joins the field. */
  lemma ScanPlainChar(line: string, i: nat, row: seq<string>, current: string)
    requires i < |line| && line[i] != '"' && line[i] != ','
    ensures ScanFrom(line, i, row, current, false) == ScanFrom(line, i + 1, row, current + [line[i]], false)
  {
  }

  /** Between `i` and `j` the line holds `text` escaped: the character-by-character form of
      `line[i..j] == Escape(text)`. */
  predicate EscapedRunAt(line: string, i: nat, j: nat, text: string)
    decreases |text|
  {
    if text == [] then i == j
    else if text[0] == '"' then i + 1 < j <= |line| && line[i] == '"' && line[i + 1] == '"' && EscapedRunAt(line, i + 2, j, text[1..])
    else i < j <= |line| && line[i] == text[0] && EscapedRunAt(line, i + 1, j, text[1..])
  }

  lemma {:induction false} EscapedRunAtSlice(line: string, i: nat, j: nat, text: string)
    requires i <= j <= |line| && line[i..j] == Escape(text)
    ensures EscapedRunAt(line, i, j, text)
    decreases |text|
  {
    if text == [] {
    } else if text[0] == '"' {
      EscapedQuoteAhead(line, i, j, text);
      EscapedRunAtSlice(line, i + 2, j, text[1..]);
    } else {
      EscapedCharAhead(line, i, j, text);
      EscapedRunAtSlice(line, i + 1, j, text[1..]);
    }
  }

  lemma EscapedQuoteAhead(line: string, i: nat, j: nat, text: string)
    requires i <= j <= |line| && line[i..j] == Escape(text)
    requires text != [] && text[0] == '"'
    ensures i + 1 < j && line[i] == '"' && line[i + 1] == '"'
    ensures line[i + 2..j] == Escape(text[1..])
  {
    assert line[i..j] == "\"\"" + Escape(text[1..]);
    assert line[i] == line[i..j][0] && line[i + 1] == line[i..j][1];
    assert line[i + 2..j] == line[i..j][2..];
  }

  lemma EscapedCharAhead(line: string, i: nat, j: nat, text: string)
    requires i <= j <= |line| && line[i..j] == Escape(text)
    requires text != [] && text[0] != '"'
    ensures i < j && line[i] == text[0]
    ensures line[i + 1..j] == Escape(text[1..])
  {
    assert line[i..j] == [text[0]] + Escape(text[1..]);
    assert line[i] == line[i..j][0];
    assert line[i + 1..j] == line[i..j][1..];
  }

  lemma {:induction false} ScanRunInQuotes(line: string, i: nat, j: nat, row: seq<string>, current: string, text: string)
    requires EscapedRunAt(line, i, j, text) && j < |line| && line[j] == '"'
    ensures ScanFrom(line, i, row, current, true) == ScanFrom(line, j, row, current + text, true)
    decreases |text|
  {
    if text == [] {
      assert current + text == current;
    } else if text[0] == '"' {
      ScanDoubledQuote(line, i, row, current);
      ScanRunInQuotes(line, i + 2, j, row, current + ['"'], text[1..]);
      assert current + ['"'] + text[1..] == current + text;
    } else {
      ScanQuotedChar(line, i, row, current);
      ScanRunInQuotes(line, i + 1, j, row, current + [text[0]], text[1..]);
      assert current + [text[0]] + text[1..] == current + text;
    }
  }

  /** Inside quotes, a run of `text` written escaped and ended by a closing quote (one not
      doubled) adds `text` to the field in progress and leaves the quoted section, wherever the
      run sits in the line: what follows the closing quote is read as usual. */
  lemma ScanEscapedRun(line: string, i: nat, j: nat, row: seq<string>, current: string, text: string)
    requires i <= j < |line|
    requires line[i..j] == Escape(text) && line[j] == '"'
    requires j + 1 == |line| || line[j + 1] != '"'
    ensures ScanFrom(line, i, row, current, true) == ScanFrom(line, j + 1, row, current + text, false)
  {
    EscapedRunAtSlice(line, i, j, text);
    ScanRunInQuotes(line, i, j, row, current, text);
    ScanClosingQuote(line, j, row, current + text);
  }

  /** Outside quotes, a run without quotes or commas joins the field in progress. */
  lemma {:induction false} ScanPlainRun(line: string, i: nat, j: nat, row: seq<string>, current: string)
    requires i <= j <= |line|
    requires '"' !in line[i..j] && ',' !in line[i..j]
    ensures ScanFrom(line, i, row, current, false) == ScanFrom(line, j, row, current + line[i..j], false)
    decreases j - i
  {
    if i == j {
      assert current + line[i..j] == current;
    } else {
      assert line[i] == line[i..j][0];
      assert line[i + 1..j] == line[i..j][1..];
      ScanPlainChar(line, i, row, current);
      ScanPlainRun(line, i + 1, j, row, current + [line[i]]);
      assert current + [line[i]] + line[i + 1..j] == current + line[i..j];
    }
  }

  /** A slice that is a concatenation splits into its two parts. */
  lemma SplitSlice(line: string, i: nat, j: nat, a: string, b: string)
    requires i <= j <= |line| && line[i..j] == a + b
    ensures line[i..i + |a|] == a && line[i + |a|..j] == b
    ensures b != [] ==> line[i + |a|] == b[0]
  {
    assert line[i..i + |a|] == line[i..j][..|a|];
    assert line[i + |a|..j] == line[i..j][|a|..];
    if b != [] {
      assert line[i + |a|] == line[i..j][|a|];
    }
  }

  /** A cell as a CSV writer emits it: plain text, or text in quotes with its quotes doubled. */
  datatype Cell = Plain(text: string) | Quoted(text: string)

  /** Plain text can hold neither a quote nor a comma; quoted text can hold anything. */
  predicate ValidCell(c: Cell)
  {
    c.Plain? ==> '"' !in c.text && ',' !in c.text
  }

  predicate ValidCells(cells: seq<Cell>)
  {
    forall k :: 0 <= k < |cells| ==> ValidCell(cells[k])
  }

  function EncodeCell(c: Cell): string
  {
    match c
    case Plain(t) => t
    case Quoted(t) => ['"'] + Escape(t) + ['"']
  }

  /** The cells written one after another, separated by commas. */
  function EncodeRow(cells: seq<Cell>): string
    requires cells != []
    decreases |cells|
  {
    if |cells| == 1 then EncodeCell(cells[0])
    else EncodeCell(cells[0]) + [','] + EncodeRow(cells[1..])
  }

  function Texts(cells: seq<Cell>): (r: seq<string>)
    ensures |r| == |cells|
    ensures forall k :: 0 <= k < |cells| ==> r[k] == cells[k].text
  {
    if cells == [] then [] else [cells[0].text] + Texts(cells[1..])
  }

  /** Outside quotes, one encoded cell followed by a comma or the end of the line adds the
      cell's text to the field in progress. */
  lemma ScanCell(line: string, i: nat, row: seq<string>, current: string, c: Cell)
    requires ValidCell(c) && i + |EncodeCell(c)| <= |line|
    requires line[i..i + |EncodeCell(c)|] == EncodeCell(c)
    requires i + |EncodeCell(c)| == |line| || line[i + |EncodeCell(c)|] == ','
    ensures ScanFrom(line, i, row, current, false) == ScanFrom(line, i + |EncodeCell(c)|, row, current + c.text, false)
  {
    var k := i + |EncodeCell(c)|;
    if c.Plain? {
      ScanPlainRun(line, i, k, row, current);
    } else {
      var e := Escape(c.text);
      SplitSlice(line, i, k, ['"'], e + ['"']);
      SplitSlice(line, i + 1, k, e, ['"']);
      ScanOpeningQuote(line, i, row, current);
      ScanEscapedRun(line, i + 1, k - 1, row, current, c.text);
    }
  }

  /** Equal tails read alike: the scan from a position depends only on the rest of the line. */
  lemma {:induction false} ScanSuffix(a: string, i: nat, b: string, j: nat, row: seq<string>, current: string, inQuotes: bool)
    requires i <= |a| && j <= |b| && a[i..] == b[j..]
    ensures ScanFrom(a, i, row, current, inQuotes) == ScanFrom(b, j, row, current, inQuotes)
    decreases |a| - i
  {
    if i < |a| {
      TailsAgree(a, i, b, j);
      var c := a[i];
      if i + 1 < |a| {
        TailsAgree(a, i + 1, b, j + 1);
      }
      if inQuotes && c == '"' && i + 1 < |a| && a[i + 1] == '"' {
        ScanSuffix(a, i + 2, b, j + 2, row, current + ['"'], true);
      } else if inQuotes && c == '"' {
        ScanSuffix(a, i + 1, b, j + 1, row, current, false);
      } else if inQuotes {
        ScanSuffix(a, i + 1, b, j + 1, row, current + [c], true);
      } else if c == '"' {
        ScanSuffix(a, i + 1, b, j + 1, row, current, true);
      } else if c == ',' {
        ScanSuffix(a, i + 1, b, j + 1, row + [Trim(current)], [], false);
      } else {
        ScanSuffix(a, i + 1, b, j + 1, row, current + [c], false);
      }
    }
  }

  lemma TailsAgree(a: string, i: nat, b: string, j: nat)
    requires i < |a| && j <= |b| && a[i..] == b[j..]
    ensures j < |b| && a[i] == b[j] && a[i + 1..] == b[j + 1..]
  {
    assert a[i] == a[i..][0];
    assert a[i + 1..] == a[i..][1..];
    assert b[j + 1..] == b[j..][1..];
  }

  lemma ValidCellsTail(cells: seq<Cell>)
    requires cells != [] && ValidCells(cells)
    ensures ValidCell(cells[0]) && ValidCells(cells[1..])
  {
    forall m | 0 <= m < |cells[1..]| ensures ValidCell(cells[1..][m]) {
      assert cells[1..][m] == cells[m + 1];
    }
  }

  lemma TrimAllTexts(cells: seq<Cell>)
    requires cells != []
    ensures TrimAll(Texts(cells)) == [Trim(cells[0].text)] + TrimAll(Texts(cells[1..]))
  {
    assert Texts(cells) == [cells[0].text] + Texts(cells[1..]);
    TrimAllCons(cells[0].text, Texts(cells[1..]));
  }

  /** A lone cell reads as one field: its trimmed text. */
  lemma ScanLastCell(row: seq<string>, c: Cell)
    requires ValidCell(c)
    ensures ScanFrom(EncodeCell(c), 0, row, [], false) == row + [Trim(c.text)]
  {
    var line := EncodeCell(c);
    assert line[0..|line|] == line;
    ScanCell(line, 0, row, [], c);
    assert [] + c.text == c.text;
  }

  /** A cell and a comma make one finished field; the scan goes on at the start of the rest. */
  lemma ScanFirstCell(row: seq<string>, c: Cell, rest: string)
    requires ValidCell(c)
    ensures ScanFrom(EncodeCell(c) + [','] + rest, 0, row, [], false)
         == ScanFrom(rest, 0, row + [Trim(c.text)], [], false)
  {
    var e := EncodeCell(c);
    var line := e + [','] + rest;
    assert line[0..|e|] == e;
    assert line[|e|] == ',';
    ScanCell(line, 0, row, [], c);
    assert [] + c.text == c.text;
    ScanComma(line, |e|, row, c.text);
    assert line[|e| + 1..] == rest[0..];
    ScanSuffix(line, |e| + 1, rest, 0, row + [Trim(c.text)], [], false);
  }

  /** Reading an encoded row from its start appends the cells' trimmed texts. */
  lemma {:induction false} ScanRow(row: seq<string>, cells: seq<Cell>)
    requires cells != [] && ValidCells(cells)
    ensures ScanFrom(EncodeRow(cells), 0, row, [], false) == row + TrimAll(Texts(cells))
    decreases |cells|
  {
    ValidCellsTail(cells);
    TrimAllTexts(cells);
    var t := Trim(cells[0].text);
    if |cells| == 1 {
      ScanLastCell(row, cells[0]);
      assert TrimAll(Texts(cells[1..])) == [];
    } else {
      ScanFirstCell(row, cells[0], EncodeRow(cells[1..]));
      ScanRow(row + [t], cells[1..]);
      ConcatAssociative(row, [t], TrimAll(Texts(cells[1..])));
    }
  }

  /** A row written as plain and quoted cells reads back as the cells' trimmed texts, one field
      per cell: commas inside quotes stay in their field and each doubled quote becomes one. */
  lemma EncodedRowRoundTrip(cells: seq<Cell>)
    requires cells != [] && ValidCells(cells)
    ensures ParseLine(EncodeRow(cells)) == TrimAll(Texts(cells))
    ensures |ParseLine(EncodeRow(cells))| == |cells|
    ensures forall k :: 0 <= k < |cells| ==> ParseLine(EncodeRow(cells))[k] == Trim(cells[k].text)
  {
    ScanRow([], cells);
    assert [] + TrimAll(Texts(cells)) == TrimAll(Texts(cells));
    TrimAllPointwise(Texts(cells));
  }

  /** A field written in quotes with its quotes doubled reads back as its trimmed text,
      whatever position it takes among the other cells of the row. */
  lemma QuotedFieldRoundTrip(cells: seq<Cell>, k: nat, text: string)
    requires ValidCells(cells) && k < |cells| && cells[k] == Quoted(text)
    ensures |ParseLine(EncodeRow(cells))| == |cells|
    ensures ParseLine(EncodeRow(cells))[k] == Trim(text)
  {
    EncodedRowRoundTrip(cells);
  }

  lemma EncodeThree(x: string, c: Cell, y: string)
    ensures EncodeRow([Plain(x), c, Plain(y)]) == x + ([','] + (EncodeCell(c) + ([','] + y)))
  {
    var cells := [Plain(x), c, Plain(y)];
    assert cells[1..][1..] == cells[2..] == [Plain(y)];
    assert EncodeRow(cells[1..]) == EncodeCell(c) + ([','] + y);
  }

  /** Three cells, plain around quoted, read back as three trimmed fields. */
  lemma ThreeCellRow(x: string, text: string, y: string)
    requires '"' !in x && ',' !in x && '"' !in y && ',' !in y
    ensures ParseLine(x + ([','] + (['"'] + Escape(text) + ['"'] + ([','] + y)))) == [Trim(x), Trim(text), Trim(y)]
  {
    var cells := [Plain(x), Quoted(text), Plain(y)];
    assert ValidCells(cells) by {
      assert ValidCell(cells[0]) && ValidCell(cells[1]) && ValidCell(cells[2]);
    }
    EncodeThree(x, Quoted(text), y);
    EncodedRowRoundTrip(cells);
    var fields := ParseLine(EncodeRow(cells));
    assert fields[0] == Trim(x) && fields[1] == Trim(text) && fields[2] == Trim(y);
    assert fields == [Trim(x), Trim(text), Trim(y)];
  }

  /** A quoted field between two plain fields keeps its commas: `x,"a,b",y` has three fields. */
  lemma QuotedFieldKeepsCommas(x: string, text: string, y: string)
    requires '"' !in x && ',' !in x && '"' !in y && ',' !in y && '"' !in text
    ensures ParseLine(x + [','] + ['"'] + text + ['"'] + [','] + y) == [Trim(x), Trim(text), Trim(y)]
  {
    ThreeCellRow(x, text, y);
    assert x + ([','] + (['"'] + text + ['"'] + ([','] + y))) == x + [','] + ['"'] + text + ['"'] + [','] + y;
  }

  /** A doubled quote inside a quoted field between two plain fields yields one literal quote. */
  lemma EscapedQuoteField(x: string, before: string, after: string, y: string)
    requires '"' !in x && ',' !in x && '"' !in y && ',' !in y
    requires '"' !in before && '"' !in after
    ensures ParseLine(x + [','] + ['"'] + before + ['"', '"'] + after + ['"'] + [','] + y)
         == [Trim(x), Trim(before + ['"'] + after), Trim(y)]
  {
    var text := before + ['"'] + after;
    EscapeOfQuotedMiddle(before, after);
    ThreeCellRow(x, text, y);
    var q: string := ['"'];
    var tail := [','] + y;
    assert q + Escape(text) + q == q + before + ['"', '"'] + after + q by {
      ConcatAssociative(q, before, ['"', '"'] + after);
      ConcatAssociative(q + before, ['"', '"'], after);
    }
    assert x + ([','] + (q + before + ['"', '"'] + after + q + tail))
        == x + [','] + q + before + ['"', '"'] + after + q + [','] + y;
  }

  lemma EscapeOfQuotedMiddle(before: string, after: string)
    requires '"' !in before && '"' !in after
    ensures Escape(before + ['"'] + after) == before + (['"', '"'] + after)
  {
    var q: string := ['"'];
    ConcatAssociative(before, q, after);
    EscapeAppend(before, q + after);
    EscapeAppend(q, after);
    assert Escape(q) == ['"', '"'];
  }

  lemma {:induction false} EscapeAppend(a: string, b: string)
    ensures Escape(a + b) == Escape(a) + Escape(b)
  {
    if a != [] {
      assert (a + b)[1..] == a[1..] + b;
      EscapeAppend(a[1..], b);
    } else {
      assert a + b == b;
    }
  }

  /** No two adjacent quote characters from position `i` on. */
  predicate NoDoubledQuote(line: string, i: nat)
  {
    forall k :: i <= k < |line| - 1 ==> !(line[k] == '"' && line[k + 1] == '"')
  }

  predicate NoQuoteIn(fields: seq<string>)
  {
    forall k :: 0 <= k < |fields| ==> '"' !in fields[k]
  }

  /** A quote character reaches a field only through a doubled quote. */
  lemma {:induction false} ScanFromNoQuote(line: string, i: nat, row: seq<string>, current: string, inQuotes: bool)
    requires i <= |line|
    requires NoDoubledQuote(line, i) && NoQuoteIn(row) && '"' !in current
    ensures NoQuoteIn(ScanFrom(line, i, row, current, inQuotes))
    decreases |line| - i
  {
    if i == |line| {
      TrimKeepsOut(current, '"');
      assert NoQuoteIn(row + [Trim(current)]) by {
        var r := row + [Trim(current)];
        forall k | 0 <= k < |r| ensures '"' !in r[k] {
          if k < |row| { assert r[k] == row[k]; }
        }
      }
    } else {
      var c := line[i];
      if inQuotes {
        if c == '"' {
          assert !(i + 1 < |line| && line[i + 1] == '"');
          ScanFromNoQuote(line, i + 1, row, current, false);
        } else {
          ScanFromNoQuote(line, i + 1, row, current + [c], true);
        }
      } else if c == '"' {
        ScanFromNoQuote(line, i + 1, row, current, true);
      } else if c == ',' {
        TrimKeepsOut(current, '"');
        assert NoQuoteIn(row + [Trim(current)]) by {
          var r := row + [Trim(current)];
          forall k | 0 <= k < |r| ensures '"' !in r[k] {
            if k < |row| { assert r[k] == row[k]; }
          }
        }
        ScanFromNoQuote(line, i + 1, row + [Trim(current)], [], false);
      } else {
        ScanFromNoQuote(line, i + 1, row, current + [c], false);
      }
    }
  }

  /** Trimming adds no character. */
  lemma TrimKeepsOut(s: string, c: char)
    requires c !in s
    ensures c !in Trim(s)
  {
    TrimStartFacts(s);
    var t := TrimStart(s);
    TrimEndFacts(t);
    assert forall m :: 0 <= m < |t| ==> t[m] == s[|s| - |t| + m];
    var r := TrimEnd(t);
    assert forall m :: 0 <= m < |r| ==> r[m] == t[m];
  }

  /** Without a doubled quote on the line, no field contains a quote character. */
  lemma ParseLineWithoutDoubledQuote(line: string)
    requires NoDoubledQuote(line, 0)
    ensures NoQuoteIn(ParseLine(line))
  {
    ScanFromNoQuote(line, 0, [], [], false);
  }

  /** Every line that yields a row yields at least one field. */
  lemma ParseLineNonEmpty(line: string)
    ensures |ParseLine(line)| >= 1
  {
    ScanFromExtendsRow(line, 0, [], [], false);
  }

  /** Every field of every row is trimmed. */
  lemma {:induction false} CsvRowsFieldsTrimmed(lines: seq<string>)
    ensures forall r, k :: 0 <= r < |CsvRows(lines)| && 0 <= k < |CsvRows(lines)[r]| ==> IsTrimmed(CsvRows(lines)[r][k])
  {
    if lines != [] {
      var last := lines[|lines| - 1];
      CsvRowsFieldsTrimmed(lines[..|lines| - 1]);
      ParseLineFieldsTrimmed(last);
    }
  }

  // ---------------------------------------------------------------------------
  // Header lookup and the rejections of an upload
  // ---------------------------------------------------------------------------

  /** `toLowerCase` on the ASCII letters. */
  function LowerChar(c: char): char
  {
    if 'A' <= c <= 'Z' then (c as int + 32) as char else c
  }

  /** `toLowerCase` on ASCII: the result has no upper-case letter left, every other character
      is kept where it was, and each upper-case letter becomes the lower-case letter at the
      same place in the alphabet. */
  function ToLower(s: string): (r: string)
    ensures |r| == |s|
    ensures forall i :: 0 <= i < |s| ==> r[i] == LowerChar(s[i])
    ensures forall i :: 0 <= i < |r| ==> !('A' <= r[i] <= 'Z')
    ensures forall i :: 0 <= i < |s| && !('A' <= s[i] <= 'Z') ==> r[i] == s[i]
    ensures forall i :: 0 <= i < |s| && 'A' <= s[i] <= 'Z' ==>
              'a' <= r[i] <= 'z' && r[i] as int - 'a' as int == s[i] as int - 'A' as int
  {
    seq(|s|, i requires 0 <= i < |s| => LowerChar(s[i]))
  }

  /** Lower-casing twice is lower-casing once. */
  lemma ToLowerIdempotent(s: string)
    ensures ToLower(ToLower(s)) == ToLower(s)
  {
    var r := ToLower(s);
    assert forall i :: 0 <= i < |r| ==> ToLower(r)[i] == r[i];
  }

  /** `haystack.includes(needle)`: the needle occurs somewhere in the haystack. */
  predicate Contains(haystack: string, needle: string)
  {
    exists k :: 0 <= k <= |haystack| - |needle| && OccursAt(haystack, needle, k)
  }

  /** The needle occurs in the haystack starting at position `k`. */
  predicate OccursAt(haystack: string, needle: string, k: int)
  {
    0 <= k <= |haystack| - |needle| && haystack[k..k + |needle|] == needle
  }

  /** The header cell matches a column name, ignoring case, when it contains it. */
  predicate ColumnMatches(cell: string, name: string)
  {
    Contains(ToLower(cell), ToLower(name))
  }

  /** `findIndex` from position `from`: the first matching cell at or after it, or -1. */
  function FindColumn(header: seq<string>, name: string, from: nat): (r: int)
    requires from <= |header|
    ensures r == -1 || from <= r < |header|
    decreases |header| - from
  {
    if from == |header| then -1
    else if ColumnMatches(header[from], name) then from
    else FindColumn(header, name, from + 1)
  }

  /** `colIndex(name)`. */
  function ColIndex(header: seq<string>, name: string): int
  {
    FindColumn(header, name, 0)
  }

  /** `FindColumn` returns the first match at or after `from`, and -1 exactly when there is none. */
  lemma {:induction false} FindColumnIsFirstMatch(header: seq<string>, name: string, from: nat)
    requires from <= |header|
    ensures FindColumn(header, name, from) == -1 <==> forall j :: from <= j < |header| ==> !ColumnMatches(header[j], name)
    ensures FindColumn(header, name, from) != -1 ==>
      ColumnMatches(header[FindColumn(header, name, from)], name) &&
      forall j :: from <= j < FindColumn(header, name, from) ==> !ColumnMatches(header[j], name)
    decreases |header| - from
  {
    if from < |header| && !ColumnMatches(header[from], name) {
      FindColumnIsFirstMatch(header, name, from + 1);
    }
  }

  /** `colIndex(name)` is the first header cell whose lower-cased text contains the lower-cased
      name, or -1 if no cell does. */
  lemma ColIndexIsFirstMatch(header: seq<string>, name: string)
    ensures ColIndex(header, name) == -1 <==> forall j :: 0 <= j < |header| ==> !ColumnMatches(header[j], name)
    ensures ColIndex(header, name) != -1 ==>
      0 <= ColIndex(header, name) < |header| &&
      ColumnMatches(header[ColIndex(header, name)], name) &&
      forall j :: 0 <= j < ColIndex(header, name) ==> !ColumnMatches(header[j], name)
  {
    FindColumnIsFirstMatch(header, name, 0);
  }

  /** Matching ignores case: a cell matches a name exactly when it matches its lower-cased form. */
  lemma ColumnMatchIgnoresCase(cell: string, name: string)
    ensures ColumnMatches(cell, name) <==> ColumnMatches(cell, ToLower(name))
  {
    ToLowerIdempotent(name);
  }

  /** The column every import needs. */
  const TITLE_COLUMN := "Production/Episode Title"

  /** Why an upload is refused before any row is read. */
  datatype ImportError = EmptyCsv | MissingTitleColumn

  function ImportErrorMessage(e: ImportError): string
  {
    match e
    case EmptyCsv => "CSV file appears to be empty"
    case MissingTitleColumn => "CSV missing required column: Production/Episode Title"
  }

  /** The checks of an upload's rows: at least a header and one data row, and a title column.
      On success the value is the index of the title column. */
  function CheckImport(rows: seq<seq<string>>): (r: Result<nat, ImportError>)
    ensures r == Err(EmptyCsv) <==> |rows| < 2
    ensures r == Err(MissingTitleColumn) <==>
      |rows| >= 2 && forall j :: 0 <= j < |rows[0]| ==> !ColumnMatches(rows[0][j], TITLE_COLUMN)
    ensures r.Ok? ==>
      |rows| >= 2 && r.value < |rows[0]| && ColumnMatches(rows[0][r.value], TITLE_COLUMN) &&
      forall j :: 0 <= j < r.value ==> !ColumnMatches(rows[0][j], TITLE_COLUMN)
  {
    if |rows| < 2 then Err(EmptyCsv)
    else
      var title := ColIndex(rows[0], TITLE_COLUMN);
      ColIndexIsFirstMatch(rows[0], TITLE_COLUMN);
      if title < 0 then Err(MissingTitleColumn) else Ok(title)
  }

  /** A cell matches its own text. */
  lemma ColumnMatchesItself(name: string)
    ensures ColumnMatches(name, name)
  {
    var l := ToLower(name);
    assert l[0..|l|] == l;
    assert OccursAt(l, l, 0);
  }

  /** An upload whose header has a cell named exactly like the title column, and at least one
      data row, passes both checks, and the title column found is no later than that cell. */
  lemma TitleHeaderAccepted(rows: seq<seq<string>>, j: nat)
    requires |rows| >= 2 && j < |rows[0]| && rows[0][j] == TITLE_COLUMN
    ensures CheckImport(rows).Ok? && CheckImport(rows).value <= j
  {
    ColumnMatchesItself(TITLE_COLUMN);
  }
}

