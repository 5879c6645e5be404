/**
 * Comma-separated values as the exporter writes and the importer reads them: a field is
 * quoted when it holds a quote, a comma or a line break, with each inner quote doubled;
 * a line is read character by character, with quotes switching between quoted and plain
 * text. List fields are joined with `|`.
 */
module CsvText {
  import opened JsText

  /** The characters that make `csvEscape` quote a field. */
  predicate NeedsQuotes(text: string) {
    '"' in text || ',' in text || '\n' in text || '\r' in text
  }

  /** `csvEscape(value)`. */
  function CsvEscape(text: string): string {
    if !NeedsQuotes(text) then text else "\"" + ReplaceAll(text, "\"", "\"\"") + "\""
  }

  /** Each field escaped, in order. */
  function EscapeFields(fields: seq<string>): (r: seq<string>)
    ensures |r| == |fields|
  {
    if fields == [] then [] else [CsvEscape(fields[0])] + EscapeFields(fields[1..])
  }

  /** One CSV line: the escaped fields joined with commas. */
  function CsvRow(fields: seq<string>): string {
    JoinWith(EscapeFields(fields), ",")
  }

  /**
   * What `parseCsvLine` does with the rest `s` of the line, given the field read so far,
   * whether a quoted part is open, and the fields already complete.
   */
  function ParseFrom(s: string, current: string, inQuotes: bool, values: seq<string>): (r: seq<string>)
    ensures |r| >= |values| + 1
    decreases |s|
  {
    if s == [] then values + [current]
    else if s[0] == '"' && inQuotes && |s| >= 2 && s[1] == '"' then ParseFrom(s[2..], current + "\"", inQuotes, values)
    else if s[0] == '"' then ParseFrom(s[1..], current, !inQuotes, values)
    else if s[0] == ',' && !inQuotes then ParseFrom(s[1..], "", inQuotes, values + [current])
    else ParseFrom(s[1..], current + [s[0]], inQuotes, values)
  }

  /** The fields of a line; there is always at least one. */
  function ParseCsv(line: string): (r: seq<string>)
    ensures |r| >= 1
  {
    ParseFrom(line, "", false, [])
  }

  /** `parseCsvLine(line)`: one pass over the characters. */
  method ParseCsvLine(line: string) returns (values: seq<string>)
    ensures values == ParseCsv(line)
    ensures |values| >= 1
  {
    values := [];
    var current := "";
    var inQuotes := false;
    var index := 0;
    while index < |line|
      invariant 0 <= index <= |line|
      invariant ParseFrom(line[index..], current, inQuotes, values) == ParseCsv(line)
      decreases |line| - index
    {
      var rest := line[index..];
      assert rest[0] == line[index] && rest[1..] == line[index + 1..];
      if line[index] == '"' && inQuotes && index + 1 < |line| && line[index + 1] == '"' {
        assert rest[1] == line[index + 1] && rest[2..] == line[index + 2..];
        current := current + "\"";
        index := index + 2;
      } else if line[index] == '"' {
        inQuotes := !inQuotes;
        index := index + 1;
      } else if line[index] == ',' && !inQuotes {
        values := values + [current];
        current := "";
        index := index + 1;
      } else {
        current := current + [line[index]];
        index := index + 1;
      }
    }
    assert line[index..] == [];
    values := values + [current];
  }

  // ---- Reading back what was written ----

  /** An ordinary character is added to the field. */
  lemma ReadChar(c: char, x: string, current: string, inQuotes: bool, values: seq<string>)
    requires c != '"' && (c != ',' || inQuotes)
    ensures ParseFrom([c] + x, current, inQuotes, values) == ParseFrom(x, current + [c], inQuotes, values)
  {
    var s := [c] + x;
    assert s[0] == c && s[1..] == x;
  }

  /** A doubled quote inside quotes is one quote of the field. */
  lemma ReadDoubledQuote(x: string, current: string, values: seq<string>)
    ensures ParseFrom("\"\"" + x, current, true, values) == ParseFrom(x, current + "\"", true, values)
  {
    var s := "\"\"" + x;
    assert s[0] == '"' && s[1] == '"' && s[2..] == x;
  }

  /** A quote not followed by another switches quoting. */
  lemma ReadSingleQuote(x: string, current: string, inQuotes: bool, values: seq<string>)
    requires x == [] || x[0] != '"' || !inQuotes
    ensures ParseFrom("\"" + x, current, inQuotes, values) == ParseFrom(x, current, !inQuotes, values)
  {
    var s := "\"" + x;
    assert s[0] == '"' && s[1..] == x;
  }

  /** Plain text is taken over as it is. */
  lemma {:induction false} ReadPlain(f: string, rest: string, current: string, values: seq<string>)
    requires '"' !in f && ',' !in f
    ensures ParseFrom(f + rest, current, false, values) == ParseFrom(rest, current + f, false, values)
    decreases |f|
  {
    if f != [] {
      assert f + rest == [f[0]] + (f[1..] + rest);
      assert f[0] in f;
      assert forall c :: c in f[1..] ==> c in f;
      ReadChar(f[0], f[1..] + rest, current, false, values);
      ReadPlain(f[1..], rest, current + [f[0]], values);
      assert current + [f[0]] + f[1..] == current + f;
    } else {
      assert f + rest == rest;
      assert current + f == current;
    }
  }

  /** Inside quotes, a doubled quote reads as one quote and the closing quote ends the part. */
  lemma {:induction false} ReadQuoted(f: string, rest: string, current: string, values: seq<string>)
    requires rest == [] || rest[0] != '"'
    ensures ParseFrom(ReplaceAll(f, "\"", "\"\"") + ("\"" + rest), current, true, values)
         == ParseFrom(rest, current + f, false, values)
    decreases |f|
  {
    if f == [] {
      assert ReplaceAll(f, "\"", "\"\"") + ("\"" + rest) == "\"" + rest;
      ReadSingleQuote(rest, current, true, values);
      assert current + f == current;
    } else {
      var next := current + (if f[0] == '"' then "\"" else [f[0]]);
      ReadQuoted(f[1..], rest, next, values);
      ReadQuotedStep(f, rest, current, values);
    }
  }

  /** One character of a quoted field, given that the rest of the field reads back. */
  lemma ReadQuotedStep(f: string, rest: string, current: string, values: seq<string>)
    requires f != []
    requires var next := current + (if f[0] == '"' then "\"" else [f[0]]);
      ParseFrom(ReplaceAll(f[1..], "\"", "\"\"") + ("\"" + rest), next, true, values)
        == ParseFrom(rest, next + f[1..], false, values)
    ensures ParseFrom(ReplaceAll(f, "\"", "\"\"") + ("\"" + rest), current, true, values)
         == ParseFrom(rest, current + f, false, values)
  {
    var tail := "\"" + rest;
    var d := ReplaceAll(f[1..], "\"", "\"\"");
    assert f == [f[0]] + f[1..];
    ReplaceAllCharHead(f[0], f[1..], '"', "\"\"");
    if f[0] == '"' {
      assert ReplaceAll(f, "\"", "\"\"") + tail == "\"\"" + (d + tail);
      ReadDoubledQuote(d + tail, current, values);
    } else {
      assert ReplaceAll(f, "\"", "\"\"") + tail == [f[0]] + (d + tail);
      ReadChar(f[0], d + tail, current, true, values);
    }
    assert current + [f[0]] + f[1..] == current + f;
  }

  /** An escaped field followed by the end of the line or a comma reads back as the field. */
  lemma ReadField(f: string, rest: string, values: seq<string>)
    requires rest == [] || rest[0] == ','
    ensures ParseFrom(CsvEscape(f) + rest, "", false, values) == ParseFrom(rest, f, false, values)
  {
    if !NeedsQuotes(f) {
      ReadPlain(f, rest, "", values);
      assert "" + f == f;
    } else {
      var d := ReplaceAll(f, "\"", "\"\"");
      assert CsvEscape(f) + rest == "\"" + (d + ("\"" + rest));
      ReadSingleQuote(d + ("\"" + rest), "", false, values);
      ReadQuoted(f, rest, "", values);
      assert "" + f == f;
    }
  }

  /** A line written from fields reads back as exactly those fields, whatever they hold. */
  lemma ParseCsvRow(fields: seq<string>)
    requires |fields| >= 1
    ensures ParseCsv(CsvRow(fields)) == fields
  {
    ParseRowFrom(fields, []);
    assert [] + fields == fields;
  }

  lemma {:induction false} ParseRowFrom(fields: seq<string>, values: seq<string>)
    requires |fields| >= 1
    ensures ParseFrom(CsvRow(fields), "", false, values) == values + fields
    decreases |fields|
  {
    var e := EscapeFields(fields);
    assert e[0] == CsvEscape(fields[0]) && e[1..] == EscapeFields(fields[1..]);
    if |fields| == 1 {
      assert CsvRow(fields) == CsvEscape(fields[0]) + [];
      ReadField(fields[0], [], values);
    } else {
      var more := CsvRow(fields[1..]);
      var rest := "," + more;
      assert CsvRow(fields) == CsvEscape(fields[0]) + rest;
      ReadField(fields[0], rest, values);
      assert rest[0] == ',' && rest[1..] == more;
      ParseRowFrom(fields[1..], values + [fields[0]]);
      assert values + [fields[0]] + fields[1..] == values + fields;
    }
  }

  /** A character other than a quote that a field does not hold is not in its escaped form. */
  lemma CsvEscapeKeepsOut(f: string, k: char)
    requires k !in f && k != '"'
    ensures k !in CsvEscape(f)
  {
    if NeedsQuotes(f) {
      ReplaceAllCharKeepsOut(f, '"', "\"\"", k);
    }
  }

  /** A character other than a quote or a comma that no field holds is not in the row. */
  lemma {:induction false} CsvRowKeepsOut(fields: seq<string>, k: char)
    requires forall i :: 0 <= i < |fields| ==> k !in fields[i]
    requires k != '"' && k != ','
    ensures k !in CsvRow(fields)
    decreases |fields|
  {
    if |fields| == 1 {
      CsvEscapeKeepsOut(fields[0], k);
    } else if |fields| > 1 {
      CsvEscapeKeepsOut(fields[0], k);
      CsvRowKeepsOut(fields[1..], k);
      assert CsvRow(fields) == CsvEscape(fields[0]) + "," + CsvRow(fields[1..]);
    }
  }

  // ---- `|`-joined lists ----

  /** `splitPipeList(value)`: the trimmed, non-empty parts between the bars. */
  function SplitPipeList(value: string): seq<string> {
    if value == "" then [] else TrimParts(Split(value, '|'))
  }

  /** `joinPipeList(items)`: the trimmed, non-empty items joined with bars. */
  function JoinPipeList(items: seq<string>): string {
    JoinWith(TrimParts(items), "|")
  }

  /** Splitting a joined list gives back the trimmed, non-empty items when none holds a bar. */
  lemma PipeListRoundTrip(items: seq<string>)
    requires forall i :: 0 <= i < |items| ==> '|' !in items[i]
    ensures SplitPipeList(JoinPipeList(items)) == TrimParts(items)
  {
    var parts := TrimParts(items);
    TrimPartsClean(items);
    TrimPartsNoSeparator(items, '|');
    if parts != [] {
      JoinWithNonEmpty(parts, "|");
      SplitJoin(parts, '|');
      TrimPartsUnchanged(parts);
    }
  }

  /** Every item `splitPipeList` returns is non-empty, has no surrounding white space and no bar. */
  lemma SplitPipeListClean(value: string)
    ensures forall i :: 0 <= i < |SplitPipeList(value)| ==> CleanItem(SplitPipeList(value)[i]) && '|' !in SplitPipeList(value)[i]
  {
    if value != "" {
      TrimPartsClean(Split(value, '|'));
      TrimPartsNoSeparator(Split(value, '|'), '|');
    }
  }
}
