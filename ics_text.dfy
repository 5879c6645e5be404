/**
 * Text values in iCalendar content lines (section 3.3.11 of RFC 5545): a backslash, a
 * line break, a comma and a semicolon are written with a backslash in front, the line
 * break as `\n`.
 */
module IcsText {
  import opened JsText

  /** The letter that follows the backslash in an escaped character. */
  function EscLetter(c: char): char {
    if c == '\n' then 'n' else c
  }

  /** The text with each character of `cs` written as a backslash and its letter. */
  function EscapeSome(s: string, cs: set<char>): string
    decreases |s|
  {
    if s == [] then []
    else (if s[0] in cs then ['\\', EscLetter(s[0])] else [s[0]]) + EscapeSome(s[1..], cs)
  }

  const Escaped: set<char> := {'\\', '\n', ',', ';'}

  /** `escapeICS(value)`: four replacement passes, the backslash first. */
  function EscapeIcs(value: string): string {
    ReplaceAll(ReplaceAll(ReplaceAll(ReplaceAll(value, "\\", "\\\\"), "\n", "\\n"), ",", "\\,"), ";", "\\;")
  }

  /**
   * `unescapeICS(value)` as written: four replacement passes, the backslash last. A `\n`
   * whose backslash is itself escaped is read as a line break.
   */
  function UnescapeIcsAsWritten(value: string): string {
    ReplaceAll(ReplaceAll(ReplaceAll(ReplaceAll(value, "\\n", "\n"), "\\,", ","), "\\;", ";"), "\\\\", "\\")
  }

  /**
   * The unescaping `escapeICS` needs: one pass from left to right, in which a backslash and
   * the character after it are read together.
   */
  function UnescapeIcs(value: string): string
    decreases |value|
  {
    if |value| >= 2 && value[0] == '\\' && value[1] in {'n', ',', ';', '\\'} then
      [if value[1] == 'n' then '\n' else value[1]] + UnescapeIcs(value[2..])
    else if value == [] then []
    else [value[0]] + UnescapeIcs(value[1..])
  }

  /**
   * The two readings of the importer this model states: the code as written, and the
   * reading its exporter needs, which corrects the differences listed under Findings.
   */
  datatype Reading = AsWritten | Intended

  /** `unescapeICS(value)` under a reading. */
  function Unescape(how: Reading, value: string): string {
    if how == AsWritten then UnescapeIcsAsWritten(value) else UnescapeIcs(value)
  }

  lemma {:induction false} EscapeNone(s: string)
    ensures EscapeSome(s, {}) == s
    decreases |s|
  {
    if s != [] {
      EscapeNone(s[1..]);
    }
  }

  lemma {:induction false} EscapeSomeConcat(a: string, b: string, cs: set<char>)
    ensures EscapeSome(a + b, cs) == EscapeSome(a, cs) + EscapeSome(b, cs)
    decreases |a|
  {
    if a != [] {
      assert (a + b)[1..] == a[1..] + b;
      EscapeSomeConcat(a[1..], b, cs);
    } else {
      assert a + b == b;
    }
  }

  /** One escaping pass adds one character to the escaped set. */
  lemma {:induction false} EscapeStep(s: string, cs: set<char>, c: char)
    requires c !in cs && (cs != {} ==> c != '\\')
    requires forall x :: x in cs ==> EscLetter(x) != c
    ensures ReplaceAll(EscapeSome(s, cs), [c], ['\\', EscLetter(c)]) == EscapeSome(s, cs + {c})
    decreases |s|
  {
    if s != [] {
      var rep := ['\\', EscLetter(c)];
      var x := s[0];
      var piece := if x in cs then ['\\', EscLetter(x)] else [x];
      var rest := EscapeSome(s[1..], cs);
      assert EscapeSome(s, cs) == piece + rest;
      ReplaceAllCharConcat(piece, rest, c, rep);
      EscapeStep(s[1..], cs, c);
      var piece2 := if x in cs + {c} then ['\\', EscLetter(x)] else [x];
      assert EscapeSome(s, cs + {c}) == piece2 + EscapeSome(s[1..], cs + {c});
      if x in cs {
        ReplaceAllCharHead('\\', [EscLetter(x)], c, rep);
        ReplaceAllCharHead(EscLetter(x), [], c, rep);
        assert ReplaceAll(piece, [c], rep) == piece2;
      } else {
        ReplaceAllCharHead(x, [], c, rep);
        assert ReplaceAll(piece, [c], rep) == piece2;
      }
    }
  }

  /** The four passes escape each character on its own. */
  lemma EscapeIcsCharwise(s: string)
    ensures EscapeIcs(s) == EscapeSome(s, Escaped)
  {
    EscapeNone(s);
    EscapeStep(s, {}, '\\');
    assert {} + {'\\'} == {'\\'};
    EscapeStep(s, {'\\'}, '\n');
    assert {'\\'} + {'\n'} == {'\\', '\n'};
    EscapeStep(s, {'\\', '\n'}, ',');
    assert {'\\', '\n'} + {','} == {'\\', '\n', ','};
    EscapeStep(s, {'\\', '\n', ','}, ';');
    assert {'\\', '\n', ','} + {';'} == Escaped;
  }

  /** A text with none of the escaped characters is written as it is. */
  lemma EscapeIcsPlain(s: string)
    requires forall i :: 0 <= i < |s| ==> s[i] !in Escaped
    ensures EscapeIcs(s) == s
  {
    EscapeIcsCharwise(s);
    EscapeSameOn(s, Escaped, {});
    EscapeNone(s);
  }

  /** An as-written unescaping pass takes one character out of the escaped set. */
  lemma {:induction false} UnescapeStep(s: string, cs: set<char>, c: char)
    requires '\\' !in s && c in cs
    requires forall x :: x in cs ==> x == '\n' || x == ',' || x == ';'
    ensures ReplaceAll(EscapeSome(s, cs), ['\\', EscLetter(c)], [c]) == EscapeSome(s, cs - {c})
    decreases |s|
  {
    var pat := ['\\', EscLetter(c)];
    if s != [] {
      var x := s[0];
      var rest := EscapeSome(s[1..], cs);
      var tail := ReplaceAll(rest, pat, [c]);
      var out := if x in cs - {c} then ['\\', EscLetter(x)] else [x];
      assert x != '\\' && '\\' !in s[1..];
      UnescapeStep(s[1..], cs, c);
      assert tail == EscapeSome(s[1..], cs - {c});
      assert EscapeSome(s, cs - {c}) == out + tail;
      if x == c {
        assert EscapeSome(s, cs) == pat + rest;
        ReplaceAllPairMatch(rest, pat, [c]);
        assert ReplaceAll(pat + rest, pat, [c]) == out + tail;
      } else if x in cs {
        assert EscapeSome(s, cs) == ['\\', EscLetter(x)] + rest;
        ReplaceAllPairSkipBoth('\\', EscLetter(x), rest, pat, [c]);
        ReplaceAllPairSkip(EscLetter(x), rest, pat, [c]);
        assert ReplaceAll(['\\', EscLetter(x)] + rest, pat, [c]) == out + tail;
      } else {
        assert EscapeSome(s, cs) == [x] + rest;
        ReplaceAllPairSkip(x, rest, pat, [c]);
        assert ReplaceAll([x] + rest, pat, [c]) == out + tail;
      }
    }
  }

  /** For text without a backslash, the as-written unescaping undoes `escapeICS`. */
  lemma UnescapeEscapeNoBackslash(s: string)
    requires '\\' !in s
    ensures UnescapeIcsAsWritten(EscapeIcs(s)) == s
  {
    EscapeIcsCharwise(s);
    var e0 := EscapeSome(s, Escaped);
    assert EscapeSome(s, {'\n', ',', ';'}) == e0 by {
      EscapeSameOn(s, Escaped, {'\n', ',', ';'});
    }
    UnescapeStep(s, {'\n', ',', ';'}, '\n');
    assert {'\n', ',', ';'} - {'\n'} == {',', ';'};
    UnescapeStep(s, {',', ';'}, ',');
    assert {',', ';'} - {','} == {';'};
    UnescapeStep(s, {';'}, ';');
    assert {';'} - {';'} == {};
    EscapeNone(s);
    ReplaceAllAbsent(s, "\\\\", "\\");
  }

  /** Escaping only looks at the characters the text holds. */
  lemma {:induction false} EscapeSameOn(s: string, cs: set<char>, ds: set<char>)
    requires forall x :: x in s ==> (x in cs <==> x in ds)
    ensures EscapeSome(s, cs) == EscapeSome(s, ds)
    decreases |s|
  {
    if s != [] {
      assert s[0] in s;
      assert forall x :: x in s[1..] ==> x in s;
      EscapeSameOn(s[1..], cs, ds);
    }
  }

  /** A text holding an escaped backslash before an `n` does not survive the as-written round trip. */
  lemma AsWrittenLosesBackslashN()
    ensures EscapeIcs("\\n") == "\\\\n"
    ensures UnescapeIcsAsWritten("\\\\n") == "\\\n"
    ensures UnescapeIcsAsWritten(EscapeIcs("\\n")) != "\\n"
  {
    var n := ['n'];
    EscapeIcsCharwise(['\\'] + n);
    assert EscapeSome(n, Escaped) == n + EscapeSome([], Escaped);
    assert EscapeSome(['\\'] + n, Escaped) == ['\\', '\\'] + EscapeSome(n, Escaped);
    var s1 := ['\\', '\n'];
    ReplaceAllPairSkipBoth('\\', '\\', n, "\\n", "\n");
    ReplaceAllPairMatch([], "\\n", "\n");
    assert ['\\', 'n'] + [] == "\\n";
    assert ReplaceAll(['\\', '\\'] + n, "\\n", "\n") == s1;
    ReplaceAllPairSkipBoth('\\', '\n', [], "\\,", ",");
    ReplaceAllPairSkip('\n', [], "\\,", ",");
    assert ReplaceAll(s1, "\\,", ",") == s1;
    ReplaceAllPairSkipBoth('\\', '\n', [], "\\;", ";");
    ReplaceAllPairSkip('\n', [], "\\;", ";");
    assert ReplaceAll(s1, "\\;", ";") == s1;
    ReplaceAllPairSkipBoth('\\', '\n', [], "\\\\", "\\");
    ReplaceAllPairSkip('\n', [], "\\\\", "\\");
    assert ReplaceAll(s1, "\\\\", "\\") == s1;
  }

  /** The corrected unescaping undoes `escapeICS` for every text. */
  lemma UnescapeEscape(s: string)
    ensures UnescapeIcs(EscapeIcs(s)) == s
  {
    EscapeIcsCharwise(s);
    UnescapeEscapeSome(s);
  }

  lemma {:induction false} UnescapeEscapeSome(s: string)
    ensures UnescapeIcs(EscapeSome(s, Escaped)) == s
    decreases |s|
  {
    if s != [] {
      var rest := EscapeSome(s[1..], Escaped);
      var t := EscapeSome(s, Escaped);
      UnescapeEscapeSome(s[1..]);
      if s[0] in Escaped {
        assert t == ['\\', EscLetter(s[0])] + rest;
        assert t[2..] == rest;
      } else {
        assert t == [s[0]] + rest;
        assert t[1..] == rest;
      }
      assert s == [s[0]] + s[1..];
    }
  }

  /** Escaped text holds no line break, so it stays on one content line. */
  lemma {:induction false} EscapeIcsNoLineBreak(s: string)
    ensures '\n' !in EscapeIcs(s)
  {
    EscapeIcsCharwise(s);
    EscapeSomeNoLineBreak(s);
  }

  lemma {:induction false} EscapeSomeNoLineBreak(s: string)
    ensures '\n' !in EscapeSome(s, Escaped)
    decreases |s|
  {
    if s != [] {
      EscapeSomeNoLineBreak(s[1..]);
    }
  }
}
