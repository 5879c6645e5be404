/**
 * The parts of JavaScript's String and Number built-ins that the scheduler relies on:
 * `trim`, `split` on one character, `join`, ASCII case mapping, global replacement of
 * a literal pattern, integer printing and `Number(text)`.
 */
module JsText {

  /** The WhiteSpace and LineTerminator characters of ECMAScript, which `trim` removes. */
  predicate IsSpace(c: char) {
    c == ' ' || c == '\t' || c == '\n' || c == '\r' || c == '\U{000B}' || c == '\U{000C}'
    || c == '\U{00A0}' || c == '\U{FEFF}' || c == '\U{1680}' || ('\U{2000}' <= c <= '\U{200A}')
    || c == '\U{2028}' || c == '\U{2029}' || c == '\U{202F}' || c == '\U{205F}' || c == '\U{3000}'
  }

  function TrimStart(s: string): (r: string)
    ensures |r| <= |s|
    ensures r == [] || !IsSpace(r[0])
  {
    if s != [] && IsSpace(s[0]) then TrimStart(s[1..]) else s
  }

  function TrimEnd(s: string): (r: string)
    ensures |r| <= |s| && (r != [] ==> r[0] == s[0])
    ensures r == [] || !IsSpace(r[|r| - 1])
  {
    if s != [] && IsSpace(s[|s| - 1]) then TrimEnd(s[..|s| - 1]) else s
  }

  /** What `TrimStart` keeps is a suffix of the text. */
  lemma {:induction false} TrimStartSuffix(s: string)
    ensures TrimStart(s) == s[|s| - |TrimStart(s)|..]
    decreases |s|
  {
    if s != [] && IsSpace(s[0]) {
      TrimStartSuffix(s[1..]);
      assert s[1..][|s| - 1 - |TrimStart(s)|..] == s[|s| - |TrimStart(s)|..];
    }
  }

  /** What `TrimEnd` keeps is a prefix of the text. */
  lemma {:induction false} TrimEndPrefix(s: string)
    ensures TrimEnd(s) == s[..|TrimEnd(s)|]
    decreases |s|
  {
    if s != [] && IsSpace(s[|s| - 1]) {
      TrimEndPrefix(s[..|s| - 1]);
      assert s[..|s| - 1][..|TrimEnd(s)|] == s[..|TrimEnd(s)|];
    }
  }

  /** `s.trim()`: the text between the leading and the trailing white space. */
  function Trim(s: string): (r: string)
    ensures r == [] || (!IsSpace(r[0]) && !IsSpace(r[|r| - 1]))
  {
    TrimEnd(TrimStart(s))
  }

  /** Text that neither starts nor ends with white space is its own trim. */
  lemma TrimUnchanged(s: string)
    requires s == [] || (!IsSpace(s[0]) && !IsSpace(s[|s| - 1]))
    ensures Trim(s) == s
  {
  }

  /** Trimming twice is trimming once. */
  lemma TrimIdempotent(s: string)
    ensures Trim(Trim(s)) == Trim(s)
  {
    TrimUnchanged(Trim(s));
  }

  /** `parts.map((v) => v.trim()).filter(Boolean)`: the trimmed parts that are not empty, in order. */
  function TrimParts(parts: seq<string>): seq<string>
  {
    if parts == [] then []
    else (if Trim(parts[0]) == "" then [] else [Trim(parts[0])]) + TrimParts(parts[1..])
  }

  /** A list item as the list helpers keep it: not empty, no surrounding white space. */
  predicate CleanItem(s: string) {
    s != "" && Trim(s) == s
  }

  /** Every kept part is non-empty and has no surrounding white space. */
  lemma TrimPartsClean(parts: seq<string>)
    ensures forall i :: 0 <= i < |TrimParts(parts)| ==> CleanItem(TrimParts(parts)[i])
  {
    forall i | 0 <= i < |TrimParts(parts)| {
      TrimPartsCleanAt(parts, i);
    }
  }

  lemma {:induction false} TrimPartsCleanAt(parts: seq<string>, i: nat)
    requires i < |TrimParts(parts)|
    ensures CleanItem(TrimParts(parts)[i])
  {
    var t := Trim(parts[0]);
    var rest := TrimParts(parts[1..]);
    if t == "" {
      TrimPartsCleanAt(parts[1..], i);
    } else if i == 0 {
      TrimIdempotent(parts[0]);
    } else {
      assert TrimParts(parts)[i] == rest[i - 1];
      TrimPartsCleanAt(parts[1..], i - 1);
    }
  }

  /** Parts that are already trimmed and not empty are kept as they are. */
  lemma {:induction false} TrimPartsUnchanged(parts: seq<string>)
    requires forall i :: 0 <= i < |parts| ==> CleanItem(parts[i])
    ensures TrimParts(parts) == parts
  {
    if parts != [] {
      TrimPartsUnchanged(parts[1..]);
      assert parts == [parts[0]] + parts[1..];
    }
  }

  /** A text with a character other than white space does not trim to nothing. */
  lemma TrimKeepsNonSpace(s: string, i: nat)
    requires i < |s| && !IsSpace(s[i])
    ensures Trim(s) != ""
  {
    var a := TrimStart(s);
    TrimStartKeeps(s, i);
    TrimStartSuffix(s);
    var j := i - (|s| - |a|);
    assert a[j] == s[i];
    TrimEndKeeps(a, j);
  }

  lemma {:induction false} TrimStartKeeps(s: string, i: nat)
    requires i < |s| && !IsSpace(s[i])
    ensures |TrimStart(s)| >= |s| - i
    decreases |s|
  {
    if IsSpace(s[0]) {
      TrimStartKeeps(s[1..], i - 1);
    }
  }

  lemma {:induction false} TrimEndKeeps(s: string, i: nat)
    requires i < |s| && !IsSpace(s[i])
    ensures |TrimEnd(s)| > i
    decreases |s|
  {
    if IsSpace(s[|s| - 1]) {
      TrimEndKeeps(s[..|s| - 1], i);
    }
  }

  /** Trimming only removes characters: a character absent from a text is absent from its trim. */
  lemma TrimKeepsOut(s: string, c: char)
    requires c !in s
    ensures c !in Trim(s)
  {
    var a := TrimStart(s);
    TrimStartSuffix(s);
    forall i | 0 <= i < |a|
      ensures a[i] != c
    {
      assert a[i] == s[|s| - |a| + i];
    }
    var b := TrimEnd(a);
    TrimEndPrefix(a);
    forall i | 0 <= i < |b|
      ensures b[i] != c
    {
      assert b[i] == a[i];
    }
  }

  /** A character that none of the parts contains is in none of the kept parts. */
  lemma {:induction false} TrimPartsNoSeparator(parts: seq<string>, c: char)
    requires forall i :: 0 <= i < |parts| ==> c !in parts[i]
    ensures forall i :: 0 <= i < |TrimParts(parts)| ==> c !in TrimParts(parts)[i]
  {
    if parts != [] {
      TrimPartsNoSeparator(parts[1..], c);
      TrimKeepsOut(parts[0], c);
    }
  }

  /** `s.split(sep)` for a one-character separator. */
  function Split(s: string, sep: char): (parts: seq<string>)
    ensures |parts| >= 1
    ensures forall i :: 0 <= i < |parts| ==> sep !in parts[i]
  {
    if s == [] then [""]
    else if s[0] == sep then [""] + Split(s[1..], sep)
    else
      var rest := Split(s[1..], sep);
      [[s[0]] + rest[0]] + rest[1..]
  }

  /** A character absent from the text is absent from every part. */
  lemma {:induction false} SplitKeepsOut(s: string, sep: char, c: char, i: nat)
    requires c !in s && i < |Split(s, sep)|
    ensures c !in Split(s, sep)[i]
    decreases |s|
  {
    if s != [] {
      assert s == [s[0]] + s[1..];
      assert c !in s[1..];
      if s[0] == sep {
        if i > 0 {
          SplitKeepsOut(s[1..], sep, c, i - 1);
        }
      } else if i == 0 {
        SplitKeepsOut(s[1..], sep, c, 0);
      } else {
        SplitKeepsOut(s[1..], sep, c, i);
      }
    }
  }

  /** `text.replace(/\r/g, '')`. */
  function DropReturns(s: string): (r: string)
    ensures '\r' !in r
    decreases |s|
  {
    if s == [] then [] else (if s[0] == '\r' then [] else [s[0]]) + DropReturns(s[1..])
  }

  /** A text without carriage returns is left as it is. */
  lemma {:induction false} DropReturnsNone(s: string)
    requires '\r' !in s
    ensures DropReturns(s) == s
    decreases |s|
  {
    if s != [] {
      assert s[0] != '\r' && '\r' !in s[1..];
      DropReturnsNone(s[1..]);
    }
  }

  /** `s.startsWith(p)`. */
  predicate StartsWith(s: string, p: string) {
    |p| <= |s| && s[..|p|] == p
  }

  /** `s.endsWith(p)`. */
  predicate EndsWith(s: string, p: string) {
    |p| <= |s| && s[|s| - |p|..] == p
  }

  /** `s.includes(p)`: `p` occurs in `s` at some position. */
  predicate Includes(s: string, p: string)
    decreases |s|
  {
    StartsWith(s, p) || (s != [] && Includes(s[1..], p))
  }

  /** A text includes each of its prefixes. */
  lemma StartsWithIncludes(s: string, p: string)
    requires StartsWith(s, p)
    ensures Includes(s, p)
  {
  }

  /** A prefix of a prefix is a prefix. */
  lemma StartsWithTrans(s: string, p: string, q: string)
    requires StartsWith(s, p) && StartsWith(p, q)
    ensures StartsWith(s, q)
  {
    assert s[..|q|] == s[..|p|][..|q|];
  }

  /** Trimming keeps a prefix that starts and ends with characters other than white space. */
  lemma TrimKeepsPrefix(s: string, p: string)
    requires StartsWith(s, p) && p != [] && !IsSpace(p[0]) && !IsSpace(p[|p| - 1])
    ensures StartsWith(Trim(s), p)
  {
    assert s[0] == p[0];
    assert TrimStart(s) == s;
    assert s[|p| - 1] == p[|p| - 1];
    TrimEndKeeps(s, |p| - 1);
    TrimEndPrefix(s);
    var t := TrimEnd(s);
    assert t[..|p|] == s[..|p|];
  }

  /** A join starts with its first part. */
  lemma JoinWithStarts(parts: seq<string>, sep: string)
    requires |parts| >= 1
    ensures StartsWith(JoinWith(parts, sep), parts[0])
  {
    if |parts| > 1 {
      assert JoinWith(parts, sep) == parts[0] + (sep + JoinWith(parts[1..], sep));
    }
  }

  /** `parts.join(sep)`. */
  function JoinWith(parts: seq<string>, sep: string): string
  {
    if |parts| == 0 then ""
    else if |parts| == 1 then parts[0]
    else parts[0] + sep + JoinWith(parts[1..], sep)
  }

  /** A join whose last part is empty ends with the separator. */
  lemma {:induction false} JoinEndsWithEmpty(parts: seq<string>, sep: string)
    requires |parts| >= 2 && parts[|parts| - 1] == ""
    ensures var text := JoinWith(parts, sep);
      |text| >= |sep| && text[|text| - |sep|..] == sep
    decreases |parts|
  {
    if |parts| == 2 {
      assert JoinWith(parts, sep) == parts[0] + sep + "";
    } else {
      JoinEndsWithEmpty(parts[1..], sep);
      assert JoinWith(parts, sep) == parts[0] + sep + JoinWith(parts[1..], sep);
    }
  }

  /** A join whose first part is not empty is not empty. */
  lemma JoinWithNonEmpty(parts: seq<string>, sep: string)
    requires |parts| >= 1 && parts[0] != ""
    ensures JoinWith(parts, sep) != ""
  {
    if |parts| > 1 {
      assert JoinWith(parts, sep)[0] == parts[0][0];
    }
  }

  /** A character in no part and not in the separator is not in the join. */
  lemma {:induction false} JoinWithKeepsOut(parts: seq<string>, sep: string, c: char)
    requires forall i :: 0 <= i < |parts| ==> c !in parts[i]
    requires c !in sep
    ensures c !in JoinWith(parts, sep)
    decreases |parts|
  {
    if |parts| > 1 {
      JoinWithKeepsOut(parts[1..], sep, c);
      assert JoinWith(parts, sep) == parts[0] + sep + JoinWith(parts[1..], sep);
    }
  }

  lemma {:induction false} SplitPrefix(a: string, t: string, sep: char)
    requires sep !in a
    ensures Split(a + t, sep) == [a + Split(t, sep)[0]] + Split(t, sep)[1..]
  {
    if a != [] {
      assert (a + t)[0] == a[0] && (a + t)[1..] == a[1..] + t;
      SplitPrefix(a[1..], t, sep);
      assert [a[0]] + (a[1..] + Split(t, sep)[0]) == a + Split(t, sep)[0];
    } else {
      assert a + t == t;
      assert a + Split(t, sep)[0] == Split(t, sep)[0];
      assert Split(t, sep) == [Split(t, sep)[0]] + Split(t, sep)[1..];
    }
  }

  /** Splitting a join on a separator that none of the parts contains gives the parts back. */
  lemma {:induction false} SplitJoin(parts: seq<string>, sep: char)
    requires |parts| >= 1
    requires forall i :: 0 <= i < |parts| ==> sep !in parts[i]
    ensures Split(JoinWith(parts, [sep]), sep) == parts
  {
    if |parts| == 1 {
      SplitPrefix(parts[0], "", sep);
      assert parts[0] + "" == parts[0];
      assert Split("", sep) == [""];
      assert JoinWith(parts, [sep]) == parts[0];
    } else {
      var rest := JoinWith(parts[1..], [sep]);
      SplitJoin(parts[1..], sep);
      assert JoinWith(parts, [sep]) == parts[0] + ([sep] + rest);
      SplitPrefix(parts[0], [sep] + rest, sep);
      assert Split([sep] + rest, sep) == [""] + Split(rest, sep) by {
        assert ([sep] + rest)[0] == sep;
        assert ([sep] + rest)[1..] == rest;
      }
      assert parts[0] + Split([sep] + rest, sep)[0] == parts[0];
      assert Split([sep] + rest, sep)[1..] == parts[1..];
      assert parts == [parts[0]] + parts[1..];
    }
  }

  /** Splitting a joined list gives its trimmed, non-empty items back when none holds the separator. */
  lemma SplitJoinTrimmed(items: seq<string>, sep: char)
    requires forall i :: 0 <= i < |items| ==> sep !in items[i]
    ensures TrimParts(Split(JoinWith(items, [sep]), sep)) == TrimParts(items)
  {
    if items == [] {
      assert Split("", sep) == [""];
      assert Trim("") == "";
      assert TrimParts([""]) == [] + TrimParts([]);
    } else {
      SplitJoin(items, sep);
    }
  }

  function LowerChar(c: char): char {
    if 'A' <= c <= 'Z' then (c as int + 32) as char else c
  }

  function UpperChar(c: char): char {
    if 'a' <= c <= 'z' then (c as int - 32) as char else c
  }

  /** `s.toLowerCase()` on the ASCII letters. */
  function ToLower(s: string): string {
    seq(|s|, i requires 0 <= i < |s| => LowerChar(s[i]))
  }

  /** `s.toUpperCase()` on the ASCII letters. */
  function ToUpper(s: string): string {
    seq(|s|, i requires 0 <= i < |s| => UpperChar(s[i]))
  }

  /** `s.replace(/pat/g, rep)` for a literal pattern: matches are taken left to right, without overlap. */
  function ReplaceAll(s: string, pat: string, rep: string): string
    requires |pat| > 0
    decreases |s|
  {
    if |pat| <= |s| && s[..|pat|] == pat then rep + ReplaceAll(s[|pat|..], pat, rep)
    else if s == [] then []
    else [s[0]] + ReplaceAll(s[1..], pat, rep)
  }

  /** A text in which the pattern does not occur is left as it is. */
  lemma {:induction false} ReplaceAllAbsent(s: string, pat: string, rep: string)
    requires |pat| == 2 && pat[0] !in s
    ensures ReplaceAll(s, pat, rep) == s
    decreases |s|
  {
    if s != [] {
      assert s[0] != pat[0];
      assert !(|pat| <= |s| && s[..|pat|] == pat);
      ReplaceAllAbsent(s[1..], pat, rep);
    }
  }

  /** One step of a one-character replacement. */
  lemma ReplaceAllCharHead(x: char, t: string, c: char, rep: string)
    ensures ReplaceAll([x] + t, [c], rep) == (if x == c then rep else [x]) + ReplaceAll(t, [c], rep)
  {
    var s := [x] + t;
    assert s[..1] == [x] && s[1..] == t;
  }

  /** Replacing one character works piece by piece. */
  lemma {:induction false} ReplaceAllCharConcat(a: string, b: string, c: char, rep: string)
    ensures ReplaceAll(a + b, [c], rep) == ReplaceAll(a, [c], rep) + ReplaceAll(b, [c], rep)
    decreases |a|
  {
    if a != [] {
      assert a + b == [a[0]] + (a[1..] + b);
      assert a == [a[0]] + a[1..];
      ReplaceAllCharHead(a[0], a[1..] + b, c, rep);
      ReplaceAllCharHead(a[0], a[1..], c, rep);
      ReplaceAllCharConcat(a[1..], b, c, rep);
    } else {
      assert a + b == b;
    }
  }

  /** A character that does not start the two-character pattern is kept. */
  lemma ReplaceAllPairSkip(x: char, t: string, pat: string, rep: string)
    requires |pat| == 2 && (x != pat[0] || t == [] || t[0] != pat[1])
    ensures ReplaceAll([x] + t, pat, rep) == [x] + ReplaceAll(t, pat, rep)
  {
    var s := [x] + t;
    assert s[1..] == t;
    if |s| >= 2 {
      assert s[..2] != pat by { assert s[..2][0] == x; assert t != [] ==> s[..2][1] == t[0]; }
    }
  }

  /** A character followed by one that does not complete the pattern is kept. */
  lemma ReplaceAllPairSkipBoth(x: char, y: char, t: string, pat: string, rep: string)
    requires |pat| == 2 && (x != pat[0] || y != pat[1])
    ensures ReplaceAll([x, y] + t, pat, rep) == [x] + ReplaceAll([y] + t, pat, rep)
  {
    var s := [x, y] + t;
    assert s[1..] == [y] + t;
    assert s[..2] != pat by { assert s[..2][0] == x && s[..2][1] == y; }
  }

  /** A match of the two-character pattern is replaced. */
  lemma ReplaceAllPairMatch(t: string, pat: string, rep: string)
    requires |pat| == 2
    ensures ReplaceAll(pat + t, pat, rep) == rep + ReplaceAll(t, pat, rep)
  {
    var s := pat + t;
    assert s[..2] == pat && s[2..] == t;
  }

  /** Replacing a character by text without `k` adds no `k`. */
  lemma {:induction false} ReplaceAllCharKeepsOut(s: string, c: char, rep: string, k: char)
    requires k !in s && k !in rep
    ensures k !in ReplaceAll(s, [c], rep)
    decreases |s|
  {
    if s != [] {
      assert s == [s[0]] + s[1..];
      ReplaceAllCharHead(s[0], s[1..], c, rep);
      ReplaceAllCharKeepsOut(s[1..], c, rep, k);
    }
  }

  predicate IsDigit(c: char) { '0' <= c <= '9' }

  predicate AllDigits(s: string) { forall i :: 0 <= i < |s| ==> IsDigit(s[i]) }

  function DigitChar(d: int): char
    requires 0 <= d < 10
  {
    ('0' as int + d) as char
  }

  function DigitValue(c: char): int
    requires IsDigit(c)
  {
    c as int - '0' as int
  }

  /** The decimal value of a run of digits (leading zeros allowed). */
  function DigitsValue(s: string): nat
    requires AllDigits(s)
  {
    if s == [] then 0 else DigitsValue(s[..|s| - 1]) * 10 + DigitValue(s[|s| - 1])
  }

  /** `String(n)` for a natural number. */
  function NatToString(n: nat): (r: string)
    ensures |r| >= 1 && AllDigits(r)
  {
    (if n < 10 then [] else NatToString(n / 10)) + [DigitChar(n % 10)]
  }

  /** `String(i)` for an integer. */
  function IntToString(i: int): string {
    if i < 0 then "-" + NatToString(-i) else NatToString(i)
  }

  lemma DigitsValueAppend(s: string, c: char)
    requires AllDigits(s) && IsDigit(c)
    ensures AllDigits(s + [c]) && DigitsValue(s + [c]) == DigitsValue(s) * 10 + DigitValue(c)
  {
    assert (s + [c])[..|s + [c]| - 1] == s;
  }

  /** Printing a natural number and reading its digits back gives the number. */
  lemma {:induction false} DigitsValueOfNatToString(n: nat)
    ensures DigitsValue(NatToString(n)) == n
  {
    var front := if n < 10 then [] else NatToString(n / 10);
    DigitsValueAppend(front, DigitChar(n % 10));
    if n >= 10 {
      DigitsValueOfNatToString(n / 10);
    }
  }

  /** Leading zeros do not change the value of a run of digits. */
  lemma {:induction false} DigitsValueLeadingZeros(z: string, t: string)
    requires forall i :: 0 <= i < |z| ==> z[i] == '0'
    requires AllDigits(t)
    ensures AllDigits(z + t) && DigitsValue(z + t) == DigitsValue(t)
    decreases |t|
  {
    if t == [] {
      ZerosValue(z);
      assert z + t == z;
    } else {
      var t' := t[..|t| - 1];
      DigitsValueLeadingZeros(z, t');
      assert (z + t)[..|z + t| - 1] == z + t';
    }
  }

  lemma {:induction false} ZerosValue(z: string)
    requires forall i :: 0 <= i < |z| ==> z[i] == '0'
    ensures AllDigits(z) && DigitsValue(z) == 0
  {
    if z != [] {
      ZerosValue(z[..|z| - 1]);
    }
  }

  /** `s.padStart(width, c)`. */
  function PadStart(s: string, width: nat, c: char): (r: string)
    ensures |r| == if |s| >= width then |s| else width
  {
    if |s| >= width then s else Repeat(c, width - |s|) + s
  }

  function Repeat(c: char, k: nat): (r: string)
    ensures |r| == k && forall i :: 0 <= i < k ==> r[i] == c
  {
    if k == 0 then [] else [c] + Repeat(c, k - 1)
  }

  /** `String(n).padStart(width, '0')`. */
  function PadNat(n: nat, width: nat): (r: string)
    ensures AllDigits(r) && |r| >= width
  {
    PadStart(NatToString(n), width, '0')
  }

  /** A zero-padded number reads back as the number, and has exactly `width` digits when it fits. */
  lemma PadNatValue(n: nat, width: nat)
    ensures DigitsValue(PadNat(n, width)) == n
    ensures |NatToString(n)| <= width ==> |PadNat(n, width)| == width
  {
    var s := NatToString(n);
    DigitsValueOfNatToString(n);
    if |s| < width {
      DigitsValueLeadingZeros(Repeat('0', width - |s|), s);
    }
  }

  /** Numbers below 10^k print with at most k digits. */
  lemma {:induction false} NatToStringLength(n: nat, k: nat, bound: nat)
    requires bound == Pow10(k) && n < bound && k >= 1
    ensures |NatToString(n)| <= k
  {
    if n >= 10 {
      assert Pow10(1) == 10;
      assert k >= 2;
      Pow10Step(k - 1);
      NatToStringLength(n / 10, k - 1, Pow10(k - 1));
    }
  }

  function Pow10(k: nat): nat {
    if k == 0 then 1 else 10 * Pow10(k - 1)
  }

  /** Numbers of at least 10^k print with more than k digits. */
  lemma {:induction false} NatToStringLongEnough(n: nat, k: nat)
    requires n >= Pow10(k)
    ensures |NatToString(n)| >= k + 1
  {
    if k > 0 {
      assert n >= 10 by { Pow10Positive(k - 1); }
      NatToStringLongEnough(n / 10, k - 1);
    }
  }

  lemma {:induction false} Pow10Positive(k: nat)
    ensures Pow10(k) >= 1
  {
    if k > 0 {
      Pow10Positive(k - 1);
    }
  }

  lemma Pow10Step(k: nat)
    ensures Pow10(k + 1) == 10 * Pow10(k)
  {
  }

  /** A JavaScript number as far as this model needs one: an integer, or NaN. */
  datatype JsNum = NaN | Num(value: int)

  /** A number is truthy unless it is 0 or NaN. */
  predicate Truthy(x: JsNum) {
    x.Num? && x.value != 0
  }

  /**
   * `Number(text)`: surrounding white space is ignored, the empty text is 0, an
   * optionally signed run of decimal digits is that integer, anything else is NaN.
   */
  function NumberOf(s: string): JsNum {
    var t := Trim(s);
    if t == [] then Num(0)
    else if (t[0] == '-' || t[0] == '+') && |t| > 1 && AllDigits(t[1..]) then
      var v: int := DigitsValue(t[1..]);
      Num(if t[0] == '-' then -v else v)
    else if AllDigits(t) then Num(DigitsValue(t))
    else NaN
  }

  /** `String(x)` for a number. */
  function NumText(x: JsNum): string {
    match x
    case NaN => "NaN"
    case Num(v) => IntToString(v)
  }

  lemma IntToStringTrimmed(i: int)
    ensures Trim(IntToString(i)) == IntToString(i)
  {
    var s := IntToString(i);
    var d := NatToString(if i < 0 then -i else i);
    assert !IsSpace(d[0]) && !IsSpace(d[|d| - 1]);
    assert !IsSpace('-');
    assert s[|s| - 1] == d[|d| - 1];
    TrimUnchanged(s);
  }

  /** Text that starts with neither a sign nor a digit is not a number. */
  lemma NumberOfNonNumeric(t: string)
    requires t != [] && Trim(t) == t
    requires t[0] != '-' && t[0] != '+' && !IsDigit(t[0])
    ensures NumberOf(t) == NaN
  {
    assert !AllDigits(t);
  }

  lemma NumberOfNaNText()
    ensures NumberOf("NaN") == NaN
  {
    var t := "NaN";
    assert t[0] == 'N' && t[|t| - 1] == 'N';
    TrimUnchanged(t);
    NumberOfNonNumeric(t);
  }

  lemma NumberOfIntToString(v: int)
    ensures NumberOf(IntToString(v)) == Num(v)
  {
    var m: nat := if v < 0 then -v else v;
    var d := NatToString(m);
    DigitsValueOfNatToString(m);
    IntToStringTrimmed(v);
    var t := IntToString(v);
    if v < 0 {
      assert t == "-" + d;
      assert t[1..] == d;
      assert t[0] == '-';
    } else {
      assert t == d;
    }
  }

  /** Printing a number and reading it back with `Number` gives the same number. */
  lemma NumberOfNumText(x: JsNum)
    ensures NumberOf(NumText(x)) == x
  {
    match x
    case NaN => NumberOfNaNText();
    case Num(v) => NumberOfIntToString(v);
  }

  /** A number prints as a sign and digits, or as `NaN`: never a line break. */
  lemma NumTextNoLineBreak(x: JsNum)
    ensures '\n' !in NumText(x) && '\r' !in NumText(x)
  {
    if x.Num? {
      var v := x.value;
      var d := NatToString(if v < 0 then -v else v);
      assert forall i :: 0 <= i < |d| ==> d[i] != '\n' && d[i] != '\r';
    }
  }
}
