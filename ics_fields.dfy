/**
 * The two structured values an event carries in iCalendar: a date-time in the UTC form
 * `YYYYMMDDTHHMMSSZ` (section 3.3.5 of RFC 5545) and the `FREQ` part of a recurrence rule
 * (section 3.3.10 of RFC 5545), mapped to and from the scheduler's recurrence names.
 */
module IcsFields {
  import opened Wrappers
  import opened JsText
  import opened CivilTime
  import opened DateStrings
  import opened DateUtils

  // ---- Date-times ----

  /** `toICSDateTime` of a valid date: the UTC fields, the year as `String` prints it and the rest padded to two digits. */
  function IcsStamp(t: Instant): string {
    IntToString(t.year) + (PadNat(t.month, 2) + (PadNat(t.day, 2) + ("T" +
      (PadNat(t.hour, 2) + (PadNat(t.minute, 2) + (PadNat(t.second, 2) + "Z"))))))
  }

  /** What `toICSDateTime` prints for a date that does not parse: every field is `NaN`. */
  const NaNStamp: string := "NaNNaNNaNTNaNNaNNaNZ"

  /** `toICSDateTime(isoDate)`. */
  function ToIcsDateTime(isoDate: string): string {
    match ParseDateString(isoDate)
    case None => NaNStamp
    case Some(t) => IcsStamp(t)
  }

  /** The text matches `^\d{8}T\d{6}Z$`. */
  predicate IsIcsForm(v: string) {
    && |v| == 16 && v[8] == 'T' && v[15] == 'Z'
    && forall i :: 0 <= i < 16 && i != 8 && i != 15 ==> IsDigit(v[i])
  }

  /** `Number(v.slice(a, b))` of a run of digits. */
  function DigitField(v: string, a: nat, b: nat): nat
    requires a <= b <= |v| && forall i :: a <= i < b ==> IsDigit(v[i])
  {
    DigitsValue(v[a..b])
  }

  /** The instant the UTC form denotes, through `Date.UTC`. */
  function IcsFormInstant(v: string): Instant
    requires IsIcsForm(v)
  {
    FromFields(DigitField(v, 0, 4), DigitField(v, 4, 6) - 1, DigitField(v, 6, 8),
      DigitField(v, 9, 11), DigitField(v, 11, 13), DigitField(v, 13, 15), 0)
  }

  /** The instant `fromICSDateTime` reads: the UTC form field by field, anything else through `new Date`. */
  function IcsInstant(value: string): Option<Instant> {
    if value == "" then None
    else if IsIcsForm(value) then Some(IcsFormInstant(value))
    else ParseDateString(value)
  }

  /** `fromICSDateTime(value)`: the ISO text of the instant read, or null. */
  function FromIcsDateTime(value: string): Option<string> {
    match IcsInstant(value)
    case None => None
    case Some(t) => Some(ToIsoString(t))
  }

  /** The same instant without its milliseconds. */
  function WholeSecond(t: Instant): (r: Instant)
    ensures TimeValue(r) == TimeValue(t) - t.ms && 0 <= t.ms < 1000
    ensures r.ms == 0
  {
    t.(ms := 0)
  }

  /** A two-digit field reads back as its value. */
  lemma TwoDigits(n: nat)
    requires n < 100
    ensures |PadNat(n, 2)| == 2 && DigitsValue(PadNat(n, 2)) == n
  {
    NatToStringLength(n, 2, 100);
    PadNatValue(n, 2);
  }

  /** A four-digit year prints as exactly four digits that read back as the year. */
  lemma FourDigitYear(y: int)
    requires 1000 <= y <= 9999
    ensures |IntToString(y)| == 4 && AllDigits(IntToString(y)) && DigitsValue(IntToString(y)) == y
  {
    assert Pow10(3) == 1000 && Pow10(4) == 10000;
    NatToStringLength(y, 4, 10000);
    NatToStringLongEnough(y, 3);
    DigitsValueOfNatToString(y);
  }

  /** Seven digit groups of the right widths around `T` and `Z` make the UTC form. */
  lemma FormOfGroups(y: string, mo: string, d: string, h: string, mi: string, s: string)
    requires |y| == 4 && |mo| == 2 && |d| == 2 && |h| == 2 && |mi| == 2 && |s| == 2
    requires AllDigits(y) && AllDigits(mo) && AllDigits(d) && AllDigits(h) && AllDigits(mi) && AllDigits(s)
    ensures var v := y + (mo + (d + ("T" + (h + (mi + (s + "Z"))))));
      && IsIcsForm(v)
      && v[0..4] == y && v[4..6] == mo && v[6..8] == d && v[9..11] == h && v[11..13] == mi && v[13..15] == s
  {
    var r4 := h + (mi + (s + "Z"));
    var r1 := mo + (d + ("T" + r4));
    var v := y + r1;
    assert v[0..4] == y && v[4..] == r1;
    assert r1[..2] == mo && r1[2..4] == d && r1[4] == 'T' && r1[5..] == r4;
    assert r4[..2] == h && r4[2..4] == mi && r4[4..6] == s && r4[6] == 'Z';
    assert v[4..6] == mo && v[6..8] == d;
    assert v[9..11] == h && v[11..13] == mi && v[13..15] == s;
    forall i | 0 <= i < 16 && i != 8 && i != 15
      ensures IsDigit(v[i])
    {
      if i < 4 { assert v[i] == y[i]; }
      else if i < 6 { assert v[i] == mo[i - 4]; }
      else if i < 8 { assert v[i] == d[i - 6]; }
      else if i < 11 { assert v[i] == h[i - 9]; }
      else if i < 13 { assert v[i] == mi[i - 11]; }
      else { assert v[i] == s[i - 13]; }
    }
  }

  /** The stamp of a four-digit year is the UTC form, and its fields are the instant's. */
  lemma StampFields(t: Instant)
    requires 1000 <= t.year <= 9999
    ensures IsIcsForm(IcsStamp(t))
    ensures DigitField(IcsStamp(t), 0, 4) == t.year && DigitField(IcsStamp(t), 4, 6) == t.month
    ensures DigitField(IcsStamp(t), 6, 8) == t.day && DigitField(IcsStamp(t), 9, 11) == t.hour
    ensures DigitField(IcsStamp(t), 11, 13) == t.minute && DigitField(IcsStamp(t), 13, 15) == t.second
  {
    FourDigitYear(t.year);
    TwoDigits(t.month);
    TwoDigits(t.day);
    TwoDigits(t.hour);
    TwoDigits(t.minute);
    TwoDigits(t.second);
    FormOfGroups(IntToString(t.year), PadNat(t.month, 2), PadNat(t.day, 2), PadNat(t.hour, 2), PadNat(t.minute, 2), PadNat(t.second, 2));
  }

  /**
   * For a year of four digits, `toICSDateTime` prints the `\d{8}T\d{6}Z` form and
   * `fromICSDateTime` reads it back as the same UTC instant cut to the whole second.
   */
  lemma IcsStampReadsBack(t: Instant)
    requires 1000 <= t.year <= 9999
    ensures IsIcsForm(IcsStamp(t))
    ensures IcsInstant(IcsStamp(t)) == Some(WholeSecond(t))
  {
    StampFields(t);
    FromFieldsInRange(WholeSecond(t));
  }

  /** Printing the ISO text of an instant of a four-digit year gives its `IcsStamp`. */
  lemma ToIcsDateTimeOfIso(t: Instant)
    requires 1000 <= t.year <= 9999
    ensures ToIcsDateTime(ToIsoString(t)) == IcsStamp(t)
  {
    ParseToIsoString(t);
  }

  /** `fromICSDateTime(toICSDateTime(t.toISOString()))` is the ISO text of `t` cut to the second. */
  lemma IcsDateTimeRoundTrip(t: Instant)
    requires 1000 <= t.year <= 9999
    ensures FromIcsDateTime(ToIcsDateTime(ToIsoString(t))) == Some(ToIsoString(WholeSecond(t)))
  {
    ToIcsDateTimeOfIso(t);
    IcsStampReadsBack(t);
  }

  // ---- Recurrence rules ----

  /** The recurrence names that have a rule. */
  const KnownRecurrences: set<string> := {"daily", "weekly", "monthly", "yearly"}

  /** `recurrenceToRRule(recurrence)`: a rule for the four known names in any letter case, else null. */
  function RecurrenceToRRule(recurrence: string): (r: Option<string>)
    ensures r.Some? <==> ToLower(recurrence) in KnownRecurrences
  {
    var name := ToLower(recurrence);
    if name == "daily" then Some("FREQ=DAILY")
    else if name == "weekly" then Some("FREQ=WEEKLY")
    else if name == "monthly" then Some("FREQ=MONTHLY")
    else if name == "yearly" then Some("FREQ=YEARLY")
    else None
  }

  /** The longest prefix without a semicolon. */
  function UntilSemicolon(s: string): (r: string)
    ensures |r| <= |s| && r == s[..|r|] && ';' !in r
    ensures |r| < |s| ==> s[|r|] == ';'
  {
    if s == [] || s[0] == ';' then []
    else
      var r := [s[0]] + UntilSemicolon(s[1..]);
      assert s == [s[0]] + s[1..];
      r
  }

  /** `FREQ=` in any letter case, followed by one character that is not a semicolon. */
  predicate FreqAt(s: string) {
    |s| >= 6 && ToUpper(s[..5]) == "FREQ=" && s[5] != ';'
  }

  /** The first match of `/FREQ=([^;]+)/i`: its captured group. */
  function FreqValue(s: string): (r: Option<string>)
    ensures r.Some? ==> r.value != [] && ';' !in r.value
    decreases |s|
  {
    if |s| < 6 then None
    else if FreqAt(s) then Some(UntilSemicolon(s[5..]))
    else FreqValue(s[1..])
  }

  /** The recurrence name of an upper-cased frequency. */
  function FreqName(freq: string): string {
    if freq == "DAILY" then "daily"
    else if freq == "WEEKLY" then "weekly"
    else if freq == "MONTHLY" then "monthly"
    else if freq == "YEARLY" then "yearly"
    else "none"
  }

  /** `rruleToRecurrence(rrule)`, with an absent rule written as the empty text. */
  function RRuleToRecurrence(rrule: string): (r: string)
    ensures r == "none" || r in KnownRecurrences
  {
    if rrule == "" then "none"
    else
      match FreqValue(rrule)
      case None => "none"
      case Some(f) => FreqName(ToUpper(f))
  }

  /** The `RRULE` text of an exported event, the empty text when there is none. */
  function RRuleText(recurrence: string): string {
    match RecurrenceToRRule(recurrence)
    case None => ""
    case Some(rule) => rule
  }

  /**
   * What an exported recurrence reads back as: the known names lower-cased, every other
   * value (no `RRULE` line) as `none`.
   */
  lemma RRuleRoundTrip(recurrence: string)
    ensures RRuleToRecurrence(RRuleText(recurrence))
         == if ToLower(recurrence) in KnownRecurrences then ToLower(recurrence) else "none"
  {
    var name := ToLower(recurrence);
    KnownRulesReadBack();
    if name == "daily" {
      assert RRuleText(recurrence) == "FREQ=DAILY";
    } else if name == "weekly" {
      assert RRuleText(recurrence) == "FREQ=WEEKLY";
    } else if name == "monthly" {
      assert RRuleText(recurrence) == "FREQ=MONTHLY";
    } else if name == "yearly" {
      assert RRuleText(recurrence) == "FREQ=YEARLY";
    } else {
      assert RRuleText(recurrence) == "";
    }
  }

  /** The four rules the exporter writes read back as their recurrence names. */
  lemma KnownRulesReadBack()
    ensures RRuleToRecurrence("FREQ=DAILY") == "daily" && RRuleToRecurrence("FREQ=WEEKLY") == "weekly"
    ensures RRuleToRecurrence("FREQ=MONTHLY") == "monthly" && RRuleToRecurrence("FREQ=YEARLY") == "yearly"
  {
    DailyReadsBack();
    WeeklyReadsBack();
    MonthlyReadsBack();
    YearlyReadsBack();
  }

  lemma DailyReadsBack()
    ensures RRuleToRecurrence("FREQ=DAILY") == "daily"
  {
    var f := "DAILY";
    forall i | 0 <= i < |f|
      ensures 'A' <= f[i] <= 'Z'
    {
      assert i == 0 || i == 1 || i == 2 || i == 3 || i == 4;
    }
    RuleReadsBack("FREQ=DAILY", f, "daily");
  }

  lemma WeeklyReadsBack()
    ensures RRuleToRecurrence("FREQ=WEEKLY") == "weekly"
  {
    var f := "WEEKLY";
    forall i | 0 <= i < |f|
      ensures 'A' <= f[i] <= 'Z'
    {
      assert i == 0 || i == 1 || i == 2 || i == 3 || i == 4 || i == 5;
    }
    RuleReadsBack("FREQ=WEEKLY", f, "weekly");
  }

  lemma MonthlyReadsBack()
    ensures RRuleToRecurrence("FREQ=MONTHLY") == "monthly"
  {
    var f := "MONTHLY";
    forall i | 0 <= i < |f|
      ensures 'A' <= f[i] <= 'Z'
    {
      assert i == 0 || i == 1 || i == 2 || i == 3 || i == 4 || i == 5 || i == 6;
    }
    RuleReadsBack("FREQ=MONTHLY", f, "monthly");
  }

  lemma YearlyReadsBack()
    ensures RRuleToRecurrence("FREQ=YEARLY") == "yearly"
  {
    var f := "YEARLY";
    forall i | 0 <= i < |f|
      ensures 'A' <= f[i] <= 'Z'
    {
      assert i == 0 || i == 1 || i == 2 || i == 3 || i == 4 || i == 5;
    }
    RuleReadsBack("FREQ=YEARLY", f, "yearly");
  }

  /** A rule `FREQ=X` of capital letters reads back as X's recurrence name. */
  lemma RuleReadsBack(rule: string, freq: string, name: string)
    requires rule == "FREQ=" + freq && |freq| >= 1 && freq[0] != ';' && ';' !in freq
    requires forall i :: 0 <= i < |freq| ==> 'A' <= freq[i] <= 'Z'
    requires FreqName(freq) == name
    ensures RRuleToRecurrence(rule) == name
  {
    FreqOfRule(rule, freq);
  }

  /** A rule written by `recurrenceToRRule` captures its frequency. */
  lemma FreqOfRule(rule: string, freq: string)
    requires rule == "FREQ=" + freq && |freq| >= 1 && freq[0] != ';' && ';' !in freq
    requires forall i :: 0 <= i < |freq| ==> 'A' <= freq[i] <= 'Z'
    ensures FreqValue(rule) == Some(freq) && ToUpper(freq) == freq
  {
    assert rule[..5] == "FREQ=";
    assert ToUpper("FREQ=") == "FREQ=";
    assert rule[5..] == freq;
    UntilNoSemicolon(freq);
  }

  lemma {:induction false} UntilNoSemicolon(s: string)
    requires ';' !in s
    ensures UntilSemicolon(s) == s
    decreases |s|
  {
    if s != [] {
      assert ';' !in s[1..] by {
        assert forall c :: c in s[1..] ==> c in s;
      }
      UntilNoSemicolon(s[1..]);
    }
  }

  /** Upper-casing commutes with dropping a prefix. */
  lemma UpperDrop(s: string, a: nat)
    requires a <= |s|
    ensures ToUpper(s[a..]) == ToUpper(s)[a..]
  {
  }

  /** Upper-casing commutes with taking a prefix. */
  lemma UpperTake(s: string, b: nat)
    requires b <= |s|
    ensures ToUpper(s[..b]) == ToUpper(s)[..b]
  {
  }

  /** Upper-casing keeps semicolons and makes no new ones. */
  lemma UpperSemicolon(c: char)
    ensures UpperChar(c) == ';' <==> c == ';'
  {
  }

  /** Texts equal up to letter case have semicolon-free prefixes equal up to letter case. */
  lemma {:induction false} UntilSemicolonUpper(s: string, t: string)
    requires ToUpper(s) == ToUpper(t)
    ensures ToUpper(UntilSemicolon(s)) == ToUpper(UntilSemicolon(t))
    decreases |s|
  {
    assert |s| == |ToUpper(s)| == |ToUpper(t)| == |t|;
    if s != [] {
      assert UpperChar(s[0]) == ToUpper(s)[0] == ToUpper(t)[0] == UpperChar(t[0]);
      UpperSemicolon(s[0]);
      UpperSemicolon(t[0]);
      if s[0] != ';' {
        UpperDrop(s, 1);
        UpperDrop(t, 1);
        UntilSemicolonUpper(s[1..], t[1..]);
        var a, b := UntilSemicolon(s[1..]), UntilSemicolon(t[1..]);
        assert UntilSemicolon(s) == [s[0]] + a && UntilSemicolon(t) == [t[0]] + b;
        UpperCons(s[0], a);
        UpperCons(t[0], b);
      }
    }
  }

  /** Upper-casing a text with a first character upper-cases that character and the rest. */
  lemma UpperCons(c: char, a: string)
    ensures ToUpper([c] + a) == [UpperChar(c)] + ToUpper(a)
  {
  }

  /** The `FREQ` match and its upper-cased value depend only on the upper-cased rule. */
  lemma {:induction false} FreqValueUpper(s: string, t: string)
    requires ToUpper(s) == ToUpper(t)
    ensures FreqValue(s).Some? == FreqValue(t).Some?
    ensures FreqValue(s).Some? ==> ToUpper(FreqValue(s).value) == ToUpper(FreqValue(t).value)
    decreases |s|
  {
    if |s| >= 6 {
      UpperTake(s, 5);
      UpperTake(t, 5);
      assert ToUpper(s)[5] == ToUpper(t)[5];
      UpperSemicolon(s[5]);
      UpperSemicolon(t[5]);
      assert FreqAt(s) == FreqAt(t);
      if FreqAt(s) {
        UpperDrop(s, 5);
        UpperDrop(t, 5);
        UntilSemicolonUpper(s[5..], t[5..]);
      } else {
        UpperDrop(s, 1);
        UpperDrop(t, 1);
        FreqValueUpper(s[1..], t[1..]);
      }
    }
  }

  /** Rules that differ only in letter case name the same recurrence. */
  lemma RRuleCaseInsensitive(s: string, t: string)
    requires ToUpper(s) == ToUpper(t)
    ensures RRuleToRecurrence(s) == RRuleToRecurrence(t)
  {
    FreqValueUpper(s, t);
  }
}
