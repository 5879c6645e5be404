/**
 * The date-time string format of ECMAScript (section 21.4.1.32 of ECMA-262, "Date Time
 * String Format"): what `date.toISOString()` prints and what `new Date(text)` reads.
 */
module DateStrings {
  import opened Wrappers
  import opened JsText
  import opened CivilTime

  /** The year as `toISOString` prints it: four digits for 0..9999, otherwise a sign and six digits. */
  function YearText(y: int): string {
    if 0 <= y <= 9999 then PadNat(y, 4)
    else if y < 0 then "-" + PadNat(-y, 6)
    else "+" + PadNat(y, 6)
  }

  /** `date.toISOString()`: `YYYY-MM-DDTHH:mm:ss.sssZ`. */
  function ToIsoString(t: Instant): string {
    YearText(t.year) + ("-" + (PadNat(t.month, 2) + ("-" + (PadNat(t.day, 2) + ("T" +
      (PadNat(t.hour, 2) + (":" + (PadNat(t.minute, 2) + (":" + (PadNat(t.second, 2) + ("." +
      (PadNat(t.ms, 3) + "Z"))))))))))))
  }

  // ---- Reading ----

  /** Exactly `k` leading decimal digits, their value and what follows them. */
  function Digits(s: string, k: nat): Option<(nat, string)> {
    if |s| >= k && AllDigits(s[..k]) then Some((DigitsValue(s[..k]), s[k..])) else None
  }

  /** What follows a leading `c`. */
  function After(c: char, s: string): Option<string> {
    if |s| > 0 && s[0] == c then Some(s[1..]) else None
  }

  /** `YYYY`, or an expanded year `+YYYYYY` / `-YYYYYY`; minus zero (`-000000`) is not a year. */
  function YearPart(s: string): Option<(int, string)> {
    if |s| > 0 && (s[0] == '+' || s[0] == '-') then
      match Digits(s[1..], 6)
      case None => None
      case Some((v, rest)) =>
        var w: int := v;
        var y := if s[0] == '-' then -w else w;
        if s[0] == '-' && v == 0 then None else Some((y, rest))
    else
      Digits(s, 4)
  }

  /** An optional `-MM`, and after it an optional `-DD`; absent fields are 1. */
  function MonthDayPart(s: string): (int, int, string) {
    match After('-', s)
    case None => (1, 1, s)
    case Some(s1) =>
      match Digits(s1, 2)
      case None => (1, 1, s)
      case Some((m, s2)) =>
        match After('-', s2)
        case None => (m, 1, s2)
        case Some(s3) =>
          match Digits(s3, 2)
          case None => (m, 1, s2)
          case Some((d, s4)) => (m, d, s4)
  }

  /** An optional `:ss`, and after it an optional `.sss`; absent fields are 0. */
  function SecondsPart(s: string): (int, int, string) {
    match After(':', s)
    case None => (0, 0, s)
    case Some(s1) =>
      match Digits(s1, 2)
      case None => (0, 0, s)
      case Some((sec, s2)) =>
        match After('.', s2)
        case None => (sec, 0, s2)
        case Some(s3) =>
          match Digits(s3, 3)
          case None => (sec, 0, s2)
          case Some((ms, s4)) => (sec, ms, s4)
  }

  /**
   * The whole rest of the text as a UTC designator: nothing (local time, which is UTC in
   * this model), `Z`, or an offset `+HH:mm` / `-HH:mm`; the result is the offset in minutes.
   */
  function ZonePart(s: string): Option<int> {
    if s == [] || s == "Z" then Some(0)
    else if s[0] == '+' || s[0] == '-' then
      match Digits(s[1..], 2)
      case None => None
      case Some((h, s1)) =>
        match After(':', s1)
        case None => None
        case Some(s2) =>
          match Digits(s2, 2)
          case None => None
          case Some((mi, s3)) =>
            if s3 != [] || h > 23 || mi > 59 then None
            else Some(if s[0] == '-' then -(h * 60 + mi) else h * 60 + mi)
    else None
  }

  /** The milliseconds since midnight that a `THH:mm[:ss[.sss]]` part names. */
  datatype Clock = Clock(hour: int, minute: int, second: int, ms: int, offsetMinutes: int)

  /** The rest of the text after the date: nothing (midnight UTC), or a time and a zone. */
  function TimePart(s: string): Option<Clock> {
    if s == [] then Some(Clock(0, 0, 0, 0, 0))
    else
      match After('T', s)
      case None => None
      case Some(s1) =>
        match Digits(s1, 2)
        case None => None
        case Some((h, s2)) =>
          match After(':', s2)
          case None => None
          case Some(s3) =>
            match Digits(s3, 2)
            case None => None
            case Some((mi, s4)) =>
              var (sec, ms, s5) := SecondsPart(s4);
              match ZonePart(s5)
              case None => None
              case Some(off) => Some(Clock(h, mi, sec, ms, off))
  }

  predicate ClockInRange(c: Clock) {
    && c.minute <= 59 && c.second <= 59
    && (c.hour <= 23 || (c.hour == 24 && c.minute == 0 && c.second == 0 && c.ms == 0))
  }

  /** The instant that validated date and clock fields denote, if they are in range. */
  function FromParts(y: int, m: int, d: int, c: Clock): Option<Instant> {
    if m < 1 || m > 12 || d < 1 || d > DaysInMonth(y, m) || !ClockInRange(c) then None
    else
      Some(MakeInstant(y, m - 1, d, ClockMs(c)))
  }

  /** Milliseconds from midnight UTC of the date to the instant the clock part names. */
  function ClockMs(c: Clock): int {
    c.hour * 3600000 + c.minute * 60000 + c.second * 1000 + c.ms - c.offsetMinutes * 60000
  }

  /**
   * `new Date(text)` for texts in the ECMAScript date-time string format; anything else
   * (including a day past the end of its month) is an invalid date, `None`.
   */
  function ParseDateString(s: string): Option<Instant> {
    match YearPart(s)
    case None => None
    case Some((y, s1)) =>
      var (m, d, s2) := MonthDayPart(s1);
      match TimePart(s2)
      case None => None
      case Some(c) => FromParts(y, m, d, c)
  }

  // ---- Round trip ----

  /** How a text splits into a date, a time and a zone decides what it denotes. */
  lemma ParseOfParts(s: string, y: int, s1: string, m: int, d: int, s2: string, c: Clock)
    requires YearPart(s) == Some((y, s1)) && MonthDayPart(s1) == (m, d, s2) && TimePart(s2) == Some(c)
    ensures ParseDateString(s) == FromParts(y, m, d, c)
  {
  }

  lemma DigitsOfPad(n: nat, k: nat, rest: string)
    requires 1 <= k && n < Pow10(k)
    ensures Digits(PadNat(n, k) + rest, k) == Some((n, rest))
  {
    NatToStringLength(n, k, Pow10(k));
    PadNatValue(n, k);
    var p := PadNat(n, k);
    assert (p + rest)[..k] == p;
    assert (p + rest)[k..] == rest;
  }

  lemma YearPartOfYearText(y: int, rest: string)
    requires -1000000 < y < 1000000
    ensures YearPart(YearText(y) + rest) == Some((y, rest))
  {
    if 0 <= y <= 9999 {
      assert Pow10(4) == 10000;
      DigitsOfPad(y, 4, rest);
      var p := PadNat(y, 4);
      assert IsDigit((p + rest)[0]);
    } else {
      SignedYearPart(y, rest);
    }
  }

  /** A year outside 0..9999 is read back from its sign and six digits. */
  lemma SignedYearPart(y: int, rest: string)
    requires -1000000 < y < 1000000 && !(0 <= y <= 9999)
    ensures YearPart(YearText(y) + rest) == Some((y, rest))
  {
    assert Pow10(6) == 1000000;
    var v: nat := if y < 0 then -y else y;
    var sign := if y < 0 then "-" else "+";
    DigitsOfPad(v, 6, rest);
    assert YearText(y) + rest == sign + (PadNat(v, 6) + rest);
    assert (sign + (PadNat(v, 6) + rest))[1..] == PadNat(v, 6) + rest;
  }

  lemma MonthDayOfPad(m: nat, d: nat, rest: string)
    requires m < 100 && d < 100
    requires rest != [] && rest[0] != '-'
    ensures MonthDayPart("-" + (PadNat(m, 2) + ("-" + (PadNat(d, 2) + rest)))) == (m, d, rest)
  {
    assert Pow10(2) == 100;
    var s3 := PadNat(d, 2) + rest;
    var s1 := PadNat(m, 2) + ("-" + s3);
    DigitsOfPad(m, 2, "-" + s3);
    DigitsOfPad(d, 2, rest);
    assert ("-" + s1)[1..] == s1;
    assert ("-" + s3)[1..] == s3;
  }

  lemma SecondsOfPad(sec: nat, ms: nat)
    requires sec < 100 && ms < 1000
    ensures SecondsPart(":" + (PadNat(sec, 2) + ("." + (PadNat(ms, 3) + "Z")))) == (sec, ms, "Z")
  {
    assert Pow10(2) == 100 && Pow10(3) == 1000;
    var s3 := PadNat(ms, 3) + "Z";
    var s1 := PadNat(sec, 2) + ("." + s3);
    DigitsOfPad(sec, 2, "." + s3);
    DigitsOfPad(ms, 3, "Z");
    assert (":" + s1)[1..] == s1;
    assert ("." + s3)[1..] == s3;
  }

  lemma HourMinuteOfPad(h: nat, mi: nat, rest: string)
    requires h < 100 && mi < 100
    ensures
      var s := "T" + (PadNat(h, 2) + (":" + (PadNat(mi, 2) + rest)));
      After('T', s).Some? && Digits(After('T', s).value, 2) == Some((h, ":" + (PadNat(mi, 2) + rest)))
      && Digits((":" + (PadNat(mi, 2) + rest))[1..], 2) == Some((mi, rest))
  {
    assert Pow10(2) == 100;
    var s3 := PadNat(mi, 2) + rest;
    var s1 := PadNat(h, 2) + (":" + s3);
    DigitsOfPad(h, 2, ":" + s3);
    DigitsOfPad(mi, 2, rest);
    assert ("T" + s1)[1..] == s1;
    assert (":" + s3)[1..] == s3;
  }

  lemma TimeOfPad(t: Instant)
    ensures TimePart("T" + (PadNat(t.hour, 2) + (":" + (PadNat(t.minute, 2) + (":" + (PadNat(t.second, 2)
      + ("." + (PadNat(t.ms, 3) + "Z")))))))) == Some(Clock(t.hour, t.minute, t.second, t.ms, 0))
  {
    var s5 := ":" + (PadNat(t.second, 2) + ("." + (PadNat(t.ms, 3) + "Z")));
    HourMinuteOfPad(t.hour, t.minute, s5);
    SecondsOfPad(t.second, t.ms);
    assert ZonePart("Z") == Some(0);
  }

  /** An instant's own fields, given to the `Date` constructor, rebuild it. */
  lemma MakeInstantOfFields(t: Instant)
    ensures MakeInstant(t.year, t.month - 1, t.day, MsOfDay(t)) == t
  {
    var r := MakeInstant(t.year, t.month - 1, t.day, MsOfDay(t));
    assert MonthSplit(t.month - 1) == (0, t.month);
    assert TimeValue(r) == TimeValue(t);
    TimeValueInjective(r, t);
  }

  lemma FromPartsOfFields(t: Instant)
    ensures FromParts(t.year, t.month, t.day, Clock(t.hour, t.minute, t.second, t.ms, 0)) == Some(t)
  {
    var c := Clock(t.hour, t.minute, t.second, t.ms, 0);
    assert ClockMs(c) == MsOfDay(t);
    MakeInstantOfFields(t);
  }

  /** `new Date(d.toISOString())` is `d` again, for every year `toISOString` can print in six digits. */
  lemma ParseToIsoString(t: Instant)
    requires -1000000 < t.year < 1000000
    ensures ParseDateString(ToIsoString(t)) == Some(t)
  {
    var time := "T" + (PadNat(t.hour, 2) + (":" + (PadNat(t.minute, 2) + (":" + (PadNat(t.second, 2)
      + ("." + (PadNat(t.ms, 3) + "Z")))))));
    var tail := "-" + (PadNat(t.month, 2) + ("-" + (PadNat(t.day, 2) + time)));
    assert ToIsoString(t) == YearText(t.year) + tail;
    YearPartOfYearText(t.year, tail);
    MonthDayOfPad(t.month, t.day, time);
    TimeOfPad(t);
    FromPartsOfFields(t);
    ParseOfParts(ToIsoString(t), t.year, tail, t.month, t.day, time, Clock(t.hour, t.minute, t.second, t.ms, 0));
  }
}
