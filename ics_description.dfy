/**
 * The description of an exported event. Besides the appointment's own description it
 * carries the fields iCalendar has no property for, one `KEY:value` line each; the
 * importer reads them back line by line and falls back to defaults for what is missing.
 */
module IcsDescription {
  import opened Wrappers
  import opened JsText
  import opened IcsText
  import opened Appointments

  /** What `parseDescription` returns. */
  datatype Details = Details(
    description: string,
    category: string,
    tags: seq<string>,
    contact: seq<string>,
    location: string,
    url: string,
    status: string,
    attendees: seq<string>,
    timezone: string,
    allDay: bool,
    calendarId: string,
    reminderMinutes: Option<int>)

  /** The details before any line is read. */
  const DefaultDetails: Details :=
    Details("", "general", [], [], "", "", "confirmed", [], "UTC", false, "default", None)

  /** A key of a description line: a name without a colon, then the colon. */
  predicate ColonKey(key: string) {
    |key| >= 1 && key[|key| - 1] == ':' && ':' !in key[..|key| - 1]
  }

  /** The line up to and including its first colon; empty when it has none. */
  function KeyOf(line: string): (r: string)
    ensures r == "" || (ColonKey(r) && StartsWith(line, r))
    decreases |line|
  {
    if line == [] then ""
    else if line[0] == ':' then ":"
    else
      var k := KeyOf(line[1..]);
      if k == "" then ""
      else
        assert (([line[0]] + k)[..|k|]) == [line[0]] + k[..|k| - 1];
        [line[0]] + k
  }

  /** A line starts with a key exactly when its text up to the first colon is that key. */
  lemma {:induction false} StartsWithKey(line: string, key: string)
    requires ColonKey(key)
    ensures StartsWith(line, key) <==> KeyOf(line) == key
    decreases |line|
  {
    if line != [] && line[0] != ':' && |key| > 1 && key[0] == line[0] {
      var k := key[1..];
      assert k[..|k| - 1] == key[1..|key| - 1];
      assert ':' !in k[..|k| - 1] by {
        var name := key[..|key| - 1];
        assert k[..|k| - 1] == name[1..];
        assert forall c :: c in name[1..] ==> c in name;
      }
      StartsWithKey(line[1..], k);
      assert StartsWith(line, key) <==> StartsWith(line[1..], k);
      assert key == [key[0]] + k;
    } else if line != [] && line[0] != ':' && |key| > 1 {
      assert key[0] in key[..|key| - 1];
    } else if line != [] && line[0] == ':' && |key| > 1 {
      assert key[0] in key[..|key| - 1];
    }
  }

  /** The keys `parseDescription` looks for, in the order it tries them. */
  datatype Key = Category | Tags | Contact | Location | Url | Status | Attendees | Timezone
               | AllDay | CalendarId | ReminderMinutes | Detail

  function KeyName(k: Key): string {
    match k
    case Category => "CATEGORY:"
    case Tags => "TAGS:"
    case Contact => "CONTACT:"
    case Location => "LOCATION:"
    case Url => "URL:"
    case Status => "STATUS:"
    case Attendees => "ATTENDEES:"
    case Timezone => "TIMEZONE:"
    case AllDay => "ALLDAY:"
    case CalendarId => "CALENDARID:"
    case ReminderMinutes => "REMINDERMINUTES:"
    case Detail => "DETAIL:"
  }

  /** The key whose text is `s`, if any. */
  function KeyNamed(s: string): (r: Option<Key>)
    ensures r.Some? ==> KeyName(r.value) == s
  {
    if s == "CATEGORY:" then Some(Category)
    else if s == "TAGS:" then Some(Tags)
    else if s == "CONTACT:" then Some(Contact)
    else if s == "LOCATION:" then Some(Location)
    else if s == "URL:" then Some(Url)
    else if s == "STATUS:" then Some(Status)
    else if s == "ATTENDEES:" then Some(Attendees)
    else if s == "TIMEZONE:" then Some(Timezone)
    else if s == "ALLDAY:" then Some(AllDay)
    else if s == "CALENDARID:" then Some(CalendarId)
    else if s == "REMINDERMINUTES:" then Some(ReminderMinutes)
    else if s == "DETAIL:" then Some(Detail)
    else None
  }

  /** Each key's text names it and nothing else, and has its only colon at its end. */
  lemma KeyNamedOf(k: Key)
    ensures KeyNamed(KeyName(k)) == Some(k)
    ensures ColonKey(KeyName(k))
  {
    KeyColon(k);
  }

  lemma KeyColon(k: Key)
    ensures ColonKey(KeyName(k))
  {
    var key := KeyName(k);
    assert forall j :: 0 <= j < |key| - 1 ==> 'A' <= key[j] <= 'Z';
  }

  /** The key of a line is `k` exactly when `line.startsWith` that key's text. */
  function LineKey(line: string): Option<Key> {
    KeyNamed(KeyOf(line))
  }

  lemma LineKeyStarts(line: string, k: Key)
    ensures LineKey(line) == Some(k) <==> StartsWith(line, KeyName(k))
  {
    KeyNamedOf(k);
    StartsWithKey(line, KeyName(k));
  }

  /** What follows the key: `line.replace(key, '')` for a line that starts with it. */
  function After(line: string, key: string): (r: string)
    requires StartsWith(line, key)
    ensures line == key + r
  {
    line[|key|..]
  }

  /** A line made of a key and a value has that key. */
  lemma {:induction false} KeyOfKeyed(key: string, v: string)
    requires ColonKey(key)
    ensures KeyOf(key + v) == key && After(key + v, key) == v
  {
    StartsWithKey(key + v, key);
    assert (key + v)[..|key|] == key;
  }

  /** `text.split(',').map((v) => v.trim()).filter(Boolean)`. */
  function ListOf(text: string): seq<string> {
    TrimParts(Split(text, ','))
  }

  /**
   * The reminder of a `REMINDERMINUTES:` line as written: `Number` of the trimmed text when
   * it is a finite number of at least 0. `Number('')` is 0, so an empty value is a reminder
   * at 0 minutes.
   */
  function ReminderAsWritten(text: string): Option<int> {
    match NumberOf(Trim(text))
    case NaN => None
    case Num(v) => if v >= 0 then Some(v) else None
  }

  /** The reminder with an empty value read as no reminder, which is how the exporter writes none. */
  function Reminder(text: string): Option<int> {
    if Trim(text) == "" then None else ReminderAsWritten(text)
  }

  /** The reminder under a reading. */
  function ReminderBy(how: Reading, text: string): Option<int> {
    if how == AsWritten then ReminderAsWritten(text) else Reminder(text)
  }

  /** `value.trim().toLowerCase() === 'true'`. */
  predicate TrueText(v: string) {
    ToLower(Trim(v)) == "true"
  }

  /** What a line with one of the keys does to the details: it sets that key's field from the value. */
  function KeyedLine(how: Reading, d: Details, k: Key, v: string): Details {
    match k
    case Category => d.(category := OrText(Trim(v), "general"))
    case Tags => d.(tags := ListOf(v))
    case Contact => d.(contact := ListOf(v))
    case Location => d.(location := Trim(v))
    case Url => d.(url := Trim(v))
    case Status => d.(status := OrText(ToLower(Trim(v)), "confirmed"))
    case Attendees => d.(attendees := ListOf(v))
    case Timezone => d.(timezone := OrText(Trim(v), "UTC"))
    case AllDay => d.(allDay := TrueText(v))
    case CalendarId => d.(calendarId := OrText(Trim(v), "default"))
    case ReminderMinutes => d.(reminderMinutes := ReminderBy(how, v))
    case Detail => d.(description := Trim(v))
  }

  /**
   * One line of the decoded description: the first key it starts with sets its field
   * (`LineKeyStarts` shows that the text up to the first colon tells which).
   */
  function DescriptionLine(how: Reading, d: Details, line: string): Details {
    match LineKey(line)
    case None => d
    case Some(k) => LineKeyStarts(line, k); KeyedLine(how, d, k, After(line, KeyName(k)))
  }

  /** The details after reading `lines` in order, starting from `d`. */
  function DetailsFrom(how: Reading, lines: seq<string>, d: Details): Details
    decreases |lines|
  {
    if lines == [] then d else DetailsFrom(how, lines[1..], DescriptionLine(how, d, lines[0]))
  }

  /** Some line has the key `DETAIL:`. */
  predicate HasDetailLine(lines: seq<string>)
    decreases |lines|
  {
    lines != [] && (LineKey(lines[0]) == Some(Detail) || HasDetailLine(lines[1..]))
  }

  /** The last step as written: an empty description is replaced by the whole decoded text. */
  function FinishAsWritten(d: Details, decoded: string): Details {
    if d.description == "" then d.(description := decoded) else d
  }

  /** The last step as intended: the whole decoded text stands in only when no `DETAIL:` line was there. */
  function Finish(d: Details, lines: seq<string>, decoded: string): Details {
    if d.description == "" && !HasDetailLine(lines) then d.(description := decoded) else d
  }

  /**
   * `parseDescription(description)` for an event's raw `DESCRIPTION` value, under a reading:
   * as written, the four-pass unescaping, `Number` of an empty reminder and the fallback of
   * an empty description to the whole decoded text; as intended, the one-pass unescaping,
   * an empty reminder read as none and the fallback only when no `DETAIL:` line was there.
   */
  function DescriptionOf(how: Reading, description: string): Details {
    var decoded := Unescape(how, description);
    var lines := Split(decoded, '\n');
    var d := DetailsFrom(how, lines, DefaultDetails);
    if how == AsWritten then FinishAsWritten(d, decoded) else Finish(d, lines, decoded)
  }

  /** `parseDescription`: one pass over the decoded lines, each setting at most one field. */
  method ParseDescription(description: string) returns (details: Details)
    ensures details == DescriptionOf(AsWritten, description)
  {
    var decoded := UnescapeIcsAsWritten(description);
    var lines := Split(decoded, '\n');
    details := DefaultDetails;
    var i := 0;
    while i < |lines|
      invariant 0 <= i <= |lines|
      invariant DetailsFrom(AsWritten, lines[i..], details) == DetailsFrom(AsWritten, lines, DefaultDetails)
    {
      var line := lines[i];
      assert lines[i..][0] == line && lines[i..][1..] == lines[i + 1..];
      match LineKey(line) {
      case None =>
      case Some(k) =>
        LineKeyStarts(line, k);
        var v := After(line, KeyName(k));
        match k {
        case Category => details := details.(category := OrText(Trim(v), "general"));
        case Tags => details := details.(tags := ListOf(v));
        case Contact => details := details.(contact := ListOf(v));
        case Location => details := details.(location := Trim(v));
        case Url => details := details.(url := Trim(v));
        case Status => details := details.(status := OrText(ToLower(Trim(v)), "confirmed"));
        case Attendees => details := details.(attendees := ListOf(v));
        case Timezone => details := details.(timezone := OrText(Trim(v), "UTC"));
        case AllDay => details := details.(allDay := TrueText(v));
        case CalendarId => details := details.(calendarId := OrText(Trim(v), "default"));
        case ReminderMinutes => details := details.(reminderMinutes := ReminderAsWritten(v));
        case Detail => details := details.(description := Trim(v));
        }
      }
      i := i + 1;
    }
    if details.description == "" {
      details := details.(description := decoded);
    }
  }

  // ---- The description block the exporter writes ----

  /** `String(reminderMinutes)`, the empty text for none. */
  function ReminderText(r: Option<JsNum>): string {
    match r
    case None => ""
    case Some(n) => JsText.NumText(n)
  }

  /** The keyed values of the description `stateToICS` writes for an appointment, in order. */
  function DescriptionPairs(item: Appointment): seq<(Key, string)> {
    [ (Detail, item.description),
      (Category, OrText(item.category, "general")),
      (Tags, JoinWith(item.tags, ",")),
      (Contact, JoinWith(item.contact, ",")),
      (Timezone, OrText(item.timezone, "UTC")),
      (AllDay, if item.allDay then "true" else "false"),
      (CalendarId, OrText(item.calendarId, "default")),
      (ReminderMinutes, ReminderText(item.reminderMinutes)),
      (Location, item.location),
      (Url, item.url),
      (Status, OrText(item.status, "confirmed")),
      (Attendees, JoinWith(item.attendees, ",")) ]
  }

  /** Each pair written as one line: the key, then the value. */
  function LinesOf(pairs: seq<(Key, string)>): (r: seq<string>)
    ensures |r| == |pairs|
    decreases |pairs|
  {
    if pairs == [] then [] else [KeyName(pairs[0].0) + pairs[0].1] + LinesOf(pairs[1..])
  }

  /** The lines of the description `stateToICS` writes for an appointment. */
  function DescriptionLines(item: Appointment): seq<string> {
    LinesOf(DescriptionPairs(item))
  }

  /** The description text before escaping: the lines joined with line breaks. */
  function DescriptionBlock(item: Appointment): string {
    JoinWith(DescriptionLines(item), "\n")
  }

  predicate NoBreakItems(xs: seq<string>) {
    forall i :: 0 <= i < |xs| ==> '\n' !in xs[i] && ',' !in xs[i]
  }

  /** The appointment's fields fit on their description lines: no line breaks, no commas in list items. */
  predicate OneLineFields(item: Appointment) {
    && '\n' !in item.description && '\n' !in item.category && '\n' !in item.timezone
    && '\n' !in item.calendarId && '\n' !in item.location && '\n' !in item.url && '\n' !in item.status
    && NoBreakItems(item.tags) && NoBreakItems(item.contact) && NoBreakItems(item.attendees)
  }

  /** The reminder a written reminder reads back as: a number of at least 0. */
  function ReadBackReminder(r: Option<JsNum>): Option<int> {
    match r
    case Some(Num(v)) => if v >= 0 then Some(v) else None
    case _ => None
  }

  /** The details an exported appointment reads back as: trimmed, with the same defaults. */
  function ExportedDetails(item: Appointment): Details {
    Details(
      Trim(item.description),
      OrText(Trim(item.category), "general"),
      TrimParts(item.tags),
      TrimParts(item.contact),
      Trim(item.location),
      Trim(item.url),
      OrText(ToLower(Trim(item.status)), "confirmed"),
      TrimParts(item.attendees),
      OrText(Trim(item.timezone), "UTC"),
      item.allDay,
      OrText(Trim(item.calendarId), "default"),
      ReadBackReminder(item.reminderMinutes))
  }

  // ---- Reading the block back ----

  /** A line made of one of the keys and a value sets that key's field from the value. */
  lemma LineOfKey(d: Details, k: Key, v: string)
    ensures DescriptionLine(Intended, d, KeyName(k) + v) == KeyedLine(Intended, d, k, v)
  {
    KeyNamedOf(k);
    KeyOfKeyed(KeyName(k), v);
  }

  /** Reading a written reminder gives the reminder back when it is a number of at least 0. */
  lemma ReminderReadsBack(r: Option<JsNum>)
    ensures Reminder(ReminderText(r)) == ReadBackReminder(r)
  {
    match r
    case None =>
      assert Trim("") == "";
    case Some(NaN) =>
      var t := "NaN";
      assert t[0] == 'N' && t[|t| - 1] == 'N';
      TrimUnchanged(t);
      NumberOfNaNText();
    case Some(Num(v)) =>
      IntToStringTrimmed(v);
      NumberOfIntToString(v);
  }

  /** The exporter writes an empty reminder for none, and as written the importer reads it as a reminder at 0 minutes. */
  lemma ReminderAsWrittenReadsNoneAsZero()
    ensures ReminderText(None) == ""
    ensures ReminderAsWritten(ReminderText(None)) == Some(0)
    ensures Reminder(ReminderText(None)) == None
  {
    assert Trim("") == "";
  }

  lemma TrimWord(t: string)
    requires t == "true" || t == "false"
    ensures Trim(t) == t
  {
    TrimUnchanged(t);
  }

  lemma LowerTrue(t: string)
    requires t == "true"
    ensures ToLower(t) == "true"
  {
    var l := ToLower(t);
    assert l[0] == 't' && l[1] == 'r' && l[2] == 'u' && l[3] == 'e';
  }

  lemma LowerFalse(t: string)
    requires t == "false"
    ensures ToLower(t) != "true"
  {
    assert |ToLower(t)| == 5;
  }

  /** The flag reads back as it was written. */
  lemma AllDayReadsBack(t: string)
    requires t == "true" || t == "false"
    ensures TrueText(t) <==> t == "true"
  {
    TrimWord(t);
    if t == "true" {
      LowerTrue(t);
    } else {
      LowerFalse(t);
    }
  }

  /** The details after setting each pair's field in order. */
  function SetAll(pairs: seq<(Key, string)>, d: Details): Details
    decreases |pairs|
  {
    if pairs == [] then d else SetAll(pairs[1..], KeyedLine(Intended, d, pairs[0].0, pairs[0].1))
  }

  /** Reading the lines written from pairs sets each pair's field in order. */
  lemma {:induction false} ReadPairs(pairs: seq<(Key, string)>, d: Details)
    ensures DetailsFrom(Intended, LinesOf(pairs), d) == SetAll(pairs, d)
    decreases |pairs|
  {
    if pairs != [] {
      var ls := LinesOf(pairs);
      assert ls[0] == KeyName(pairs[0].0) + pairs[0].1 && ls[1..] == LinesOf(pairs[1..]);
      LineOfKey(d, pairs[0].0, pairs[0].1);
      ReadPairs(pairs[1..], KeyedLine(Intended, d, pairs[0].0, pairs[0].1));
    }
  }

  /** Setting the field of the pair at `k`, then the rest. */
  lemma SetStep(ps: seq<(Key, string)>, k: nat, d: Details, e: Details)
    requires k < |ps| && KeyedLine(Intended, d, ps[k].0, ps[k].1) == e
    ensures SetAll(ps[k..], d) == SetAll(ps[k + 1..], e)
  {
    assert ps[k..][0] == ps[k] && ps[k..][1..] == ps[k + 1..];
  }

  /** The keys in the order the exporter writes them. */
  predicate ExportOrder(ps: seq<(Key, string)>) {
    && |ps| == 12
    && ps[0].0 == Detail && ps[1].0 == Category && ps[2].0 == Tags && ps[3].0 == Contact
    && ps[4].0 == Timezone && ps[5].0 == AllDay && ps[6].0 == CalendarId && ps[7].0 == ReminderMinutes
    && ps[8].0 == Location && ps[9].0 == Url && ps[10].0 == Status && ps[11].0 == Attendees
  }

  lemma SetDetailAt(ps: seq<(Key, string)>, k: nat, d: Details)
    requires k < |ps| && ps[k].0 == Detail
    ensures SetAll(ps[k..], d) == SetAll(ps[k + 1..], d.(description := Trim(ps[k].1)))
  {
    SetStep(ps, k, d, d.(description := Trim(ps[k].1)));
  }

  lemma SetCategoryAt(ps: seq<(Key, string)>, k: nat, d: Details)
    requires k < |ps| && ps[k].0 == Category
    ensures SetAll(ps[k..], d) == SetAll(ps[k + 1..], d.(category := OrText(Trim(ps[k].1), "general")))
  {
    SetStep(ps, k, d, d.(category := OrText(Trim(ps[k].1), "general")));
  }

  lemma SetTagsAt(ps: seq<(Key, string)>, k: nat, d: Details)
    requires k < |ps| && ps[k].0 == Tags
    ensures SetAll(ps[k..], d) == SetAll(ps[k + 1..], d.(tags := ListOf(ps[k].1)))
  {
    SetStep(ps, k, d, d.(tags := ListOf(ps[k].1)));
  }

  lemma SetContactAt(ps: seq<(Key, string)>, k: nat, d: Details)
    requires k < |ps| && ps[k].0 == Contact
    ensures SetAll(ps[k..], d) == SetAll(ps[k + 1..], d.(contact := ListOf(ps[k].1)))
  {
    SetStep(ps, k, d, d.(contact := ListOf(ps[k].1)));
  }

  lemma SetTimezoneAt(ps: seq<(Key, string)>, k: nat, d: Details)
    requires k < |ps| && ps[k].0 == Timezone
    ensures SetAll(ps[k..], d) == SetAll(ps[k + 1..], d.(timezone := OrText(Trim(ps[k].1), "UTC")))
  {
    SetStep(ps, k, d, d.(timezone := OrText(Trim(ps[k].1), "UTC")));
  }

  lemma SetAllDayAt(ps: seq<(Key, string)>, k: nat, d: Details)
    requires k < |ps| && ps[k].0 == AllDay
    ensures SetAll(ps[k..], d) == SetAll(ps[k + 1..], d.(allDay := TrueText(ps[k].1)))
  {
    SetStep(ps, k, d, d.(allDay := TrueText(ps[k].1)));
  }

  lemma SetCalendarIdAt(ps: seq<(Key, string)>, k: nat, d: Details)
    requires k < |ps| && ps[k].0 == CalendarId
    ensures SetAll(ps[k..], d) == SetAll(ps[k + 1..], d.(calendarId := OrText(Trim(ps[k].1), "default")))
  {
    SetStep(ps, k, d, d.(calendarId := OrText(Trim(ps[k].1), "default")));
  }

  lemma SetReminderMinutesAt(ps: seq<(Key, string)>, k: nat, d: Details)
    requires k < |ps| && ps[k].0 == ReminderMinutes
    ensures SetAll(ps[k..], d) == SetAll(ps[k + 1..], d.(reminderMinutes := Reminder(ps[k].1)))
  {
    SetStep(ps, k, d, d.(reminderMinutes := Reminder(ps[k].1)));
  }

  lemma SetLocationAt(ps: seq<(Key, string)>, k: nat, d: Details)
    requires k < |ps| && ps[k].0 == Location
    ensures SetAll(ps[k..], d) == SetAll(ps[k + 1..], d.(location := Trim(ps[k].1)))
  {
    SetStep(ps, k, d, d.(location := Trim(ps[k].1)));
  }

  lemma SetUrlAt(ps: seq<(Key, string)>, k: nat, d: Details)
    requires k < |ps| && ps[k].0 == Url
    ensures SetAll(ps[k..], d) == SetAll(ps[k + 1..], d.(url := Trim(ps[k].1)))
  {
    SetStep(ps, k, d, d.(url := Trim(ps[k].1)));
  }

  lemma SetStatusAt(ps: seq<(Key, string)>, k: nat, d: Details)
    requires k < |ps| && ps[k].0 == Status
    ensures SetAll(ps[k..], d) == SetAll(ps[k + 1..], d.(status := OrText(ToLower(Trim(ps[k].1)), "confirmed")))
  {
    SetStep(ps, k, d, d.(status := OrText(ToLower(Trim(ps[k].1)), "confirmed")));
  }

  lemma SetAttendeesAt(ps: seq<(Key, string)>, k: nat, d: Details)
    requires k < |ps| && ps[k].0 == Attendees
    ensures SetAll(ps[k..], d) == SetAll(ps[k + 1..], d.(attendees := ListOf(ps[k].1)))
  {
    SetStep(ps, k, d, d.(attendees := ListOf(ps[k].1)));
  }

  lemma SetFirstThree(ps: seq<(Key, string)>, d: Details)
    requires |ps| == 12 && ps[0].0 == Detail && ps[1].0 == Category && ps[2].0 == Tags
    ensures SetAll(ps, d) == SetAll(ps[3..], d.(description := Trim(ps[0].1), category := OrText(Trim(ps[1].1), "general"), tags := ListOf(ps[2].1)))
  {
    var e := d;
    assert ps[0..] == ps;
    SetDetailAt(ps, 0, e);
    e := e.(description := Trim(ps[0].1));
    SetCategoryAt(ps, 1, e);
    e := e.(category := OrText(Trim(ps[1].1), "general"));
    SetTagsAt(ps, 2, e);
  }

  lemma SetSecondThree(ps: seq<(Key, string)>, d: Details)
    requires |ps| == 12 && ps[3].0 == Contact && ps[4].0 == Timezone && ps[5].0 == AllDay
    ensures SetAll(ps[3..], d) == SetAll(ps[6..], d.(contact := ListOf(ps[3].1), timezone := OrText(Trim(ps[4].1), "UTC"), allDay := TrueText(ps[5].1)))
  {
    var e := d;
    SetContactAt(ps, 3, e);
    e := e.(contact := ListOf(ps[3].1));
    SetTimezoneAt(ps, 4, e);
    e := e.(timezone := OrText(Trim(ps[4].1), "UTC"));
    SetAllDayAt(ps, 5, e);
  }

  lemma SetThirdThree(ps: seq<(Key, string)>, d: Details)
    requires |ps| == 12 && ps[6].0 == CalendarId && ps[7].0 == ReminderMinutes && ps[8].0 == Location
    ensures SetAll(ps[6..], d) == SetAll(ps[9..], d.(calendarId := OrText(Trim(ps[6].1), "default"), reminderMinutes := Reminder(ps[7].1), location := Trim(ps[8].1)))
  {
    var e := d;
    SetCalendarIdAt(ps, 6, e);
    e := e.(calendarId := OrText(Trim(ps[6].1), "default"));
    SetReminderMinutesAt(ps, 7, e);
    e := e.(reminderMinutes := Reminder(ps[7].1));
    SetLocationAt(ps, 8, e);
  }

  lemma SetLastThree(ps: seq<(Key, string)>, d: Details)
    requires |ps| == 12 && ps[9].0 == Url && ps[10].0 == Status && ps[11].0 == Attendees
    ensures SetAll(ps[9..], d) == d.(url := Trim(ps[9].1), status := OrText(ToLower(Trim(ps[10].1)), "confirmed"), attendees := ListOf(ps[11].1))
  {
    var e := d;
    SetUrlAt(ps, 9, e);
    e := e.(url := Trim(ps[9].1));
    SetStatusAt(ps, 10, e);
    e := e.(status := OrText(ToLower(Trim(ps[10].1)), "confirmed"));
    SetAttendeesAt(ps, 11, e);
    assert ps[12..] == [];
  }

  /** The details that twelve pairs in the exporter's key order set. */
  function ExportOrderDetails(ps: seq<(Key, string)>): Details
    requires |ps| == 12
  {
    Details(
      Trim(ps[0].1), OrText(Trim(ps[1].1), "general"), ListOf(ps[2].1), ListOf(ps[3].1),
      Trim(ps[8].1), Trim(ps[9].1), OrText(ToLower(Trim(ps[10].1)), "confirmed"), ListOf(ps[11].1),
      OrText(Trim(ps[4].1), "UTC"), TrueText(ps[5].1), OrText(Trim(ps[6].1), "default"), Reminder(ps[7].1))
  }

  /** Setting the fields in the order the exporter writes them. */
  lemma SetInExportOrder(ps: seq<(Key, string)>)
    requires ExportOrder(ps)
    ensures SetAll(ps, DefaultDetails) == ExportOrderDetails(ps)
  {
    var d := DefaultDetails;
    SetFirstThree(ps, d);
    d := d.(description := Trim(ps[0].1), category := OrText(Trim(ps[1].1), "general"), tags := ListOf(ps[2].1));
    SetSecondThree(ps, d);
    d := d.(contact := ListOf(ps[3].1), timezone := OrText(Trim(ps[4].1), "UTC"), allDay := TrueText(ps[5].1));
    SetThirdThree(ps, d);
    d := d.(calendarId := OrText(Trim(ps[6].1), "default"), reminderMinutes := Reminder(ps[7].1), location := Trim(ps[8].1));
    SetLastThree(ps, d);
  }

  /** A default that is its own trim stands in the same way before and after trimming. */
  lemma DefaultReadsBack(x: string, dflt: string)
    requires CleanItem(dflt)
    ensures OrText(Trim(OrText(x, dflt)), dflt) == OrText(Trim(x), dflt)
  {
    if x == "" {
      TrimUnchanged(x);
    }
  }

  lemma CleanDefaults()
    ensures CleanItem("general") && CleanItem("UTC") && CleanItem("default") && CleanItem("confirmed")
  {
    TrimUnchanged("general");
    TrimUnchanged("UTC");
    TrimUnchanged("default");
    TrimUnchanged("confirmed");
  }

  lemma LowerConfirmed(t: string)
    requires t == "confirmed"
    ensures ToLower(t) == t
  {
    var l := ToLower(t);
    assert l[0] == 'c' && l[1] == 'o' && l[2] == 'n' && l[3] == 'f' && l[4] == 'i';
    assert l[5] == 'r' && l[6] == 'm' && l[7] == 'e' && l[8] == 'd';
  }

  /** The status reads back lower-cased, `confirmed` standing in for an empty one. */
  lemma StatusReadsBack(x: string)
    ensures OrText(ToLower(Trim(OrText(x, "confirmed"))), "confirmed") == OrText(ToLower(Trim(x)), "confirmed")
  {
    if x == "" {
      CleanDefaults();
      LowerConfirmed("confirmed");
      TrimUnchanged(x);
    }
  }

  /** What the exporter's pairs set is what the appointment holds, trimmed. */
  lemma PairsReadBack(item: Appointment)
    requires OneLineFields(item)
    ensures ExportOrder(DescriptionPairs(item))
    ensures ExportOrderDetails(DescriptionPairs(item)) == ExportedDetails(item)
  {
    PairsTextsBack(item);
    PairsListsBack(item);
  }

  /** The defaulted texts and the status. */
  lemma PairsTextsBack(item: Appointment)
    requires OneLineFields(item)
    ensures var r, x := ExportOrderDetails(DescriptionPairs(item)), ExportedDetails(item);
      && r.category == x.category && r.timezone == x.timezone
      && r.calendarId == x.calendarId && r.status == x.status
  {
    var r := ExportOrderDetails(DescriptionPairs(item));
    var x := ExportedDetails(item);
    CleanDefaults();
    assert r.category == x.category by {
      DefaultReadsBack(item.category, "general");
    }
    assert r.timezone == x.timezone by {
      DefaultReadsBack(item.timezone, "UTC");
    }
    assert r.calendarId == x.calendarId by {
      DefaultReadsBack(item.calendarId, "default");
    }
    assert r.status == x.status by {
      StatusReadsBack(item.status);
    }
  }

  /** The lists, the all-day flag and the reminder. */
  lemma PairsListsBack(item: Appointment)
    requires OneLineFields(item)
    ensures var r, x := ExportOrderDetails(DescriptionPairs(item)), ExportedDetails(item);
      && r.tags == x.tags && r.contact == x.contact && r.attendees == x.attendees
      && r.allDay == x.allDay && r.reminderMinutes == x.reminderMinutes
  {
    var r := ExportOrderDetails(DescriptionPairs(item));
    var x := ExportedDetails(item);
    assert r.tags == x.tags by {
      SplitJoinTrimmed(item.tags, ',');
    }
    assert r.contact == x.contact by {
      SplitJoinTrimmed(item.contact, ',');
    }
    assert r.attendees == x.attendees by {
      SplitJoinTrimmed(item.attendees, ',');
    }
    assert r.allDay == x.allDay by {
      AllDayReadsBack(if item.allDay then "true" else "false");
    }
    assert r.reminderMinutes == x.reminderMinutes by {
      ReminderReadsBack(item.reminderMinutes);
    }
  }

  /** The lines the exporter writes, read in order, set every field to what the appointment holds. */
  lemma LinesReadBack(item: Appointment)
    requires OneLineFields(item)
    ensures DetailsFrom(Intended, DescriptionLines(item), DefaultDetails) == ExportedDetails(item)
  {
    PairsReadBack(item);
    ReadPairs(DescriptionPairs(item), DefaultDetails);
    SetInExportOrder(DescriptionPairs(item));
  }

  // ---- The whole round trip ----

  /** A key's text is capital letters and its colon. */
  lemma KeyNameNoLineBreak(k: Key)
    ensures '\n' !in KeyName(k)
  {
    var key := KeyName(k);
    assert forall j :: 0 <= j < |key| ==> key[j] == ':' || 'A' <= key[j] <= 'Z';
  }

  /** No value the exporter pairs with a key holds a line break. */
  lemma PairValuesNoLineBreak(item: Appointment)
    requires OneLineFields(item)
    ensures forall i :: 0 <= i < |DescriptionPairs(item)| ==> '\n' !in DescriptionPairs(item)[i].1
  {
    JoinWithKeepsOut(item.tags, ",", '\n');
    JoinWithKeepsOut(item.contact, ",", '\n');
    JoinWithKeepsOut(item.attendees, ",", '\n');
    if item.reminderMinutes.Some? {
      NumTextNoLineBreak(item.reminderMinutes.value);
    }
  }

  lemma {:induction false} LinesOfNoLineBreak(pairs: seq<(Key, string)>)
    requires forall i :: 0 <= i < |pairs| ==> '\n' !in pairs[i].1
    ensures forall i :: 0 <= i < |LinesOf(pairs)| ==> '\n' !in LinesOf(pairs)[i]
    decreases |pairs|
  {
    if pairs != [] {
      KeyNameNoLineBreak(pairs[0].0);
      LinesOfNoLineBreak(pairs[1..]);
      assert forall i :: 1 <= i < |LinesOf(pairs)| ==> LinesOf(pairs)[i] == LinesOf(pairs[1..])[i - 1];
    }
  }

  /** The block's first line is the `DETAIL:` line. */
  lemma BlockHasDetailLine(item: Appointment)
    ensures HasDetailLine(DescriptionLines(item))
  {
    var lines := DescriptionLines(item);
    assert lines[0] == KeyName(Detail) + item.description;
    KeyNamedOf(Detail);
    KeyOfKeyed(KeyName(Detail), item.description);
  }

  /** Unescaping the escaped block and splitting it at line breaks gives the exporter's lines. */
  lemma BlockSplitsIntoLines(item: Appointment)
    requires OneLineFields(item)
    ensures Split(UnescapeIcs(EscapeIcs(DescriptionBlock(item))), '\n') == DescriptionLines(item)
  {
    UnescapeEscape(DescriptionBlock(item));
    PairValuesNoLineBreak(item);
    LinesOfNoLineBreak(DescriptionPairs(item));
    SplitJoin(DescriptionLines(item), '\n');
  }

  /**
   * An appointment's exported description, escaped and read back, gives every field the
   * appointment holds, trimmed, with the importer's defaults for the empty ones.
   */
  lemma DescriptionRoundTrip(item: Appointment)
    requires OneLineFields(item)
    ensures DescriptionOf(Intended, EscapeIcs(DescriptionBlock(item))) == ExportedDetails(item)
  {
    UnescapeEscape(DescriptionBlock(item));
    BlockSplitsIntoLines(item);
    LinesReadBack(item);
    BlockHasDetailLine(item);
  }

  /** The details agree on every field but the reminder. */
  predicate SameButReminder(d1: Details, d2: Details) {
    d1.(reminderMinutes := None) == d2.(reminderMinutes := None)
  }

  /** The two readings of the description lines set every field but the reminder alike. */
  lemma {:induction false} ReadingsAgreeButReminder(lines: seq<string>, d1: Details, d2: Details)
    requires SameButReminder(d1, d2)
    ensures SameButReminder(DetailsFrom(AsWritten, lines, d1), DetailsFrom(Intended, lines, d2))
    decreases |lines|
  {
    if lines != [] {
      LineAgreesButReminder(lines[0], d1, d2);
      ReadingsAgreeButReminder(lines[1..], DescriptionLine(AsWritten, d1, lines[0]), DescriptionLine(Intended, d2, lines[0]));
    }
  }

  lemma LineAgreesButReminder(line: string, d1: Details, d2: Details)
    requires SameButReminder(d1, d2)
    ensures SameButReminder(DescriptionLine(AsWritten, d1, line), DescriptionLine(Intended, d2, line))
  {
    match LineKey(line)
    case None =>
    case Some(k) =>
      LineKeyStarts(line, k);
      KeyAgreesButReminder(k, After(line, KeyName(k)), d1, d2);
  }

  lemma KeyAgreesButReminder(k: Key, v: string, d1: Details, d2: Details)
    requires SameButReminder(d1, d2)
    ensures SameButReminder(KeyedLine(AsWritten, d1, k, v), KeyedLine(Intended, d2, k, v))
  {
    assert d1.reminderMinutes == None ==> d1 == d1.(reminderMinutes := None);
    match k
    case Category =>
      assert KeyedLine(AsWritten, d1, k, v).(reminderMinutes := None) == d1.(reminderMinutes := None).(category := OrText(Trim(v), "general"));
    case _ =>
  }

  /**
   * As written, an appointment without a description reads back with the whole block as
   * its description, although the block carries an empty `DETAIL:` line; shown for blocks
   * without a backslash, which the as-written unescaping reads back unchanged.
   */
  lemma AsWrittenLosesEmptyDescription(item: Appointment)
    requires OneLineFields(item) && item.description == "" && '\\' !in DescriptionBlock(item)
    ensures DescriptionOf(AsWritten, EscapeIcs(DescriptionBlock(item))).description == DescriptionBlock(item)
    ensures DescriptionOf(AsWritten, EscapeIcs(DescriptionBlock(item))).description != ExportedDetails(item).description
  {
    var block := DescriptionBlock(item);
    var lines := DescriptionLines(item);
    UnescapeEscape(block);
    UnescapeEscapeNoBackslash(block);
    BlockSplitsIntoLines(item);
    assert Split(UnescapeIcsAsWritten(EscapeIcs(block)), '\n') == lines;
    assert DetailsFrom(Intended, lines, DefaultDetails).description == "" by {
      LinesReadBack(item);
    }
    ReadingsAgreeButReminder(lines, DefaultDetails, DefaultDetails);
    assert DetailsFrom(AsWritten, lines, DefaultDetails).description == "";
    assert lines[0] == KeyName(Detail) + item.description;
    JoinWithNonEmpty(lines, "\n");
  }
}
