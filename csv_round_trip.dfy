/**
 * What `parseStateFromCSV` reads back from what `stateToCSV` writes. The importer splits
 * the text into lines before it looks at quotes, so the round trip holds for appointments
 * whose texts have no line break or carriage return, and whose list items have no bar.
 */
module CsvRoundTrip {
  import opened Wrappers
  import opened JsText
  import opened Appointments
  import opened CsvText
  import opened CsvState

  /** A text that stays on one line and keeps its characters through the importer. */
  predicate LineSafe(s: string) {
    '\n' !in s && '\r' !in s
  }

  /** List items that stay on one line and have no bar. */
  predicate ListSafe(items: seq<string>) {
    forall i :: 0 <= i < |items| ==> LineSafe(items[i]) && '|' !in items[i]
  }

  /** An appointment whose every written value stays on one line. */
  predicate CsvSafe(item: Appointment) {
    && LineSafe(item.id) && LineSafe(item.date) && (item.endDate.Some? ==> LineSafe(item.endDate.value))
    && LineSafe(item.timezone) && LineSafe(item.recurrence) && LineSafe(item.calendarId)
    && LineSafe(item.title) && LineSafe(item.description) && LineSafe(item.location)
    && LineSafe(item.url) && LineSafe(item.status) && LineSafe(item.category) && LineSafe(item.createdAt)
    && ListSafe(item.contact) && ListSafe(item.attendees) && ListSafe(item.tags)
  }

  // ---- The header ----

  /** Text made of ASCII letters only. */
  predicate Letters(t: string) {
    forall i :: 0 <= i < |t| ==> 'a' <= t[i] <= 'z' || 'A' <= t[i] <= 'Z'
  }

  /** Every column name is a non-empty word of letters. */
  lemma ColumnNamePlain(c: Column)
    ensures ColumnName(c) != [] && Letters(ColumnName(c))
  {
    FirstNamesPlain();
    MiddleNamesPlain();
    LaterNamesPlain();
    LastNamesPlain();
  }

  lemma FirstNamesPlain()
    ensures Letters("id") && Letters("date") && Letters("endDate") && Letters("timezone") && Letters("allDay")
  {
    assert Letters("id");
    assert Letters("date");
    assert Letters("endDate");
    assert Letters("timezone");
    assert Letters("allDay");
  }

  lemma MiddleNamesPlain()
    ensures Letters("recurrence") && Letters("calendarId") && Letters("reminderMinutes") && Letters("recurrenceCount") && Letters("title")
  {
    assert Letters("recurrence");
    assert Letters("calendarId");
    assert Letters("reminderMinutes");
    assert Letters("recurrenceCount");
    assert Letters("title");
  }

  lemma LaterNamesPlain()
    ensures Letters("description") && Letters("location") && Letters("url") && Letters("status") && Letters("contact")
  {
    assert Letters("description");
    assert Letters("location");
    assert Letters("url");
    assert Letters("status");
    assert Letters("contact");
  }

  lemma LastNamesPlain()
    ensures Letters("attendees") && Letters("category") && Letters("tags") && Letters("priority") && Letters("createdAt")
  {
    assert Letters("attendees");
    assert Letters("category");
    assert Letters("tags");
    assert Letters("priority");
    assert Letters("createdAt");
  }

  /** Different columns have different names. */
  lemma ColumnNameInjective(a: Column, b: Column)
    ensures ColumnName(a) == ColumnName(b) ==> a == b
  {
  }

  /** The column at the position of `c` is `c`. */
  lemma ColumnAtRank(c: Column)
    ensures Rank(c) < |Columns| && Columns[Rank(c)] == c
  {
  }

  /** The position of the column at `j` is `j`. */
  lemma RankOfColumn(j: nat)
    requires j < |Columns|
    ensures Rank(Columns[j]) == j
  {
  }

  /**
   * The header line is the names joined with commas, which is also how the exporter writes
   * any line of them, since no name needs quotes; it is one line, and the importer reads
   * its names back unchanged.
   */
  lemma HeaderReadsBack()
    ensures JoinWith(Header(), ",") == CsvRow(Header())
    ensures CleanLine(CsvRow(Header()))
    ensures TrimAll(ParseCsv(CsvRow(Header()))) == Header()
  {
    var h := Header();
    forall i | 0 <= i < |h|
      ensures LineSafe(h[i]) && Trim(h[i]) == h[i] && !NeedsQuotes(h[i])
    {
      ColumnNamePlain(Columns[i]);
      TrimUnchanged(h[i]);
    }
    PlainRowReadsBack(h);
  }

  /** A line of plain, trimmed fields reads back as those fields. */
  lemma PlainRowReadsBack(h: seq<string>)
    requires |h| >= 2
    requires forall i :: 0 <= i < |h| ==> LineSafe(h[i]) && Trim(h[i]) == h[i] && !NeedsQuotes(h[i])
    ensures JoinWith(h, ",") == CsvRow(h)
    ensures CleanLine(CsvRow(h))
    ensures TrimAll(ParseCsv(CsvRow(h))) == h
  {
    EscapeFieldsPlain(h);
    CsvRowKeepsOut(h, '\n');
    CsvRowKeepsOut(h, '\r');
    RowNotBlank(h);
    ParseCsvRow(h);
    TrimAllUnchanged(h);
  }

  lemma {:induction false} EscapeFieldsPlain(fields: seq<string>)
    requires forall i :: 0 <= i < |fields| ==> !NeedsQuotes(fields[i])
    ensures EscapeFields(fields) == fields
    decreases |fields|
  {
    if fields != [] {
      EscapeFieldsPlain(fields[1..]);
      assert fields == [fields[0]] + fields[1..];
    }
  }

  lemma {:induction false} TrimAllUnchanged(values: seq<string>)
    requires forall i :: 0 <= i < |values| ==> Trim(values[i]) == values[i]
    ensures TrimAll(values) == values
    decreases |values|
  {
    if values != [] {
      TrimAllUnchanged(values[1..]);
      assert values == [values[0]] + values[1..];
    }
  }

  // ---- One line ----

  lemma ListLineSafe(items: seq<string>)
    requires ListSafe(items)
    ensures LineSafe(JoinPipeList(items))
  {
    TrimPartsNoSeparator(items, '\n');
    TrimPartsNoSeparator(items, '\r');
    JoinWithKeepsOut(TrimParts(items), "|", '\n');
    JoinWithKeepsOut(TrimParts(items), "|", '\r');
  }

  /** Every value written for a safe appointment stays on one line. */
  lemma WrittenLineSafe(item: Appointment, c: Column)
    requires CsvSafe(item)
    ensures LineSafe(Written(item, c))
  {
    match c
    case ReminderMinutes =>
      if item.reminderMinutes.Some? { NumTextNoLineBreak(item.reminderMinutes.value); }
    case RecurrenceCount =>
      if item.recurrenceCount.Some? { NumTextNoLineBreak(item.recurrenceCount.value); }
    case Priority => NumTextNoLineBreak(Num(PriorityOr1(Num(item.priority))));
    case Contact => ListLineSafe(item.contact);
    case Attendees => ListLineSafe(item.attendees);
    case Tags => ListLineSafe(item.tags);
    case _ =>
  }

  /** The line of a safe appointment is one line. */
  lemma RowLineSafe(item: Appointment)
    requires CsvSafe(item)
    ensures LineSafe(CsvRow(RowCells(item)))
  {
    var cells := RowCells(item);
    forall i | 0 <= i < |cells|
      ensures LineSafe(cells[i])
    {
      WrittenLineSafe(item, Columns[i]);
    }
    CsvRowKeepsOut(cells, '\n');
    CsvRowKeepsOut(cells, '\r');
  }

  /** A line of two or more values holds a comma, so it is not blank. */
  lemma RowNotBlank(fields: seq<string>)
    requires |fields| >= 2
    ensures Trim(CsvRow(fields)) != ""
  {
    var e := EscapeFields(fields);
    assert e[0] == CsvEscape(fields[0]);
    var line := CsvRow(fields);
    assert line == e[0] + "," + JoinWith(e[1..], ",");
    assert line[|e[0]|] == ',';
    TrimKeepsNonSpace(line, |e[0]|);
  }

  /** Each value of a written line reads back under its column's name. */
  lemma ReadWritten(item: Appointment, c: Column)
    ensures Read(Header(), RowCells(item), c) == Some(Written(item, c))
  {
    var h := Header();
    var i := Rank(c);
    ColumnAtRank(c);
    forall j | i < j < |h|
      ensures h[j] != h[i]
    {
      RankOfColumn(j);
      ColumnNameInjective(Columns[j], c);
    }
    FieldAt(h, RowCells(item), i);
  }

  // ---- The lines of the text ----

  lemma {:induction false} NonBlankConcat(a: seq<string>, b: seq<string>)
    ensures NonBlank(a + b) == NonBlank(a) + NonBlank(b)
    decreases |a|
  {
    if a != [] {
      assert (a + b)[0] == a[0] && (a + b)[1..] == a[1..] + b;
      NonBlankConcat(a[1..], b);
    } else {
      assert a + b == b;
    }
  }

  lemma {:induction false} NonBlankAll(lines: seq<string>)
    requires forall i :: 0 <= i < |lines| ==> Trim(lines[i]) != ""
    ensures NonBlank(lines) == lines
    decreases |lines|
  {
    if lines != [] {
      NonBlankAll(lines[1..]);
      assert lines == [lines[0]] + lines[1..];
    }
  }

  lemma {:induction false} CsvRowsAt(items: seq<Appointment>, i: nat)
    requires i < |items|
    ensures CsvRows(items)[i] == CsvRow(RowCells(items[i]))
    decreases |items|
  {
    if i > 0 {
      CsvRowsAt(items[1..], i - 1);
    }
  }

  /** A line the importer keeps as it is: one line, not blank. */
  predicate CleanLine(s: string) {
    LineSafe(s) && Trim(s) != ""
  }

  /** The line of a safe appointment is kept as it is. */
  lemma RowClean(item: Appointment)
    requires CsvSafe(item)
    ensures CleanLine(CsvRow(RowCells(item)))
  {
    RowLineSafe(item);
    RowNotBlank(RowCells(item));
  }

  /** The lines of safe appointments are kept as they are. */
  lemma RowsClean(items: seq<Appointment>)
    requires forall i :: 0 <= i < |items| ==> CsvSafe(items[i])
    ensures forall i :: 0 <= i < |items| ==> CleanLine(CsvRows(items)[i])
  {
    forall i | 0 <= i < |items|
      ensures CleanLine(CsvRows(items)[i])
    {
      CsvRowsAt(items, i);
      RowClean(items[i]);
    }
  }

  lemma ConsClean(x: string, rest: seq<string>)
    requires CleanLine(x) && forall i :: 0 <= i < |rest| ==> CleanLine(rest[i])
    ensures forall i :: 0 <= i < |[x] + rest| ==> CleanLine(([x] + rest)[i])
  {
  }

  /** Lines that are one line each and not blank, joined with a final line break, are read back as they are. */
  lemma LinesOfJoin(body: seq<string>)
    requires forall i :: 0 <= i < |body| ==> CleanLine(body[i])
    ensures CsvLines(JoinWith(body + [""], "\n")) == body
  {
    var parts := body + [""];
    assert forall i :: 0 <= i < |parts| ==> LineSafe(parts[i]);
    JoinWithKeepsOut(parts, "\n", '\r');
    DropReturnsNone(JoinWith(parts, "\n"));
    SplitJoin(parts, '\n');
    NonBlankConcat(body, [""]);
    NonBlankAll(body);
    assert Trim("") == "";
    assert NonBlank([""]) == [];
  }

  /**
   * The lines the importer reads from an exported state are exactly the header line and
   * one line per appointment: the final line break only adds a blank line, which is left out.
   */
  lemma CsvLinesOfState(state: CalendarState)
    requires forall i :: 0 <= i < |state.appointments| ==> CsvSafe(state.appointments[i])
    ensures CsvLines(StateToCsv(state)) == [CsvRow(Header())] + CsvRows(state.appointments)
  {
    HeaderReadsBack();
    RowsClean(state.appointments);
    ConsClean(CsvRow(Header()), CsvRows(state.appointments));
    LinesOfJoin([CsvRow(Header())] + CsvRows(state.appointments));
  }

  // ---- The state ----

  /** The appointment the importer makes of the line written for `item`. */
  function Imported(item: Appointment, nowText: string, uuid: string): Appointment {
    RowAppointment(Header(), RowCells(item), nowText, uuid)
  }

  /**
   * Exporting a state to CSV and importing the text gives one appointment per exported
   * appointment, in order, each read back from its own line with the `i`-th identifier.
   */
  lemma CsvStateRoundTrip(state: CalendarState, nowText: string, ids: nat -> string)
    requires forall i :: 0 <= i < |state.appointments| ==> CsvSafe(state.appointments[i])
    ensures var r := ParseStateFromCsv(StateToCsv(state), nowText, ids);
      && |r.appointments| == |state.appointments|
      && forall i :: 0 <= i < |r.appointments| ==> r.appointments[i] == Imported(state.appointments[i], nowText, ids(i))
  {
    var apps := state.appointments;
    CsvLinesOfState(state);
    HeaderReadsBack();
    RowsParse(apps);
    var lines := CsvLines(StateToCsv(state));
    assert lines[1..] == CsvRows(apps);
    ParsedRows(lines[1..], apps, nowText, ids);
  }

  /** Each written appointment line parses into that appointment's values. */
  lemma RowsParse(items: seq<Appointment>)
    ensures forall i :: 0 <= i < |items| ==> ParseCsv(CsvRows(items)[i]) == RowCells(items[i])
  {
    forall i | 0 <= i < |items|
      ensures ParseCsv(CsvRows(items)[i]) == RowCells(items[i])
    {
      CsvRowsAt(items, i);
      ParseCsvRow(RowCells(items[i]));
    }
  }

  lemma ParsedRows(rows: seq<string>, items: seq<Appointment>, nowText: string, ids: nat -> string)
    requires |rows| == |items| && forall i :: 0 <= i < |items| ==> ParseCsv(rows[i]) == RowCells(items[i])
    ensures var r := RowAppointments(Header(), rows, nowText, ids);
      |r| == |items| && forall i :: 0 <= i < |r| ==> r[i] == Imported(items[i], nowText, ids(i))
  {
  }

  /** The identifier, the dates and the title of an imported appointment. */
  lemma ImportedIdentity(item: Appointment, nowText: string, uuid: string)
    ensures var a := Imported(item, nowText, uuid);
      && a.id == OrText(item.id, uuid)
      && a.date == OrText(item.date, nowText)
      && a.endDate == (if item.endDate == Some("") then None else item.endDate)
      && a.title == OrText(item.title, "Untitled Appointment")
      && a.createdAt == OrText(item.createdAt, nowText)
  {
    ReadWritten(item, Id);
    ReadWritten(item, Date);
    ReadWritten(item, EndDate);
    ReadWritten(item, Title);
    ReadWritten(item, CreatedAt);
    RowIdentity(Header(), RowCells(item), item, nowText, uuid);
  }

  lemma RowIdentity(h: seq<string>, v: seq<string>, item: Appointment, nowText: string, uuid: string)
    requires Read(h, v, Id) == Some(item.id) && Read(h, v, Date) == Some(item.date)
    requires Read(h, v, EndDate) == Some(OrOptText(item.endDate, "")) && Read(h, v, Title) == Some(item.title)
    requires Read(h, v, CreatedAt) == Some(item.createdAt)
    ensures var a := RowAppointment(h, v, nowText, uuid);
      && a.id == OrText(item.id, uuid)
      && a.date == OrText(item.date, nowText)
      && a.endDate == (if item.endDate == Some("") then None else item.endDate)
      && a.title == OrText(item.title, "Untitled Appointment")
      && a.createdAt == OrText(item.createdAt, nowText)
  {
  }

  /** The texts that come back as they were, or with the exporter's defaults. */
  lemma ImportedTexts(item: Appointment, nowText: string, uuid: string)
    ensures var a := Imported(item, nowText, uuid);
      && a.description == item.description
      && a.location == item.location
      && a.url == item.url
      && a.recurrence == OrText(item.recurrence, "none")
      && a.status == ToLower(OrText(item.status, "confirmed"))
  {
    ReadWritten(item, Description);
    ReadWritten(item, Location);
    ReadWritten(item, Url);
    ReadWritten(item, Recurrence);
    ReadWritten(item, Status);
    RowTexts(Header(), RowCells(item), item, nowText, uuid);
  }

  lemma RowTexts(h: seq<string>, v: seq<string>, item: Appointment, nowText: string, uuid: string)
    requires Read(h, v, Description) == Some(item.description) && Read(h, v, Location) == Some(item.location)
    requires Read(h, v, Url) == Some(item.url) && Read(h, v, Recurrence) == Some(OrText(item.recurrence, "none"))
    requires Read(h, v, Status) == Some(OrText(item.status, "confirmed"))
    ensures var a := RowAppointment(h, v, nowText, uuid);
      && a.description == item.description
      && a.location == item.location
      && a.url == item.url
      && a.recurrence == OrText(item.recurrence, "none")
      && a.status == ToLower(OrText(item.status, "confirmed"))
  {
  }

  /** The settings of an imported appointment. */
  lemma ImportedSettings(item: Appointment, nowText: string, uuid: string)
    ensures var a := Imported(item, nowText, uuid);
      && a.timezone == OrText(item.timezone, "UTC")
      && a.calendarId == OrText(item.calendarId, "default")
      && a.category == OrText(item.category, "general")
      && a.allDay == item.allDay
  {
    ReadWritten(item, Timezone);
    ReadWritten(item, CalendarId);
    ReadWritten(item, Category);
    ReadWritten(item, AllDay);
    RowSettings(Header(), RowCells(item), item, nowText, uuid);
  }

  lemma RowSettings(h: seq<string>, v: seq<string>, item: Appointment, nowText: string, uuid: string)
    requires Read(h, v, Timezone) == Some(OrText(item.timezone, "UTC"))
    requires Read(h, v, CalendarId) == Some(OrText(item.calendarId, "default"))
    requires Read(h, v, Category) == Some(OrText(item.category, "general"))
    requires Read(h, v, AllDay) == Some(if item.allDay then "true" else "false")
    ensures var a := RowAppointment(h, v, nowText, uuid);
      && a.timezone == OrText(item.timezone, "UTC")
      && a.calendarId == OrText(item.calendarId, "default")
      && a.category == OrText(item.category, "general")
      && a.allDay == item.allDay
  {
    AllDayTexts();
  }

  lemma AllDayTexts()
    ensures ToLower("true") == "true" && ToLower("false") != "true"
  {
    assert ToLower("false")[0] == 'f';
  }

  /** The numbers of an imported appointment: reminder and count come back exactly, priority 0 becomes 1. */
  lemma ImportedNumbers(item: Appointment, nowText: string, uuid: string)
    ensures var a := Imported(item, nowText, uuid);
      && a.reminderMinutes == item.reminderMinutes
      && a.recurrenceCount == item.recurrenceCount
      && a.priority == (if item.priority != 0 then item.priority else 1)
  {
    ReadWritten(item, ReminderMinutes);
    ReadWritten(item, RecurrenceCount);
    ReadWritten(item, Priority);
    RowReminder(Header(), RowCells(item), item, nowText, uuid);
    RowRecurrenceCount(Header(), RowCells(item), item, nowText, uuid);
    RowPriority(Header(), RowCells(item), item, nowText, uuid);
  }

  lemma RowReminder(h: seq<string>, v: seq<string>, item: Appointment, nowText: string, uuid: string)
    requires Read(h, v, ReminderMinutes) == Some(Written(item, ReminderMinutes))
    ensures RowAppointment(h, v, nowText, uuid).reminderMinutes == item.reminderMinutes
  {
    assert Written(item, ReminderMinutes) == OptNumberText(item.reminderMinutes);
    NullableBack(Read(h, v, ReminderMinutes), item.reminderMinutes);
  }

  lemma RowRecurrenceCount(h: seq<string>, v: seq<string>, item: Appointment, nowText: string, uuid: string)
    requires Read(h, v, RecurrenceCount) == Some(Written(item, RecurrenceCount))
    ensures RowAppointment(h, v, nowText, uuid).recurrenceCount == item.recurrenceCount
  {
    assert Written(item, RecurrenceCount) == OptNumberText(item.recurrenceCount);
    NullableBack(Read(h, v, RecurrenceCount), item.recurrenceCount);
  }

  lemma RowPriority(h: seq<string>, v: seq<string>, item: Appointment, nowText: string, uuid: string)
    requires Read(h, v, Priority) == Some(Written(item, Priority))
    ensures RowAppointment(h, v, nowText, uuid).priority == if item.priority != 0 then item.priority else 1
  {
    assert Written(item, Priority) == JsText.NumText(Num(PriorityOr1(Num(item.priority))));
    PriorityBack(Read(h, v, Priority), item.priority);
  }

  /** A number field that may be missing, read from the text written for it. */
  lemma NullableBack(x: Option<string>, n: Option<JsNum>)
    requires x == Some(OptNumberText(n))
    ensures NullableNumber(x) == n
  {
    NumberBack(n);
  }

  /** The priority read from the text written for it: 0 comes back as 1. */
  lemma PriorityBack(x: Option<string>, p: int)
    requires x == Some(JsText.NumText(Num(PriorityOr1(Num(p)))))
    ensures PriorityOr1(NumberField(x)) == if p != 0 then p else 1
  {
    NumberOfNumText(Num(PriorityOr1(Num(p))));
  }

  /** A number that may be missing, written and read back. */
  lemma NumberBack(x: Option<JsNum>)
    ensures NullableNumber(Some(OptNumberText(x))) == x
  {
    if x.Some? {
      NumberOfNumText(x.value);
      assert JsText.NumText(x.value) != "" by {
        if x.value.Num? {
          var v := x.value.value;
          assert |NatToString(if v < 0 then -v else v)| >= 1;
        }
      }
    }
  }

  /** The lists of an imported appointment: trimmed and without empty items. */
  lemma ImportedLists(item: Appointment, nowText: string, uuid: string)
    requires ListSafe(item.contact) && ListSafe(item.attendees) && ListSafe(item.tags)
    ensures var a := Imported(item, nowText, uuid);
      && a.contact == TrimParts(item.contact)
      && a.attendees == TrimParts(item.attendees)
      && a.tags == TrimParts(item.tags)
  {
    ReadWritten(item, Contact);
    ReadWritten(item, Attendees);
    ReadWritten(item, Tags);
    RowContact(Header(), RowCells(item), item, nowText, uuid);
    RowAttendees(Header(), RowCells(item), item, nowText, uuid);
    RowTags(Header(), RowCells(item), item, nowText, uuid);
  }

  lemma RowContact(h: seq<string>, v: seq<string>, item: Appointment, nowText: string, uuid: string)
    requires ListSafe(item.contact) && Read(h, v, Contact) == Some(Written(item, Contact))
    ensures RowAppointment(h, v, nowText, uuid).contact == TrimParts(item.contact)
  {
    assert Written(item, Contact) == JoinPipeList(item.contact);
    ListBack(Read(h, v, Contact), item.contact);
  }

  lemma RowAttendees(h: seq<string>, v: seq<string>, item: Appointment, nowText: string, uuid: string)
    requires ListSafe(item.attendees) && Read(h, v, Attendees) == Some(Written(item, Attendees))
    ensures RowAppointment(h, v, nowText, uuid).attendees == TrimParts(item.attendees)
  {
    assert Written(item, Attendees) == JoinPipeList(item.attendees);
    ListBack(Read(h, v, Attendees), item.attendees);
  }

  lemma RowTags(h: seq<string>, v: seq<string>, item: Appointment, nowText: string, uuid: string)
    requires ListSafe(item.tags) && Read(h, v, Tags) == Some(Written(item, Tags))
    ensures RowAppointment(h, v, nowText, uuid).tags == TrimParts(item.tags)
  {
    assert Written(item, Tags) == JoinPipeList(item.tags);
    ListBack(Read(h, v, Tags), item.tags);
  }

  /** A list field read from the text written for the list. */
  lemma ListBack(x: Option<string>, items: seq<string>)
    requires ListSafe(items) && x == Some(JoinPipeList(items))
    ensures SplitPipeList(OrOptText(x, "")) == TrimParts(items)
  {
    PipeListRoundTrip(items);
  }
}
