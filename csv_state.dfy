/**
 * The scheduler state as comma-separated values. `stateToCSV` writes a header of twenty
 * fixed columns, one line per appointment and a final line break; `parseStateFromCSV`
 * reads the non-blank lines back, looks each value up by the name of its column, and
 * fills in defaults, a fresh identifier per line and the current time.
 */
module CsvState {
  import opened Wrappers
  import opened JsText
  import opened Appointments
  import opened CsvText

  /** The columns the exporter writes. */
  datatype Column = Id | Date | EndDate | Timezone | AllDay | Recurrence | CalendarId
    | ReminderMinutes | RecurrenceCount | Title | Description | Location | Url | Status
    | Contact | Attendees | Category | Tags | Priority | CreatedAt

  /** The header name of a column, which is also the key the importer looks the value up by. */
  function ColumnName(c: Column): string {
    match c
    case Id => "id"
    case Date => "date"
    case EndDate => "endDate"
    case Timezone => "timezone"
    case AllDay => "allDay"
    case Recurrence => "recurrence"
    case CalendarId => "calendarId"
    case ReminderMinutes => "reminderMinutes"
    case RecurrenceCount => "recurrenceCount"
    case Title => "title"
    case Description => "description"
    case Location => "location"
    case Url => "url"
    case Status => "status"
    case Contact => "contact"
    case Attendees => "attendees"
    case Category => "category"
    case Tags => "tags"
    case Priority => "priority"
    case CreatedAt => "createdAt"
  }

  /** The columns in the order of the header. */
  const Columns: seq<Column> := [Id, Date, EndDate, Timezone, AllDay, Recurrence, CalendarId,
    ReminderMinutes, RecurrenceCount, Title, Description, Location, Url, Status, Contact,
    Attendees, Category, Tags, Priority, CreatedAt]

  /** The position of a column in the header. */
  function Rank(c: Column): nat {
    match c
    case Id => 0 case Date => 1 case EndDate => 2 case Timezone => 3 case AllDay => 4
    case Recurrence => 5 case CalendarId => 6 case ReminderMinutes => 7 case RecurrenceCount => 8
    case Title => 9 case Description => 10 case Location => 11 case Url => 12 case Status => 13
    case Contact => 14 case Attendees => 15 case Category => 16 case Tags => 17 case Priority => 18
    case CreatedAt => 19
  }

  /** The header: the column names in order. */
  function Header(): (r: seq<string>)
    ensures |r| == |Columns|
  {
    seq(|Columns|, i requires 0 <= i < |Columns| => ColumnName(Columns[i]))
  }

  // ---- Writing ----

  /** `String(Number(x))` for a number that may be missing, and `''` when it is. */
  function OptNumberText(x: Option<JsNum>): string {
    if x.Some? then JsText.NumText(x.value) else ""
  }

  /** The value `stateToCSV` writes for an appointment in a column, before quoting. */
  function Written(item: Appointment, c: Column): string {
    match c
    case Id => item.id
    case Date => item.date
    case EndDate => OrOptText(item.endDate, "")
    case Timezone => OrText(item.timezone, "UTC")
    case AllDay => if item.allDay then "true" else "false"
    case Recurrence => OrText(item.recurrence, "none")
    case CalendarId => OrText(item.calendarId, "default")
    case ReminderMinutes => OptNumberText(item.reminderMinutes)
    case RecurrenceCount => OptNumberText(item.recurrenceCount)
    case Title => item.title
    case Description => item.description
    case Location => item.location
    case Url => item.url
    case Status => OrText(item.status, "confirmed")
    case Contact => JoinPipeList(item.contact)
    case Attendees => JoinPipeList(item.attendees)
    case Category => OrText(item.category, "general")
    case Tags => JoinPipeList(item.tags)
    case Priority => JsText.NumText(Num(PriorityOr1(Num(item.priority))))
    case CreatedAt => item.createdAt
  }

  /** The values of one appointment, in column order. */
  function RowCells(item: Appointment): (r: seq<string>)
    ensures |r| == |Columns|
  {
    seq(|Columns|, i requires 0 <= i < |Columns| => Written(item, Columns[i]))
  }

  /** One CSV line per appointment, in order. */
  function CsvRows(items: seq<Appointment>): (r: seq<string>)
    ensures |r| == |items|
  {
    if items == [] then [] else [CsvRow(RowCells(items[0]))] + CsvRows(items[1..])
  }

  /** `stateToCSV(state)`: the column names joined with commas, the appointment lines and a final line break. */
  function StateToCsv(state: CalendarState): string {
    JoinWith([JoinWith(Header(), ",")] + CsvRows(state.appointments) + [""], "\n")
  }

  // ---- Reading ----

  /** `lines.filter((line) => line.trim())`: the lines that are not blank, untrimmed. */
  function NonBlank(lines: seq<string>): (r: seq<string>)
    ensures |r| <= |lines|
  {
    if lines == [] then []
    else (if Trim(lines[0]) == "" then [] else [lines[0]]) + NonBlank(lines[1..])
  }

  /** The lines `parseStateFromCSV` reads: carriage returns removed, split at line breaks, blank ones left out. */
  function CsvLines(text: string): seq<string> {
    NonBlank(Split(DropReturns(text), '\n'))
  }

  /** `values.map((v) => v.trim())`. */
  function TrimAll(values: seq<string>): (r: seq<string>)
    ensures |r| == |values|
  {
    if values == [] then [] else [Trim(values[0])] + TrimAll(values[1..])
  }

  /**
   * `row[key]` for the object built by `Object.fromEntries(headers.map((h, i) => [h, values[i] ?? '']))`:
   * the value under the last header with that name, `''` when the line is too short for it,
   * and nothing when no header has the name.
   */
  function Field(headers: seq<string>, values: seq<string>, key: string): Option<string>
    decreases |headers|
  {
    if headers == [] then None
    else
      var i := |headers| - 1;
      if headers[i] == key then Some(if i < |values| then values[i] else "")
      else Field(headers[..i], values, key)
  }

  /** The value of a line in a column, looked up by the column's name. */
  function Read(headers: seq<string>, values: seq<string>, c: Column): Option<string> {
    Field(headers, values, ColumnName(c))
  }

  /** `Number(row[key])`: a missing value is `undefined`, which is NaN. */
  function NumberField(x: Option<string>): JsNum {
    if x.Some? then NumberOf(x.value) else NaN
  }

  /** `row[key] === '' ? null : Number(row[key])`. */
  function NullableNumber(x: Option<string>): Option<JsNum> {
    if x == Some("") then None else Some(NumberField(x))
  }

  /** `row[key] || null` for a text. */
  function NonEmpty(x: Option<string>): Option<string> {
    if x.Some? && x.value != "" then x else None
  }

  /** The appointment `parseStateFromCSV` makes of one line's values. */
  function RowAppointment(headers: seq<string>, values: seq<string>, nowText: string, uuid: string): Appointment {
    Appointment(
      OrOptText(Read(headers, values, Id), uuid),
      OrOptText(Read(headers, values, Date), nowText),
      NonEmpty(Read(headers, values, EndDate)),
      OrOptText(Read(headers, values, Recurrence), "none"),
      OrOptText(Read(headers, values, Title), "Untitled Appointment"),
      OrOptText(Read(headers, values, Description), ""),
      SplitPipeList(OrOptText(Read(headers, values, Contact), "")),
      OrOptText(Read(headers, values, Category), "general"),
      SplitPipeList(OrOptText(Read(headers, values, Tags), "")),
      PriorityOr1(NumberField(Read(headers, values, Priority))),
      OrOptText(Read(headers, values, CreatedAt), nowText),
      OrOptText(Read(headers, values, Location), ""),
      OrOptText(Read(headers, values, Url), ""),
      ToLower(OrOptText(Read(headers, values, Status), "confirmed")),
      SplitPipeList(OrOptText(Read(headers, values, Attendees), "")),
      OrOptText(Read(headers, values, Timezone), "UTC"),
      ToLower(OrOptText(Read(headers, values, AllDay), "")) == "true",
      OrOptText(Read(headers, values, CalendarId), "default"),
      NullableNumber(Read(headers, values, ReminderMinutes)),
      NullableNumber(Read(headers, values, RecurrenceCount)),
      None,
      None)
  }

  /** The appointments of the lines after the header; line `i` gets the identifier `ids(i)`. */
  function RowAppointments(headers: seq<string>, rows: seq<string>, nowText: string, ids: nat -> string): (r: seq<Appointment>)
    ensures |r| == |rows|
    ensures forall i :: 0 <= i < |rows| ==> r[i] == RowAppointment(headers, ParseCsv(rows[i]), nowText, ids(i))
  {
    seq(|rows|, i requires 0 <= i < |rows| => RowAppointment(headers, ParseCsv(rows[i]), nowText, ids(i)))
  }

  /**
   * `parseStateFromCSV(csvText)`, with the current time as `nowText` and the fresh
   * identifiers as `ids`: no lines give the empty state; otherwise the first line is the
   * header and every other line is one appointment.
   */
  function ParseStateFromCsv(csvText: string, nowText: string, ids: nat -> string): (r: CalendarState)
    ensures r.viewMode == "month" && r.sortMode == "priority" && r.focusDate == nowText
    ensures CsvLines(csvText) == [] ==> r.appointments == []
    ensures CsvLines(csvText) != [] ==> |r.appointments| == |CsvLines(csvText)| - 1
  {
    var lines := CsvLines(csvText);
    if lines == [] then CalendarState([], "month", "priority", nowText)
    else
      var headers := TrimAll(ParseCsv(lines[0]));
      CalendarState(RowAppointments(headers, lines[1..], nowText, ids), "month", "priority", nowText)
  }

  // ---- Lookup by header name ----

  /** A key has a value exactly when some header has that name. */
  lemma {:induction false} FieldPresent(headers: seq<string>, values: seq<string>, key: string)
    ensures Field(headers, values, key).None? <==> key !in headers
    decreases |headers|
  {
    if headers != [] {
      var i := |headers| - 1;
      assert headers == headers[..i] + [headers[i]];
      FieldPresent(headers[..i], values, key);
    }
  }

  /** The value under a header that no later header repeats is the value at its position. */
  lemma {:induction false} FieldAt(headers: seq<string>, values: seq<string>, i: nat)
    requires i < |headers| && forall j :: i < j < |headers| ==> headers[j] != headers[i]
    ensures Field(headers, values, headers[i]) == Some(if i < |values| then values[i] else "")
    decreases |headers|
  {
    var last := |headers| - 1;
    if i < last {
      assert headers[last] != headers[i];
      FieldAt(headers[..last], values, i);
    }
  }

  /** With a header repeated, the later column wins, wherever the earlier one is. */
  lemma LaterHeaderWins(before: seq<string>, key: string, after: seq<string>, values: seq<string>)
    requires key !in after
    ensures Field(before + [key] + after, values, key)
         == Some(if |before| < |values| then values[|before|] else "")
  {
    FieldSkipsTail(before + [key], after, values, key);
    assert (before + [key])[|before|] == key;
  }

  /** Headers after the last one named `key` do not change what it reads. */
  lemma {:induction false} FieldSkipsTail(headers: seq<string>, tail: seq<string>, values: seq<string>, key: string)
    requires key !in tail
    ensures Field(headers + tail, values, key) == Field(headers, values, key)
    decreases |tail|
  {
    if tail != [] {
      var h := headers + tail;
      var last := |tail| - 1;
      assert h[|h| - 1] == tail[last] && tail[last] in tail;
      assert h[..|h| - 1] == headers + tail[..last];
      FieldSkipsTail(headers, tail[..last], values, key);
    } else {
      assert headers + tail == headers;
    }
  }

  /** A line shorter than the header reads `''` under the last header. */
  lemma ShortLineReadsEmpty(headers: seq<string>, values: seq<string>)
    requires |values| < |headers|
    ensures Field(headers, values, headers[|headers| - 1]) == Some("")
  {
  }

  // ---- Defaults ----

  /** Every appointment read from a line has the defaults `parseStateFromCSV` fills in. */
  lemma RowDefaults(headers: seq<string>, values: seq<string>, nowText: string, uuid: string)
    ensures var a := RowAppointment(headers, values, nowText, uuid);
      && a.title != "" && a.recurrence != "" && a.category != "" && a.timezone != ""
      && a.calendarId != "" && a.priority != 0
      && (uuid != "" ==> a.id != "")
      && (nowText != "" ==> a.date != "" && a.createdAt != "")
      && (a.endDate.Some? ==> a.endDate.value != "")
      && a.occurrenceDate.None? && a.sourceId.None?
  {
  }

  /** The list fields read from a line hold non-empty, trimmed items without a bar. */
  lemma RowLists(headers: seq<string>, values: seq<string>, nowText: string, uuid: string)
    ensures var a := RowAppointment(headers, values, nowText, uuid);
      && (forall i :: 0 <= i < |a.contact| ==> CleanItem(a.contact[i]) && '|' !in a.contact[i])
      && (forall i :: 0 <= i < |a.attendees| ==> CleanItem(a.attendees[i]) && '|' !in a.attendees[i])
      && (forall i :: 0 <= i < |a.tags| ==> CleanItem(a.tags[i]) && '|' !in a.tags[i])
  {
    SplitPipeListClean(OrOptText(Read(headers, values, Contact), ""));
    SplitPipeListClean(OrOptText(Read(headers, values, Attendees), ""));
    SplitPipeListClean(OrOptText(Read(headers, values, Tags), ""));
  }

  /**
   * A file without some of the columns: a missing identifier, date or creation time is
   * filled in, a missing priority is 1, missing lists are empty, a missing flag is false,
   * and a missing reminder or recurrence count is read as `Number(undefined)`, which is NaN.
   */
  lemma MissingColumns(headers: seq<string>, values: seq<string>, nowText: string, uuid: string)
    ensures var a := RowAppointment(headers, values, nowText, uuid);
      && (ColumnName(Id) !in headers ==> a.id == uuid)
      && (ColumnName(Date) !in headers ==> a.date == nowText)
      && (ColumnName(CreatedAt) !in headers ==> a.createdAt == nowText)
      && (ColumnName(Priority) !in headers ==> a.priority == 1)
      && (ColumnName(Contact) !in headers ==> a.contact == [])
      && (ColumnName(AllDay) !in headers ==> !a.allDay)
      && (ColumnName(ReminderMinutes) !in headers ==> a.reminderMinutes == Some(NaN))
      && (ColumnName(RecurrenceCount) !in headers ==> a.recurrenceCount == Some(NaN))
  {
    FieldPresent(headers, values, ColumnName(Id));
    FieldPresent(headers, values, ColumnName(Date));
    FieldPresent(headers, values, ColumnName(CreatedAt));
    FieldPresent(headers, values, ColumnName(Priority));
    FieldPresent(headers, values, ColumnName(Contact));
    FieldPresent(headers, values, ColumnName(AllDay));
    FieldPresent(headers, values, ColumnName(ReminderMinutes));
    FieldPresent(headers, values, ColumnName(RecurrenceCount));
    assert ToLower("") == "";
  }
}
