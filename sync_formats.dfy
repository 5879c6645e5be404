/**
 * Choosing a format: the format the exporter prefers for a target calendar application,
 * and how an imported file is recognised as ICS, CSV or JSON from its name and its text.
 */
module SyncFormats {
  import opened Wrappers
  import opened JsText
  import opened CivilTime
  import opened Appointments
  import opened IcsExport
  import opened IcsImport
  import opened CsvState
  import CsvRoundTrip
  import IcsText

  /** `getPreferredFormatForTargetApp(targetApp)`: ICS for the calendar applications, JSON otherwise. */
  function PreferredFormat(targetApp: string): (r: string)
    ensures r == "ics" || r == "json"
  {
    var app := ToLower(OrText(targetApp, "download"));
    if app == "google" || app == "outlook" || app == "ical" || app == "apple" then "ics" else "json"
  }

  /** The case of the application's name does not matter, and without one the download gets JSON. */
  lemma PreferredFormatExamples()
    ensures PreferredFormat("Google") == "ics" && PreferredFormat("OUTLOOK") == "ics"
    ensures PreferredFormat("apple") == "ics" && PreferredFormat("iCal") == "ics"
    ensures PreferredFormat("") == "json" && PreferredFormat("notion") == "json"
  {
    assert ToLower("Google") == "google";
    assert ToLower("OUTLOOK") == "outlook";
    assert ToLower("apple") == "apple";
    assert ToLower("iCal") == "ical";
    assert ToLower("download")[0] == 'd';
    assert ToLower("notion")[0] == 'n';
  }

  /** The formats an imported file can be read as. */
  datatype ImportFormat = IcsFile | CsvFile | JsonFile

  /**
   * The choice in `parseCalendarStateFile`: ICS for a `.ics` name or a text holding
   * `BEGIN:VCALENDAR`; otherwise CSV for a `.csv` name or a text starting with `id,date,`
   * or `date,`; otherwise JSON. The name's case is ignored, and so is white space around the text.
   */
  function SniffFormat(fileName: string, text: string): ImportFormat {
    var name := ToLower(fileName);
    var trimmed := Trim(text);
    if EndsWith(name, ".ics") || Includes(trimmed, "BEGIN:VCALENDAR") then IcsFile
    else if EndsWith(name, ".csv") || StartsWith(trimmed, "id,date,") || StartsWith(trimmed, "date,") then CsvFile
    else JsonFile
  }

  /** What reading a file gives: a state read from ICS or CSV, or the text for the JSON reader. */
  datatype Loaded = LoadedState(state: CalendarState) | JsonText(text: string)

  /** `parseCalendarStateFile(file)` for a file with that name and text, `nowText` and `ids` as for the readers. */
  function ParseCalendarStateFile(fileName: string, text: string, nowText: string, ids: nat -> string): (r: Loaded)
    ensures SniffFormat(fileName, text) == IcsFile ==> r == LoadedState(IcsState(IcsText.AsWritten, text, nowText, ids))
    ensures SniffFormat(fileName, text) == CsvFile ==> r == LoadedState(ParseStateFromCsv(text, nowText, ids))
    ensures SniffFormat(fileName, text) == JsonFile ==> r == JsonText(text)
  {
    match SniffFormat(fileName, text)
    case IcsFile => LoadedState(IcsState(IcsText.AsWritten, text, nowText, ids))
    case CsvFile => LoadedState(ParseStateFromCsv(text, nowText, ids))
    case JsonFile => JsonText(text)
  }

  /** A file the ICS exporter wrote is read as ICS, whatever its name. */
  lemma ExportedIcsSniffed(fileName: string, state: CalendarState, prodId: string, now: Instant, ids: nat -> string)
    ensures SniffFormat(fileName, StateToIcs(state, prodId, now, ids)) == IcsFile
  {
    var event := (item: Appointment, k: nat) => EventText(item, OrText(item.id, ids(k)), now);
    var lines := CalendarLines(state, prodId, event);
    var text := StateToIcs(state, prodId, now, ids);
    assert lines[0] == "BEGIN:VCALENDAR";
    JoinWithStarts(lines, "\r\n");
    TrimKeepsPrefix(text, "BEGIN:VCALENDAR");
    StartsWithIncludes(Trim(text), "BEGIN:VCALENDAR");
  }

  /** The CSV header starts with the two columns the sniffer looks for. */
  lemma HeaderStart()
    ensures StartsWith(JoinWith(Header(), ","), "id,date,")
  {
    CsvRoundTrip.ColumnAtRank(Id);
    CsvRoundTrip.ColumnAtRank(Date);
    IdDateFirst(Header());
  }

  /** Any header whose first two columns are `id` and `date`. */
  lemma IdDateFirst(h: seq<string>)
    requires |h| >= 3 && h[0] == "id" && h[1] == "date"
    ensures StartsWith(JoinWith(h, ","), "id,date,")
  {
    JoinWithStartsTwo(h, ",");
    assert h[0] + "," + h[1] + "," == "id,date,";
  }

  lemma JoinWithStartsTwo(parts: seq<string>, sep: string)
    requires |parts| >= 3
    ensures StartsWith(JoinWith(parts, sep), parts[0] + sep + parts[1] + sep)
  {
    assert JoinWith(parts, sep) == parts[0] + sep + (parts[1] + sep + JoinWith(parts[2..], sep));
  }

  /** A text that starts with `id,date,` is read as ICS or CSV, never as JSON. */
  lemma CsvPrefixSniffed(fileName: string, text: string)
    requires StartsWith(text, "id,date,")
    ensures SniffFormat(fileName, text) != JsonFile
  {
    TrimKeepsPrefix(text, "id,date,");
  }

  /** The text the CSV exporter writes starts with its header. */
  lemma CsvStartsWithHeader(state: CalendarState)
    ensures StartsWith(StateToCsv(state), "id,date,")
  {
    HeaderStart();
    JoinWithStarts([JoinWith(Header(), ",")] + CsvRows(state.appointments) + [""], "\n");
    StartsWithTrans(StateToCsv(state), JoinWith(Header(), ","), "id,date,");
  }

  /** A file the CSV exporter wrote is never taken for JSON: it is read as CSV unless it holds `BEGIN:VCALENDAR`. */
  lemma ExportedCsvSniffed(fileName: string, state: CalendarState)
    ensures SniffFormat(fileName, StateToCsv(state)) != JsonFile
  {
    CsvStartsWithHeader(state);
    CsvPrefixSniffed(fileName, StateToCsv(state));
  }

  /**
   * The `focusDate` rule of `parseStateFromJson`, on what `JSON.parse` gives: a focus that is
   * missing or empty becomes `nowText`, any other is kept.
   */
  function JsonFocusDate(focusDate: Option<string>, nowText: string): (r: string)
    ensures focusDate.Some? && focusDate.value != "" ==> r == focusDate.value
    ensures focusDate.None? || focusDate.value == "" ==> r == nowText
  {
    if focusDate.Some? && focusDate.value != "" then focusDate.value else nowText
  }

  /** Once filled in, the focus stays: reading the state again at another time keeps it. */
  lemma JsonFocusStable(focusDate: Option<string>, nowText: string, laterText: string)
    requires nowText != ""
    ensures JsonFocusDate(Some(JsonFocusDate(focusDate, nowText)), laterText) == JsonFocusDate(focusDate, nowText)
  {
  }
}
