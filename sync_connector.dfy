/**
 * The calendar sync connector's push: the state it exports with defaults filled in, the
 * format it picks for the request and the target application, the file name and MIME type
 * of the download, and the result it reports.
 */
module SyncConnector {
  import opened Wrappers
  import opened JsText
  import opened CivilTime
  import opened DateStrings
  import opened Appointments
  import opened IcsExport
  import opened CsvState
  import opened SyncFormats

  /** A `focusDate` as a caller hands it over: a `Date`, any other value (as its text), or none. */
  datatype FocusInput = FocusInstant(t: Instant) | FocusValue(text: string) | NoFocus

  /** The `state` of a push payload; an absent text field is empty text. */
  datatype StateInput = StateInput(
    appointments: Option<seq<Appointment>>,
    viewMode: string,
    sortMode: string,
    focusDate: FocusInput)

  /** A push payload object; an absent `state` is `None`, an absent text field is empty text. */
  datatype PushPayload = PushPayload(state: Option<StateInput>, targetApp: string, format: string, filename: string)

  /** What `downloadTextFile(content, filename, mimeType)` is handed. */
  datatype Download = Download(content: string, filename: string, mimeType: string)

  /** The object `_executePush` returns. */
  datatype PushResult = PushResult(ok: bool, format: string, requestedFormat: string, targetApp: string, exportedAppointments: nat)

  /** One push: the file handed to the download and the result. */
  datatype Push = Push(download: Download, result: PushResult)

  /** The state an empty object gives. */
  const EmptyInput: StateInput := StateInput(None, "", "", NoFocus)

  /** An exported state, handed back as the input of another push. */
  function AsInput(state: CalendarState): StateInput {
    StateInput(Some(state.appointments), state.viewMode, state.sortMode, FocusValue(state.focusDate))
  }

  /**
   * `normalizeStateForExport(state)`: the appointments or none, the view and sort modes
   * with their defaults, and a `Date` focus written as its ISO text; no focus is empty text.
   */
  function NormalizeStateForExport(s: StateInput): (r: CalendarState)
    ensures r.viewMode != "" && r.sortMode != ""
    ensures s.appointments.None? ==> r.appointments == []
    ensures s.focusDate.FocusValue? ==> r.focusDate == s.focusDate.text
  {
    CalendarState(
      if s.appointments.Some? then s.appointments.value else [],
      OrText(s.viewMode, "month"),
      OrText(s.sortMode, "priority"),
      match s.focusDate
      case FocusInstant(t) => ToIsoString(t)
      case FocusValue(text) => text
      case NoFocus => "")
  }

  /** The state given is kept where it is set, and its unset fields take the defaults. */
  lemma NormalizeKeeps(s: StateInput)
    ensures var r := NormalizeStateForExport(s);
      && (s.appointments.Some? ==> r.appointments == s.appointments.value)
      && (s.viewMode != "" ==> r.viewMode == s.viewMode)
      && (s.viewMode == "" ==> r.viewMode == "month")
      && (s.sortMode != "" ==> r.sortMode == s.sortMode)
      && (s.sortMode == "" ==> r.sortMode == "priority")
  {
  }

  /** Normalizing an exported state again changes nothing. */
  lemma NormalizeIdempotent(s: StateInput)
    ensures NormalizeStateForExport(AsInput(NormalizeStateForExport(s))) == NormalizeStateForExport(s)
  {
  }

  /** An empty object exports no appointments in the month view sorted by priority. */
  lemma NormalizeEmpty()
    ensures NormalizeStateForExport(EmptyInput) == CalendarState([], "month", "priority", "")
  {
  }

  /** The effective format: the application's preferred one for `auto`, else the request itself. */
  function ExportFormat(requestedFormat: string, targetApp: string): (r: string)
    ensures requestedFormat != "auto" ==> r == requestedFormat
  {
    if requestedFormat == "auto" then PreferredFormat(targetApp) else requestedFormat
  }

  /** The file names by format. */
  function DefaultFileName(format: string): (r: Option<string>)
    ensures r.Some? <==> format == "json" || format == "csv" || format == "ics"
  {
    if format == "json" || format == "csv" || format == "ics" then Some("appointment-state." + format) else None
  }

  /** The explicit file name, else the one for the format, else the JSON one. */
  function ExportFileName(filename: string, format: string): (r: string)
    ensures filename != "" ==> r == filename
  {
    if filename != "" then filename
    else match DefaultFileName(format)
      case Some(name) => name
      case None => "appointment-state.json"
  }

  /** The MIME type of the download. */
  function MimeType(format: string): (r: string)
    ensures r == "text/calendar" || r == "text/csv" || r == "application/json"
  {
    if format == "ics" then "text/calendar" else if format == "csv" then "text/csv" else "application/json"
  }

  /** The extension that goes with a MIME type. */
  function Extension(mimeType: string): string {
    if mimeType == "text/calendar" then "ics" else if mimeType == "text/csv" then "csv" else "json"
  }

  /** The payload read: one that is not an object (`None`) is an empty one. */
  function SourceOf(payload: Option<PushPayload>): PushPayload {
    if payload.Some? then payload.value else PushPayload(None, "", "", "")
  }

  /** The state exported: the payload's `state`, or an empty object, normalized. */
  function StateOf(payload: Option<PushPayload>): CalendarState {
    var source := SourceOf(payload);
    NormalizeStateForExport(if source.state.Some? then source.state.value else EmptyInput)
  }

  /**
   * `_executePush(payload)`, with `now` for every `new Date()` of the ICS writer, `ids(k)`
   * the uuid it draws for the `k`-th appointment without an id, and `json` the JSON writer.
   */
  function ExecutePush(payload: Option<PushPayload>, now: Instant, ids: nat -> string, json: CalendarState -> string): (r: Push)
    ensures r.result.ok
    ensures r.result.exportedAppointments == |StateOf(payload).appointments|
  {
    var source := SourceOf(payload);
    var state := StateOf(payload);
    var targetApp := ToLower(OrText(source.targetApp, "download"));
    var requestedFormat := ToLower(OrText(source.format, "json"));
    var format := ExportFormat(requestedFormat, targetApp);
    var content :=
      if format == "ics" then StateToIcs(state, "", now, ids)
      else if format == "csv" then StateToCsv(state)
      else json(state);
    Push(Download(content, ExportFileName(source.filename, format), MimeType(format)),
      PushResult(true, format, requestedFormat, targetApp, |state.appointments|))
  }

  /**
   * The result names the target application lowercased (`download` by default) and the
   * requested format lowercased (`json` by default); the format is the application's
   * preferred one, ICS or JSON, when `auto` is requested, and the request otherwise.
   */
  lemma PushFormat(payload: Option<PushPayload>, now: Instant, ids: nat -> string, json: CalendarState -> string)
    ensures var r := ExecutePush(payload, now, ids, json).result;
      && r.targetApp == ToLower(OrText(SourceOf(payload).targetApp, "download"))
      && r.requestedFormat == ToLower(OrText(SourceOf(payload).format, "json"))
      && (r.requestedFormat == "auto" ==> r.format == PreferredFormat(r.targetApp) && (r.format == "ics" || r.format == "json"))
      && (r.requestedFormat != "auto" ==> r.format == r.requestedFormat)
  {
  }

  /**
   * The download's type follows the format, and so does its content: the ICS text for
   * `text/calendar`, the CSV text for `text/csv`, the JSON writer's text for every other format.
   */
  lemma PushContent(payload: Option<PushPayload>, now: Instant, ids: nat -> string, json: CalendarState -> string)
    ensures var p := ExecutePush(payload, now, ids, json);
      && (p.result.format == "ics" <==> p.download.mimeType == "text/calendar")
      && (p.result.format == "csv" <==> p.download.mimeType == "text/csv")
      && (p.download.mimeType == "text/calendar" ==> p.download.content == StateToIcs(StateOf(payload), "", now, ids))
      && (p.download.mimeType == "text/csv" ==> p.download.content == StateToCsv(StateOf(payload)))
      && (p.download.mimeType == "application/json" ==> p.download.content == json(StateOf(payload)))
  {
  }

  /**
   * The file name is the one the payload gives; without one its extension is that of the
   * MIME type, so a format without a file name of its own is named as JSON.
   */
  lemma PushFileName(payload: Option<PushPayload>, now: Instant, ids: nat -> string, json: CalendarState -> string)
    ensures var d := ExecutePush(payload, now, ids, json).download;
      && (SourceOf(payload).filename != "" ==> d.filename == SourceOf(payload).filename)
      && (SourceOf(payload).filename == "" ==> d.filename == "appointment-state." + Extension(d.mimeType))
  {
  }

  /** A file pushed as ICS or CSV is not taken for JSON when it is imported again, whatever it is named. */
  lemma PushReadsBack(payload: Option<PushPayload>, now: Instant, ids: nat -> string, json: CalendarState -> string, name: string)
    ensures var d := ExecutePush(payload, now, ids, json).download;
      && (d.mimeType == "text/calendar" ==> SniffFormat(name, d.content) == IcsFile)
      && (d.mimeType == "text/csv" ==> SniffFormat(name, d.content) != JsonFile)
  {
    PushContent(payload, now, ids, json);
    ExportedIcsSniffed(name, StateOf(payload), "", now, ids);
    ExportedCsvSniffed(name, StateOf(payload));
  }

  /** A payload that is not an object downloads the empty state as `appointment-state.json`. */
  lemma PushNonObject(now: Instant, ids: nat -> string, json: CalendarState -> string)
    ensures var p := ExecutePush(None, now, ids, json);
      && p.result == PushResult(true, "json", "json", "download", 0)
      && p.download == Download(json(CalendarState([], "month", "priority", "")), "appointment-state.json", "application/json")
  {
    assert ToLower("download") == "download";
    assert ToLower("json") == "json";
  }
}
