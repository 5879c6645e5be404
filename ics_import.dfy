/**
 * `parseStateFromICS`: the text is unfolded (a line break followed by a space or a tab
 * joins two lines, section 3.1 of RFC 5545), carriage returns are dropped, and the
 * trimmed non-empty lines are read by a small state machine: `BEGIN:VEVENT` opens an
 * event, `END:VEVENT` closes it and keeps it when it has a `DTSTART`, and every other
 * line inside an event is split at its first colon into a property name and a value.
 */
module IcsImport {
  import opened Wrappers
  import opened JsText
  import opened CivilTime
  import opened DateStrings
  import opened IcsText
  import opened Appointments
  import opened IcsFields
  import IcsDescription

  // ---- Lines ----

  /** `text.replace(/\r\n[ \t]/g, '')`: every line break followed by a space or a tab is removed with it. */
  function Unfold(s: string): (r: string)
    ensures |r| <= |s|
    decreases |s|
  {
    if FoldAt(s) then Unfold(s[3..])
    else if s == [] then []
    else [s[0]] + Unfold(s[1..])
  }

  /** The lines the state machine reads: unfolded, without carriage returns, trimmed, empty ones left out. */
  function ContentLines(text: string): seq<string> {
    TrimParts(Split(DropReturns(Unfold(text)), '\n'))
  }

  /** The position of the first colon, or the length of the line when it has none. */
  function ColonIndex(line: string): (r: nat)
    ensures r <= |line| && ':' !in line[..r]
    ensures r < |line| <==> ':' in line
    ensures r < |line| ==> line[r] == ':'
    decreases |line|
  {
    if line == [] || line[0] == ':' then 0
    else
      var r := 1 + ColonIndex(line[1..]);
      assert line[..r] == [line[0]] + line[1..][..r - 1];
      r
  }

  // ---- The state machine ----

  /** The properties read so far inside an event; `ATTENDEE` lines are collected in a list of their own. */
  datatype Event = Event(props: map<string, string>, attendees: seq<string>)

  /** An event before its first property. */
  const NoProps: Event := Event(map[], [])

  /** `current[key]`, with a missing property read as the empty text (both are falsy). */
  function Prop(e: Event, key: string): string {
    if key in e.props then e.props[key] else ""
  }

  /** `current` (`null` outside an event) and the appointments read so far. */
  datatype Reader = Reader(current: Option<Event>, appointments: seq<Appointment>)

  const BeginEvent: string := "BEGIN:VEVENT"
  const EndEvent: string := "END:VEVENT"

  /** A line inside an event: at its first colon it splits into a name and a value; a line without a colon is skipped. */
  function AddField(e: Event, line: string): Event {
    var i := ColonIndex(line);
    if i == |line| then e
    else if line[..i] == "ATTENDEE" then e.(attendees := e.attendees + [line[i + 1..]])
    else e.(props := e.props[line[..i] := line[i + 1..]])
  }

  /** The appointments a closed event adds: `build` of it when it has a `DTSTART`, else none. */
  function Closed(e: Event, apps: seq<Appointment>, build: (Event, nat) -> Appointment): seq<Appointment> {
    if Prop(e, "DTSTART") != "" then apps + [build(e, |apps|)] else apps
  }

  /**
   * One turn of the loop of `parseStateFromICS`; `build(e, k)` is the appointment made of
   * the event `e` when `k` appointments were read before it.
   */
  function ReadLine(r: Reader, line: string, build: (Event, nat) -> Appointment): Reader {
    if line == BeginEvent then Reader(Some(NoProps), r.appointments)
    else if line == EndEvent then
      Reader(None, if r.current.Some? then Closed(r.current.value, r.appointments, build) else r.appointments)
    else if r.current.None? then r
    else Reader(Some(AddField(r.current.value, line)), r.appointments)
  }

  /** The reader after the lines, in order. */
  function ReadLines(lines: seq<string>, r: Reader, build: (Event, nat) -> Appointment): Reader
    decreases |lines|
  {
    if lines == [] then r else ReadLines(lines[1..], ReadLine(r, lines[0], build), build)
  }

  // ---- The appointment of an event ----

  /** `unescapeICS(a || b || d)`. */
  function FirstOf(how: Reading, a: string, b: string, d: string): string {
    Unescape(how, OrText(OrText(a, b), d))
  }

  /** Each value unescaped, in order. */
  function UnescapeAll(how: Reading, xs: seq<string>): (r: seq<string>)
    ensures |r| == |xs| && forall i :: 0 <= i < |xs| ==> r[i] == Unescape(how, xs[i])
    decreases |xs|
  {
    if xs == [] then [] else [Unescape(how, xs[0])] + UnescapeAll(how, xs[1..])
  }

  /**
   * `current.UID || crypto.randomUUID()`: as written the identifier is taken without
   * unescaping; as intended it is unescaped like every other text property, which is how
   * the exporter wrote it.
   */
  function EventId(how: Reading, e: Event, uuid: string): string {
    OrText(if how == AsWritten then Prop(e, "UID") else UnescapeIcs(Prop(e, "UID")), uuid)
  }

  /** A reminder read from the description, as the number the appointment carries. */
  function AsNumber(x: Option<int>): Option<JsNum> {
    if x.Some? then Some(Num(x.value)) else None
  }

  /**
   * The appointment `parseStateFromICS` makes of a closed event under a reading, with
   * `nowText` standing for every `new Date().toISOString()` and `uuid` for
   * `crypto.randomUUID()`.
   */
  function EventAppointment(how: Reading, e: Event, nowText: string, uuid: string): Appointment {
    var details := IcsDescription.DescriptionOf(how, Prop(e, "DESCRIPTION"));
    Appointment(
      EventId(how, e, uuid),
      OrOptText(FromIcsDateTime(Prop(e, "DTSTART")), nowText),
      FromIcsDateTime(Prop(e, "DTEND")),
      RRuleToRecurrence(Prop(e, "RRULE")),
      Unescape(how, OrText(Prop(e, "SUMMARY"), "Untitled Appointment")),
      details.description,
      details.contact,
      details.category,
      details.tags,
      PriorityOr1(NumberOf(Prop(e, "PRIORITY"))),
      nowText,
      FirstOf(how, Prop(e, "LOCATION"), details.location, ""),
      FirstOf(how, Prop(e, "URL"), details.url, ""),
      ToLower(FirstOf(how, Prop(e, "STATUS"), details.status, "confirmed")),
      if e.attendees != [] then UnescapeAll(how, e.attendees) else details.attendees,
      FirstOf(how, Prop(e, "X-WEBAPPT-TIMEZONE"), details.timezone, "UTC"),
      ToLower(Unescape(how, Prop(e, "X-WEBAPPT-ALLDAY"))) == "true" || details.allDay,
      OrText(details.calendarId, "default"),
      AsNumber(details.reminderMinutes),
      None,
      None,
      None)
  }

  /** The appointment of the `k`-th closed event. */
  function Builder(how: Reading, nowText: string, ids: nat -> string): (r: (Event, nat) -> Appointment)
    ensures forall e, k :: r(e, k) == EventAppointment(how, e, nowText, ids(k))
  {
    (e: Event, k: nat) => EventAppointment(how, e, nowText, ids(k))
  }

  /** The state `parseStateFromICS` returns for the text, under a reading. */
  function IcsState(how: Reading, icsText: string, nowText: string, ids: nat -> string): CalendarState {
    var r := ReadLines(ContentLines(icsText), Reader(None, []), Builder(how, nowText, ids));
    CalendarState(r.appointments, "month", "priority", nowText)
  }

  /** `parseStateFromICS(icsText)`: one pass over the lines, with `now` and `ids` for the clock and the identifiers. */
  method ParseStateFromIcs(icsText: string, now: Instant, ids: nat -> string) returns (state: CalendarState)
    ensures state == IcsState(AsWritten, icsText, ToIsoString(now), ids)
  {
    var nowText := ToIsoString(now);
    var appointments := ReadEvents(ContentLines(icsText), Builder(AsWritten, nowText, ids));
    state := CalendarState(appointments, "month", "priority", nowText);
  }

  /** The `for` loop of `parseStateFromICS` over the lines, with `current` the event being read. */
  method ReadEvents(lines: seq<string>, build: (Event, nat) -> Appointment) returns (appointments: seq<Appointment>)
    ensures appointments == ReadLines(lines, Reader(None, []), build).appointments
  {
    appointments := [];
    var current: Option<Event> := None;
    var index := 0;
    while index < |lines|
      invariant 0 <= index <= |lines|
      invariant ReadLines(lines[index..], Reader(current, appointments), build)
             == ReadLines(lines, Reader(None, []), build)
      decreases |lines| - index
    {
      var line := lines[index];
      assert lines[index..][1..] == lines[index + 1..];
      if line == BeginEvent {
        current := Some(NoProps);
      } else if line == EndEvent {
        if current.Some? && Prop(current.value, "DTSTART") != "" {
          appointments := appointments + [build(current.value, |appointments|)];
        }
        current := None;
      } else if current.Some? {
        var separator := ColonIndex(line);
        if separator < |line| {
          var key := line[..separator];
          var value := line[separator + 1..];
          if key == "ATTENDEE" {
            current := Some(current.value.(attendees := current.value.attendees + [value]));
          } else {
            current := Some(current.value.(props := current.value.props[key := value]));
          }
        }
      }
      index := index + 1;
    }
  }

  // ---- Lines, as read ----

  /** A line break followed by a space or a tab disappears, wherever it falls: a folded line reads back joined. */
  lemma {:induction false} UnfoldFold(a: string, w: char, b: string)
    requires w == ' ' || w == '\t'
    ensures Unfold(a + ['\r', '\n', w] + b) == Unfold(a) + Unfold(b)
    decreases |a|
  {
    var s := a + ['\r', '\n', w] + b;
    if a == [] {
      assert s[3..] == b;
    } else if FoldAt(a) {
      assert s[..3] == a[..3];
      assert s[3..] == a[3..] + ['\r', '\n', w] + b;
      UnfoldFold(a[3..], w, b);
    } else {
      if |a| == 1 {
        assert s[1] == '\r';
      } else if |a| == 2 {
        assert s[2] == '\r';
      } else {
        assert s[..3] == a[..3];
      }
      assert s[1..] == a[1..] + ['\r', '\n', w] + b;
      UnfoldFold(a[1..], w, b);
      UnfoldKeptHead(s, a, Unfold(b));
    }
  }

  /** The text starts with a folded line break. */
  predicate FoldAt(s: string) {
    |s| >= 3 && s[0] == '\r' && s[1] == '\n' && (s[2] == ' ' || s[2] == '\t')
  }

  /** A first character that starts no fold is kept, in front of what the rest unfolds to. */
  lemma {:induction false} UnfoldKeptHead(s: string, a: string, tail: string)
    requires s != [] && a != [] && s[0] == a[0] && !FoldAt(s) && !FoldAt(a)
    requires Unfold(s[1..]) == Unfold(a[1..]) + tail
    ensures Unfold(s) == Unfold(a) + tail
  {
    var rest := Unfold(a[1..]);
    assert Unfold(s) == [s[0]] + Unfold(s[1..]);
    assert Unfold(a) == [a[0]] + rest;
    assert [a[0]] + (rest + tail) == ([a[0]] + rest) + tail;
  }

  /** A text without carriage returns is left as it is by both replacements. */
  lemma {:induction false} NoReturnsUnchanged(s: string)
    requires '\r' !in s
    ensures Unfold(s) == s && DropReturns(s) == s
    decreases |s|
  {
    if s != [] {
      assert s[0] != '\r' && '\r' !in s[1..];
      NoReturnsUnchanged(s[1..]);
    }
  }

  /** Every line read is non-empty, trimmed, and holds no line break or carriage return. */
  lemma ContentLinesClean(text: string)
    ensures forall i :: 0 <= i < |ContentLines(text)| ==>
      CleanItem(ContentLines(text)[i]) && '\n' !in ContentLines(text)[i] && '\r' !in ContentLines(text)[i]
  {
    var parts := Split(DropReturns(Unfold(text)), '\n');
    TrimPartsClean(parts);
    TrimPartsNoSeparator(parts, '\n');
    forall i | 0 <= i < |parts|
      ensures '\r' !in parts[i]
    {
      SplitKeepsOut(DropReturns(Unfold(text)), '\n', '\r', i);
    }
    TrimPartsNoSeparator(parts, '\r');
  }

  // ---- Events, as read ----

  /** The values of the lines whose name, before the first colon, is `key`, in order. */
  function KeyValues(lines: seq<string>, key: string): seq<string>
    decreases |lines|
  {
    if lines == [] then []
    else
      var i := ColonIndex(lines[0]);
      (if i < |lines[0]| && lines[0][..i] == key then [lines[0][i + 1..]] else []) + KeyValues(lines[1..], key)
  }

  /** The event after the lines of its body, in order. */
  function Fields(lines: seq<string>, e: Event): Event
    decreases |lines|
  {
    if lines == [] then e else Fields(lines[1..], AddField(e, lines[0]))
  }

  /** The last of the values, or `d` when there is none. */
  function LastOr(xs: seq<string>, d: string): string {
    if xs == [] then d else xs[|xs| - 1]
  }

  lemma LastOrAppend(xs: seq<string>, ys: seq<string>, d: string)
    ensures LastOr(xs + ys, d) == LastOr(ys, LastOr(xs, d))
  {
    if ys != [] {
      assert (xs + ys)[|xs + ys| - 1] == ys[|ys| - 1];
    } else {
      assert xs + ys == xs;
    }
  }

  /** The `ATTENDEE` lines of a body are collected in order, after those read before. */
  lemma {:induction false} FieldsAttendees(lines: seq<string>, e: Event)
    ensures Fields(lines, e).attendees == e.attendees + KeyValues(lines, "ATTENDEE")
    decreases |lines|
  {
    if lines != [] {
      FieldsAttendees(lines[1..], AddField(e, lines[0]));
    }
  }

  /** Any other property holds the value of the last line with its name, or what it held before. */
  lemma {:induction false} FieldsProp(lines: seq<string>, e: Event, key: string)
    requires key != "ATTENDEE"
    ensures Prop(Fields(lines, e), key) == LastOr(KeyValues(lines, key), Prop(e, key))
    decreases |lines|
  {
    if lines != [] {
      var f := AddField(e, lines[0]);
      FieldsProp(lines[1..], f, key);
      var i := ColonIndex(lines[0]);
      var first := if i < |lines[0]| && lines[0][..i] == key then [lines[0][i + 1..]] else [];
      assert Prop(f, key) == LastOr(first, Prop(e, key));
      LastOrAppend(first, KeyValues(lines[1..], key), Prop(e, key));
    }
  }

  /** Outside an event, every line but `BEGIN:VEVENT` is ignored. */
  lemma {:induction false} OutsideIgnored(lines: seq<string>, r: Reader, build: (Event, nat) -> Appointment)
    requires r.current.None? && BeginEvent !in lines
    ensures ReadLines(lines, r, build) == r
    decreases |lines|
  {
    if lines != [] {
      assert lines[0] != BeginEvent && BeginEvent !in lines[1..];
      OutsideIgnored(lines[1..], r, build);
    }
  }

  /** Inside an event, the lines of its body only add to the event. */
  lemma {:induction false} ReadBody(lines: seq<string>, e: Event, apps: seq<Appointment>, build: (Event, nat) -> Appointment)
    requires BeginEvent !in lines && EndEvent !in lines
    ensures ReadLines(lines, Reader(Some(e), apps), build) == Reader(Some(Fields(lines, e)), apps)
    decreases |lines|
  {
    if lines != [] {
      assert lines[0] != BeginEvent && lines[0] != EndEvent;
      assert BeginEvent !in lines[1..] && EndEvent !in lines[1..];
      ReadBody(lines[1..], AddField(e, lines[0]), apps, build);
    }
  }

  /**
   * A whole event, wherever the reader was: it is kept, as the next appointment, exactly when
   * its last `DTSTART` line has a value; its attendees are its `ATTENDEE` values in order.
   */
  lemma ReadEvent(body: seq<string>, rest: seq<string>, r: Reader, build: (Event, nat) -> Appointment)
    requires BeginEvent !in body && EndEvent !in body
    ensures var e := Fields(body, NoProps);
      && e.attendees == KeyValues(body, "ATTENDEE")
      && Prop(e, "DTSTART") == LastOr(KeyValues(body, "DTSTART"), "")
      && ReadLines([BeginEvent] + body + [EndEvent] + rest, r, build)
         == ReadLines(rest, Reader(None,
              if Prop(e, "DTSTART") != "" then r.appointments + [build(e, |r.appointments|)] else r.appointments), build)
  {
    var lines := [BeginEvent] + body + [EndEvent] + rest;
    var e := Fields(body, NoProps);
    FieldsAttendees(body, NoProps);
    FieldsProp(body, NoProps, "DTSTART");
    ReadLinesConcat([BeginEvent], body + [EndEvent] + rest, r, build);
    assert [BeginEvent] + body + [EndEvent] + rest == [BeginEvent] + (body + ([EndEvent] + rest));
    var begun := ReadLine(r, BeginEvent, build);
    assert ReadLines([BeginEvent], r, build) == begun;
    ReadLinesConcat(body, [EndEvent] + rest, begun, build);
    ReadBody(body, NoProps, r.appointments, build);
    var closing := Reader(Some(e), r.appointments);
    assert ReadLines([EndEvent] + rest, closing, build) == ReadLines(rest, ReadLine(closing, EndEvent, build), build);
  }

  /** Reading two runs of lines is reading the first, then the second. */
  lemma {:induction false} ReadLinesConcat(a: seq<string>, b: seq<string>, r: Reader, build: (Event, nat) -> Appointment)
    ensures ReadLines(a + b, r, build) == ReadLines(b, ReadLines(a, r, build), build)
    decreases |a|
  {
    if a == [] {
      assert a + b == b;
    } else {
      assert (a + b)[1..] == a[1..] + b;
      ReadLinesConcat(a[1..], b, ReadLine(r, a[0], build), build);
    }
  }
}
