/**
 * What the importer reads back from what the exporter writes: the content lines of an
 * exported event, fed to the state machine of `parseStateFromICS`, give an event whose
 * properties are the values `stateToICS` wrote.
 */
module IcsRoundTrip {
  import opened Wrappers
  import opened CivilTime
  import opened DateStrings
  import opened JsText
  import opened Appointments
  import opened IcsText
  import opened IcsFields
  import opened IcsDescription
  import opened IcsExport
  import opened IcsImport

  /** Different names are written differently. */
  lemma NameTextInjective(m: Name, n: Name)
    ensures NameText(m) == NameText(n) ==> m == n
  {
  }

  /** The first colon of a text is the first colon after a colon-free start. */
  lemma {:induction false} ColonAfter(t: string, rest: string)
    requires ':' !in t && rest != [] && rest[0] == ':'
    ensures ColonIndex(t + rest) == |t|
    decreases |t|
  {
    if t != [] {
      assert (t + rest)[1..] == t[1..] + rest;
      assert ':' !in t[1..];
      ColonAfter(t[1..], rest);
    }
  }

  /** A content line of the exporter splits, at its first colon, into its name and its value. */
  lemma PropLineSplit(n: Name, x: string)
    ensures var line := PropLine(n, x); var i := |NameText(n)|;
      ColonIndex(line) == i && i < |line| && line[..i] == NameText(n) && line[i + 1..] == x
  {
    var t := NameText(n);
    NameTextPlain(n);
    assert PropLine(n, x) == t + (":" + x);
    ColonAfter(t, ":" + x);
  }

  /** A line of any other name is neither `BEGIN:VEVENT` nor `END:VEVENT`. */
  lemma NotFrameLine(n: Name, x: string)
    requires n != Begin && n != End
    ensures PropLine(n, x) != BeginEvent && PropLine(n, x) != EndEvent
  {
    PropLineSplit(n, x);
    FrameLines();
    PropLineSplit(Begin, "VEVENT");
    PropLineSplit(End, "VEVENT");
    NameTextInjective(n, Begin);
    NameTextInjective(n, End);
  }

  lemma {:induction false} PropLinesConcat(a: seq<(Name, string)>, b: seq<(Name, string)>)
    ensures PropLines(a + b) == PropLines(a) + PropLines(b)
    decreases |a|
  {
    if a == [] {
      assert a + b == b;
    } else {
      assert (a + b)[1..] == a[1..] + b;
      PropLinesConcat(a[1..], b);
    }
  }

  /** Properties without the names `BEGIN` and `END` give no frame line. */
  lemma {:induction false} NoFrameLines(ps: seq<(Name, string)>)
    requires ValuesNamed(ps, Begin) == [] && ValuesNamed(ps, End) == []
    ensures BeginEvent !in PropLines(ps) && EndEvent !in PropLines(ps)
    decreases |ps|
  {
    if ps != [] {
      assert ValuesNamed(ps[1..], Begin) == [] && ValuesNamed(ps[1..], End) == [];
      NoFrameLines(ps[1..]);
      NotFrameLine(ps[0].0, ps[0].1);
    }
  }

  /** The lines of the properties, read by name, give the values of that name in order. */
  lemma {:induction false} KeyValuesOfLines(ps: seq<(Name, string)>, n: Name)
    ensures KeyValues(PropLines(ps), NameText(n)) == ValuesNamed(ps, n)
    decreases |ps|
  {
    if ps != [] {
      KeyValuesOfLines(ps[1..], n);
      PropLineSplit(ps[0].0, ps[0].1);
      NameTextInjective(ps[0].0, n);
    }
  }

  /** An event's properties between `BEGIN:VEVENT` and `END:VEVENT`. */
  function Inner(v: EventValues): seq<(Name, string)> {
    Expand(EventSlots(v)[1..15])
  }

  lemma {:induction false} ExpandConcat(a: seq<Slot>, b: seq<Slot>)
    ensures Expand(a + b) == Expand(a) + Expand(b)
    decreases |a|
  {
    if a == [] {
      assert a + b == b;
    } else {
      assert (a + b)[1..] == a[1..] + b;
      ExpandConcat(a[1..], b);
    }
  }

  /** An event is `BEGIN:VEVENT`, its inner properties, then `END:VEVENT`; the inner ones hold every other name. */
  lemma EventSplit(v: EventValues)
    ensures EventProps(v) == [(Begin, "VEVENT")] + Inner(v) + [(End, "VEVENT")]
    ensures ValuesNamed(Inner(v), Begin) == [] && ValuesNamed(Inner(v), End) == []
    ensures forall n :: n != Begin && n != End ==> ValuesNamed(Inner(v), n) == ValuesNamed(EventProps(v), n)
  {
    var slots := EventSlots(v);
    assert Expand([slots[0]]) == [(Begin, "VEVENT")];
    assert Expand([slots[15]]) == [(End, "VEVENT")];
    SplitSlots(slots, (Begin, "VEVENT"), (End, "VEVENT"));
    EventValuesNamed(v, Begin);
    EventValuesNamed(v, End);
  }

  /** Sixteen entries expand to the first, the inner fourteen and the last, and so do the values of each name. */
  lemma SplitSlots(slots: seq<Slot>, first: (Name, string), last: (Name, string))
    requires |slots| == 16 && Expand([slots[0]]) == [first] && Expand([slots[15]]) == [last]
    ensures Expand(slots) == [first] + Expand(slots[1..15]) + [last]
    ensures forall n :: ValuesNamed(Expand(slots), n) ==
                        ValuesNamed([first], n) + ValuesNamed(Expand(slots[1..15]), n) + ValuesNamed([last], n)
  {
    assert slots == [slots[0]] + slots[1..15] + [slots[15]];
    ExpandConcat([slots[0]] + slots[1..15], [slots[15]]);
    ExpandConcat([slots[0]], slots[1..15]);
    forall n: Name
      ensures ValuesNamed(Expand(slots), n)
           == ValuesNamed([first], n) + ValuesNamed(Expand(slots[1..15]), n) + ValuesNamed([last], n)
    {
      ValuesNamedConcat([first] + Expand(slots[1..15]), [last], n);
      ValuesNamedConcat([first], Expand(slots[1..15]), n);
    }
  }

  /** The event the importer reads from the inner lines of an exported event. */
  function ReadBack(v: EventValues): Event {
    Fields(PropLines(Inner(v)), NoProps)
  }

  /** An exported event's lines are `BEGIN:VEVENT`, lines of other names, then `END:VEVENT`. */
  lemma ExportedLines(v: EventValues)
    ensures PropLines(EventProps(v)) == [BeginEvent] + PropLines(Inner(v)) + [EndEvent]
    ensures BeginEvent !in PropLines(Inner(v)) && EndEvent !in PropLines(Inner(v))
  {
    EventSplit(v);
    PropLinesConcat([(Begin, "VEVENT")] + Inner(v), [(End, "VEVENT")]);
    PropLinesConcat([(Begin, "VEVENT")], Inner(v));
    FrameLines();
    NoFrameLines(Inner(v));
  }

  /** The attendees read back are the ones written, in order. */
  lemma ReadBackAttendees(v: EventValues)
    ensures ReadBack(v).attendees == v.attendees
  {
    EventSplit(v);
    EventHolds(v);
    FieldsAttendees(PropLines(Inner(v)), NoProps);
    KeyValuesOfLines(Inner(v), Attendee);
    AttendeeName();
  }

  lemma AttendeeName()
    ensures NameText(Attendee) == "ATTENDEE"
  {
  }

  /** Under every other name, the property read back is the last value written for it. */
  lemma ReadBackProp(v: EventValues, n: Name)
    requires n != Attendee && n != Begin && n != End
    ensures Prop(ReadBack(v), NameText(n)) == LastOr(ValuesNamed(EventProps(v), n), "")
  {
    EventSplit(v);
    AttendeeName();
    NameTextInjective(n, Attendee);
    FieldsProp(PropLines(Inner(v)), NoProps, NameText(n));
    KeyValuesOfLines(Inner(v), n);
  }

  /**
   * The lines of an exported event, read wherever the reader was, close one event: the
   * event read back, kept as the next appointment when its `DTSTART` is not empty.
   */
  lemma ReadExportedEvent(v: EventValues, rest: seq<string>, r: Reader, build: (Event, nat) -> Appointment)
    ensures ReadLines(PropLines(EventProps(v)) + rest, r, build)
         == ReadLines(rest, Reader(None,
              if v.start != "" then r.appointments + [build(ReadBack(v), |r.appointments|)] else r.appointments), build)
  {
    ExportedLines(v);
    ReadEvent(PropLines(Inner(v)), rest, r, build);
    ReadBackProp(v, DtStart);
    EventHolds(v);
    StartName();
  }

  lemma StartName()
    ensures NameText(DtStart) == "DTSTART"
  {
  }

  /** The optional value as a text, the empty text when it is left out. */
  function TextOf(x: Option<string>): string {
    if x.Some? then x.value else ""
  }

  /** Under every other name, the property read back is the value of that name's entry. */
  lemma ReadBackEntry(v: EventValues, n: Name)
    requires n != Attendee && n != Begin && n != End
    ensures Prop(ReadBack(v), NameText(n)) == LastOr(SlotValues(EventSlot(v, n)), "")
  {
    ReadBackProp(v, n);
    EventValuesNamed(v, n);
  }

  /** The identifier, the dates and the title read back are the ones written. */
  lemma ReadBackFirst(v: EventValues)
    ensures var e := ReadBack(v);
      && Prop(e, "UID") == v.uid && Prop(e, "DTSTART") == v.start && Prop(e, "DTEND") == TextOf(v.end)
      && Prop(e, "SUMMARY") == v.summary
  {
    assert NameText(Uid) == "UID" && NameText(DtStart) == "DTSTART" && NameText(DtEnd) == "DTEND";
    assert NameText(Summary) == "SUMMARY";
    ReadBackEntry(v, Uid);
    ReadBackEntry(v, DtStart);
    ReadBackEntry(v, DtEnd);
    ReadBackEntry(v, Summary);
  }

  /** The description, place, link and status read back are the ones written. */
  lemma ReadBackSecond(v: EventValues)
    ensures var e := ReadBack(v);
      && Prop(e, "DESCRIPTION") == v.description && Prop(e, "LOCATION") == TextOf(v.location)
      && Prop(e, "URL") == TextOf(v.url) && Prop(e, "STATUS") == v.status
  {
    assert NameText(Description) == "DESCRIPTION" && NameText(Place) == "LOCATION";
    assert NameText(Link) == "URL" && NameText(State) == "STATUS";
    ReadBackEntry(v, Description);
    ReadBackEntry(v, Place);
    ReadBackEntry(v, Link);
    ReadBackEntry(v, State);
  }

  /** The zone, the all-day flag, the priority and the rule read back are the ones written. */
  lemma ReadBackThird(v: EventValues)
    ensures var e := ReadBack(v);
      && Prop(e, "X-WEBAPPT-TIMEZONE") == v.timezone && Prop(e, "X-WEBAPPT-ALLDAY") == v.allDay
      && Prop(e, "PRIORITY") == v.priority && Prop(e, "RRULE") == TextOf(v.rrule)
  {
    assert NameText(XTimezone) == "X-WEBAPPT-TIMEZONE" && NameText(XAllDay) == "X-WEBAPPT-ALLDAY";
    assert NameText(Priority) == "PRIORITY" && NameText(RRule) == "RRULE";
    ReadBackEntry(v, XTimezone);
    ReadBackEntry(v, XAllDay);
    ReadBackEntry(v, Priority);
    ReadBackEntry(v, RRule);
  }

  // ---- The appointment read back ----

  /** Escaping leaves the empty text empty and no other text empty. */
  lemma EscapeIcsEmpty(x: string)
    ensures EscapeIcs(x) == "" <==> x == ""
  {
    UnescapeEscape(x);
    if x == "" {
      assert EscapeIcs(x) == "";
    }
  }

  /** Escaped attendees unescape to themselves. */
  lemma {:induction false} UnescapeAllEscapeAll(xs: seq<string>)
    ensures UnescapeAll(Intended, EscapeAll(xs)) == xs
    decreases |xs|
  {
    if xs != [] {
      UnescapeEscape(xs[0]);
      UnescapeAllEscapeAll(xs[1..]);
    }
  }

  /** The appointment the importer makes of the event exported for `item`. */
  function Imported(item: Appointment, uid: string, stamp: string, start: string, end: string,
                    nowText: string, uuid: string): Appointment {
    EventAppointment(Intended, ReadBack(EventValuesOf(item, uid, stamp, start, end)), nowText, uuid)
  }

  /**
   * The identifier, the title, the priority and the recurrence come back: the identifier
   * and the title as written, the priority clamped to 1..10 and the recurrence as its
   * lower-case name when it has a rule, else `none`.
   */
  lemma ImportedIdentity(item: Appointment, uid: string, stamp: string, start: string, end: string,
                         nowText: string, uuid: string)
    ensures var a := Imported(item, uid, stamp, start, end, nowText, uuid);
      && a.id == OrText(uid, uuid)
      && a.title == OrText(item.title, "Untitled Appointment")
      && a.priority == ClampPriority(item.priority)
      && a.recurrence == (if ToLower(item.recurrence) in KnownRecurrences then ToLower(item.recurrence) else "none")
      && a.createdAt == nowText
  {
    ImportedName(item, uid, stamp, start, end, nowText, uuid);
    ImportedRule(item, uid, stamp, start, end, nowText, uuid);
  }

  /** The identifier and the title come back as written. */
  lemma ImportedName(item: Appointment, uid: string, stamp: string, start: string, end: string,
                     nowText: string, uuid: string)
    ensures var a := Imported(item, uid, stamp, start, end, nowText, uuid);
      a.id == OrText(uid, uuid) && a.title == OrText(item.title, "Untitled Appointment") && a.createdAt == nowText
  {
    var v := EventValuesOf(item, uid, stamp, start, end);
    ReadBackFirst(v);
    UnescapeEscape(uid);
    var title := OrText(item.title, "Untitled Appointment");
    UnescapeEscape(title);
    EscapeIcsEmpty(title);
  }

  /** The priority comes back clamped and the recurrence as its lower-case name or `none`. */
  lemma ImportedRule(item: Appointment, uid: string, stamp: string, start: string, end: string,
                     nowText: string, uuid: string)
    ensures var a := Imported(item, uid, stamp, start, end, nowText, uuid);
      && a.priority == ClampPriority(item.priority)
      && a.recurrence == (if ToLower(item.recurrence) in KnownRecurrences then ToLower(item.recurrence) else "none")
  {
    var v := EventValuesOf(item, uid, stamp, start, end);
    ReadBackThird(v);
    NumberOfIntToString(ClampPriority(item.priority));
    RRuleRoundTrip(item.recurrence);
    assert TextOf(v.rrule) == RRuleText(item.recurrence);
  }

  /**
   * The fields carried by the description come back as the description block wrote them:
   * trimmed texts, trimmed non-empty list items, the defaults for empty values, and a
   * reminder when it was a number of at least 0.
   */
  lemma ImportedDetails(item: Appointment, uid: string, stamp: string, start: string, end: string,
                        nowText: string, uuid: string)
    requires OneLineFields(item)
    ensures var a := Imported(item, uid, stamp, start, end, nowText, uuid);
      && a.description == Trim(item.description)
      && a.contact == TrimParts(item.contact)
      && a.category == OrText(Trim(item.category), "general")
      && a.tags == TrimParts(item.tags)
      && a.calendarId == OrText(Trim(item.calendarId), "default")
      && a.reminderMinutes == AsNumber(ReadBackReminder(item.reminderMinutes))
  {
    var v := EventValuesOf(item, uid, stamp, start, end);
    ReadBackSecond(v);
    DescriptionRoundTrip(item);
  }

  /** The place and the link come back as they were, and so do the attendees. */
  lemma ImportedPlace(item: Appointment, uid: string, stamp: string, start: string, end: string,
                      nowText: string, uuid: string)
    requires OneLineFields(item)
    ensures var a := Imported(item, uid, stamp, start, end, nowText, uuid);
      a.location == item.location && a.url == item.url && a.attendees == item.attendees
  {
    ImportedLink(item, uid, stamp, start, end, nowText, uuid);
    ImportedAttendees(item, uid, stamp, start, end, nowText, uuid);
  }

  lemma ImportedLink(item: Appointment, uid: string, stamp: string, start: string, end: string,
                     nowText: string, uuid: string)
    requires OneLineFields(item)
    ensures var a := Imported(item, uid, stamp, start, end, nowText, uuid);
      a.location == item.location && a.url == item.url
  {
    var v := EventValuesOf(item, uid, stamp, start, end);
    ReadBackSecond(v);
    DescriptionRoundTrip(item);
    UnescapeEscape(item.location);
    EscapeIcsEmpty(item.location);
    UnescapeEscape(item.url);
    EscapeIcsEmpty(item.url);
  }

  lemma ImportedAttendees(item: Appointment, uid: string, stamp: string, start: string, end: string,
                          nowText: string, uuid: string)
    requires OneLineFields(item)
    ensures Imported(item, uid, stamp, start, end, nowText, uuid).attendees == item.attendees
  {
    ReadBackSecond(EventValuesOf(item, uid, stamp, start, end));
    ReadBackValuesAttendees(item, uid, stamp, start, end);
    DescriptionRoundTrip(item);
    if item.attendees != [] {
      UnescapeAllEscapeAll(item.attendees);
    }
  }

  /** The all-day flag and the zone come back as they were; the status comes back lower-cased. */
  lemma ImportedFlags(item: Appointment, uid: string, stamp: string, start: string, end: string,
                      nowText: string, uuid: string)
    requires OneLineFields(item)
    ensures var a := Imported(item, uid, stamp, start, end, nowText, uuid);
      && a.allDay == item.allDay
      && a.timezone == OrText(item.timezone, "UTC")
      && a.status == ToLower(ToUpper(OrText(item.status, "confirmed")))
  {
    var v := EventValuesOf(item, uid, stamp, start, end);
    ReadBackSecond(v);
    ReadBackThird(v);
    DescriptionRoundTrip(item);
    var zone := OrText(item.timezone, "UTC");
    UnescapeEscape(zone);
    EscapeIcsEmpty(zone);
    var status := ToUpper(OrText(item.status, "confirmed"));
    UnescapeEscape(status);
    EscapeIcsEmpty(status);
    AllDayTexts();
  }

  /** The two all-day texts: only `TRUE` reads as `true`. */
  lemma AllDayTexts()
    ensures ToLower(UnescapeIcs("TRUE")) == "true" && ToLower(UnescapeIcs("FALSE")) != "true"
  {
    PlainReadsBack("TRUE");
    PlainReadsBack("FALSE");
    LowerTrueText();
    assert |ToLower("FALSE")| == 5;
  }

  /** A text without a backslash is left as it is by unescaping. */
  lemma {:induction false} PlainReadsBack(s: string)
    requires '\\' !in s
    ensures UnescapeIcs(s) == s
    decreases |s|
  {
    if s != [] {
      assert s[0] != '\\' && '\\' !in s[1..];
      PlainReadsBack(s[1..]);
    }
  }

  lemma LowerTrueText()
    ensures ToLower("TRUE") == "true"
  {
    var l := ToLower("TRUE");
    assert l[0] == 't' && l[1] == 'r' && l[2] == 'u' && l[3] == 'e';
  }

  lemma ReadBackValuesAttendees(item: Appointment, uid: string, stamp: string, start: string, end: string)
    ensures ReadBack(EventValuesOf(item, uid, stamp, start, end)).attendees == EscapeAll(item.attendees)
  {
    ReadBackAttendees(EventValuesOf(item, uid, stamp, start, end));
  }

  /** The start and the end are read back through `fromICSDateTime`; an end is there only when one was written. */
  lemma ImportedDates(item: Appointment, uid: string, stamp: string, start: string, end: string,
                      nowText: string, uuid: string)
    ensures var a := Imported(item, uid, stamp, start, end, nowText, uuid);
      && a.date == OrOptText(FromIcsDateTime(start), nowText)
      && a.endDate == (if Present(item.endDate) then FromIcsDateTime(end) else None)
      && a.recurrenceCount.None? && a.occurrenceDate.None? && a.sourceId.None?
  {
    ReadBackFirst(EventValuesOf(item, uid, stamp, start, end));
    assert FromIcsDateTime("") == None;
  }

  /** A start written from an instant with a four-digit year reads back as that instant to the second. */
  lemma ImportedStart(item: Appointment, uid: string, stamp: string, t: Instant, end: string,
                      nowText: string, uuid: string)
    requires 1000 <= t.year <= 9999
    ensures Imported(item, uid, stamp, ToIcsDateTime(ToIsoString(t)), end, nowText, uuid).date
         == ToIsoString(WholeSecond(t))
  {
    ImportedDates(item, uid, stamp, ToIcsDateTime(ToIsoString(t)), end, nowText, uuid);
    IcsDateTimeRoundTrip(t);
  }

  // ---- The identifier as written ----

  lemma EscapeComma()
    ensures EscapeIcs("a,b") == "a\\,b"
  {
    EscapeIcsCharwise("a,b");
    var s := "a,b";
    assert EscapeSome(s, Escaped) == [s[0]] + EscapeSome(s[1..], Escaped);
    assert EscapeSome(s[1..], Escaped) == ['\\', ','] + EscapeSome(s[2..], Escaped);
    assert EscapeSome(s[2..], Escaped) == [s[2]] + EscapeSome(s[3..], Escaped);
  }

  /**
   * As written, the importer keeps the identifier escaped: an appointment `a,b` is exported
   * with `UID:a\,b` and comes back with the identifier `a\,b`.
   */
  lemma IdAsWrittenKeepsEscape(item: Appointment, stamp: string, start: string, end: string, uuid: string)
    ensures EventId(AsWritten, ReadBack(EventValuesOf(item, "a,b", stamp, start, end)), uuid) == "a\\,b"
    ensures "a\\,b" != "a,b"
  {
    ReadBackFirst(EventValuesOf(item, "a,b", stamp, start, end));
    EscapeComma();
  }
}
