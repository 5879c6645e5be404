/**
 * `stateToICS`: one `VEVENT` per appointment inside a `VCALENDAR`, each content line a
 * property name, a colon and a value (section 3.1 of RFC 5545), lines joined with CRLF.
 */
module IcsExport {
  import opened Wrappers
  import opened JsText
  import opened CivilTime
  import opened DateStrings
  import opened IcsText
  import opened Appointments
  import IcsDescription
  import opened IcsFields

  /** The property names an exported event uses, in the order it writes them. */
  datatype Name = Begin | Uid | DtStamp | DtStart | DtEnd | XTimezone | XAllDay | Summary
                | Description | Place | Link | State | Attendee | Priority | RRule | End

  function NameText(n: Name): string {
    match n
    case Begin => "BEGIN"
    case Uid => "UID"
    case DtStamp => "DTSTAMP"
    case DtStart => "DTSTART"
    case DtEnd => "DTEND"
    case XTimezone => "X-WEBAPPT-TIMEZONE"
    case XAllDay => "X-WEBAPPT-ALLDAY"
    case Summary => "SUMMARY"
    case Description => "DESCRIPTION"
    case Place => "LOCATION"
    case Link => "URL"
    case State => "STATUS"
    case Attendee => "ATTENDEE"
    case Priority => "PRIORITY"
    case RRule => "RRULE"
    case End => "END"
  }

  /** A property name holds capital letters and dashes: no colon and no white space. */
  lemma NameTextPlain(n: Name)
    ensures NameText(n) != "" && ':' !in NameText(n)
    ensures forall i :: 0 <= i < |NameText(n)| ==> NameText(n)[i] == '-' || 'A' <= NameText(n)[i] <= 'Z'
  {
    var t := NameText(n);
    assert forall i :: 0 <= i < |t| ==> t[i] == '-' || 'A' <= t[i] <= 'Z';
  }

  /** `Math.max(1, Math.min(10, Number(priority) || 1))`. */
  function ClampPriority(priority: int): (r: int)
    ensures 1 <= r <= 10
    ensures 1 <= priority <= 10 ==> r == priority
    ensures priority > 10 ==> r == 10
    ensures priority < 1 ==> r == 1
  {
    var p := PriorityOr1(Num(priority));
    if p < 1 then 1 else if p > 10 then 10 else p
  }

  /** Each text escaped, in order. */
  function EscapeAll(xs: seq<string>): (r: seq<string>)
    ensures |r| == |xs|
    decreases |xs|
  {
    if xs == [] then [] else [EscapeIcs(xs[0])] + EscapeAll(xs[1..])
  }

  /** A date-time field is written when it is a non-empty text. */
  predicate Present(x: Option<string>) {
    x.Some? && x.value != ""
  }

  /** The values an event writes, already escaped and formatted; `None` for a property it leaves out. */
  datatype EventValues = EventValues(
    uid: string, stamp: string, start: string, end: Option<string>, timezone: string,
    allDay: string, summary: string, description: string, location: Option<string>,
    url: Option<string>, status: string, attendees: seq<string>, priority: string,
    rrule: Option<string>)

  /** The values of the event for an appointment, its uid, the stamp and the formatted start and end. */
  function EventValuesOf(item: Appointment, uid: string, stamp: string, start: string, end: string): EventValues {
    EventValues(
      EscapeIcs(uid), stamp, start,
      if Present(item.endDate) then Some(end) else None,
      EscapeIcs(OrText(item.timezone, "UTC")),
      if item.allDay then "TRUE" else "FALSE",
      EscapeIcs(OrText(item.title, "Untitled Appointment")),
      EscapeIcs(IcsDescription.DescriptionBlock(item)),
      if item.location != "" then Some(EscapeIcs(item.location)) else None,
      if item.url != "" then Some(EscapeIcs(item.url)) else None,
      EscapeIcs(ToUpper(OrText(item.status, "confirmed"))),
      EscapeAll(item.attendees),
      IntToString(ClampPriority(item.priority)),
      RecurrenceToRRule(item.recurrence))
  }

  /**
   * One entry of the property list `stateToICS` builds: a property, a property or `null`
   * (dropped by `filter(Boolean)`), or a spread list of properties with one name.
   */
  datatype Slot = One(name: Name, value: string) | Maybe(name: Name, opt: Option<string>) | Many(name: Name, values: seq<string>)

  /** The properties an entry stands for. */
  function SlotProps(s: Slot): seq<(Name, string)> {
    match s
    case One(n, x) => [(n, x)]
    case Maybe(n, x) => if x.Some? then [(n, x.value)] else []
    case Many(n, xs) => Repeated(n, xs)
  }

  /** One property per value of the list, in order. */
  function Repeated(n: Name, xs: seq<string>): seq<(Name, string)>
    decreases |xs|
  {
    if xs == [] then [] else [(n, xs[0])] + Repeated(n, xs[1..])
  }

  /** The entries in order, with the dropped ones left out and the spread lists spread. */
  function Expand(slots: seq<Slot>): seq<(Name, string)>
    decreases |slots|
  {
    if slots == [] then [] else SlotProps(slots[0]) + Expand(slots[1..])
  }

  /** The entry of one event for the name `n`. */
  function EventSlot(v: EventValues, n: Name): (r: Slot)
    ensures r.name == n
  {
    match n
    case Begin => One(Begin, "VEVENT") case Uid => One(Uid, v.uid)
    case DtStamp => One(DtStamp, v.stamp) case DtStart => One(DtStart, v.start)
    case DtEnd => Maybe(DtEnd, v.end) case XTimezone => One(XTimezone, v.timezone)
    case XAllDay => One(XAllDay, v.allDay) case Summary => One(Summary, v.summary)
    case Description => One(Description, v.description) case Place => Maybe(Place, v.location)
    case Link => Maybe(Link, v.url) case State => One(State, v.status)
    case Attendee => Many(Attendee, v.attendees) case Priority => One(Priority, v.priority)
    case RRule => Maybe(RRule, v.rrule) case End => One(End, "VEVENT")
  }

  /** The names of an event's properties, in the order `stateToICS` writes them. */
  const EventNames: seq<Name> := [Begin, Uid, DtStamp, DtStart, DtEnd, XTimezone, XAllDay, Summary,
    Description, Place, Link, State, Attendee, Priority, RRule, End]

  /** The entries of one event: one per name, in order. */
  function EventSlots(v: EventValues): (r: seq<Slot>)
    ensures |r| == |EventNames| && forall i :: 0 <= i < |r| ==> r[i] == EventSlot(v, EventNames[i])
  {
    seq(|EventNames|, i requires 0 <= i < |EventNames| => EventSlot(v, EventNames[i]))
  }

  /** The properties of one event. */
  function EventProps(v: EventValues): seq<(Name, string)> {
    Expand(EventSlots(v))
  }

  /** Each property as a content line `NAME:value`. */
  function PropLines(props: seq<(Name, string)>): (r: seq<string>)
    ensures |r| == |props|
  {
    if props == [] then [] else [PropLine(props[0].0, props[0].1)] + PropLines(props[1..])
  }

  /** The content line `NAME:value`. */
  function PropLine(n: Name, value: string): string {
    NameText(n) + ":" + value
  }

  /** The event of `stateToICS` for an appointment, with `now` for `DTSTAMP`. */
  function EventText(item: Appointment, uid: string, now: Instant): string {
    var end := ToIcsDateTime(OrOptText(item.endDate, ""));
    JoinWith(PropLines(EventProps(EventValuesOf(item, uid, ToIcsDateTime(ToIsoString(now)), ToIcsDateTime(item.date), end))), "\r\n")
  }

  /** The events of the appointments from position `k` on, `event(item, k)` for the `k`-th one. */
  function EventTexts(items: seq<Appointment>, k: nat, event: (Appointment, nat) -> string): (r: seq<string>)
    ensures |r| == |items|
    decreases |items|
  {
    if items == [] then [] else [event(items[0], k)] + EventTexts(items[1..], k + 1, event)
  }

  const DefaultProdId: string := "-//Web Appointment Scheduler//EN"

  /** The calendar's lines: its header, one event per appointment, its end and an empty last line. */
  function CalendarLines(state: CalendarState, prodId: string, event: (Appointment, nat) -> string): seq<string> {
    CalendarHeader(prodId) + EventTexts(state.appointments, 0, event) + ["END:VCALENDAR", ""]
  }

  /** The lines before the first event. */
  function CalendarHeader(prodId: string): seq<string> {
    ["BEGIN:VCALENDAR", "VERSION:2.0", "PRODID:" + OrText(prodId, DefaultProdId), "CALSCALE:GREGORIAN"]
  }

  /**
   * `stateToICS(state, { prodId })`, with `now` for every `DTSTAMP` and `ids(k)` the uuid
   * drawn for the `k`-th appointment when it has no id.
   */
  function StateToIcs(state: CalendarState, prodId: string, now: Instant, ids: nat -> string): string {
    JoinWith(CalendarLines(state, prodId, Exporter(now, ids)), "\r\n")
  }

  /** The event of the `k`-th appointment, with its id or else `ids(k)` for its `UID`. */
  function Exporter(now: Instant, ids: nat -> string): (r: (Appointment, nat) -> string)
    ensures forall item, k :: r(item, k) == EventText(item, OrText(item.id, ids(k)), now)
  {
    (item: Appointment, k: nat) => EventText(item, OrText(item.id, ids(k)), now)
  }

  // ---- What an event holds ----

  /** The values of the properties named `n`, in order. */
  function ValuesNamed(props: seq<(Name, string)>, n: Name): seq<string>
    decreases |props|
  {
    if props == [] then []
    else (if props[0].0 == n then [props[0].1] else []) + ValuesNamed(props[1..], n)
  }

  /** How many of the properties are named `n`. */
  function Count(props: seq<(Name, string)>, n: Name): nat {
    |ValuesNamed(props, n)|
  }

  /** The last of the values, when there is one. */
  function LastOf(xs: seq<string>): Option<string> {
    if xs == [] then None else Some(xs[|xs| - 1])
  }

  /** The value of the last property named `n`: what a reader that keeps the last value sees. */
  function LastValue(props: seq<(Name, string)>, n: Name): Option<string> {
    LastOf(ValuesNamed(props, n))
  }

  lemma {:induction false} ValuesNamedConcat(a: seq<(Name, string)>, b: seq<(Name, string)>, n: Name)
    ensures ValuesNamed(a + b, n) == ValuesNamed(a, n) + ValuesNamed(b, n)
    decreases |a|
  {
    if a == [] {
      assert a + b == b;
    } else {
      assert (a + b)[1..] == a[1..] + b;
      ValuesNamedConcat(a[1..], b, n);
    }
  }

  /** The values an entry stands for. */
  function SlotValues(s: Slot): seq<string> {
    match s
    case One(_, x) => [x]
    case Maybe(_, x) => if x.Some? then [x.value] else []
    case Many(_, xs) => xs
  }

  lemma {:induction false} RepeatedValues(m: Name, xs: seq<string>, n: Name)
    ensures ValuesNamed(Repeated(m, xs), n) == if n == m then xs else []
    decreases |xs|
  {
    if xs != [] {
      RepeatedValues(m, xs[1..], n);
    }
  }

  /** An entry's properties all have its name and hold its values in order. */
  lemma SlotValuesNamed(s: Slot, n: Name)
    ensures ValuesNamed(SlotProps(s), n) == if n == s.name then SlotValues(s) else []
  {
    if s.Many? {
      RepeatedValues(s.name, s.values, n);
    }
  }

  /** The position of each name in an event. */
  function Rank(n: Name): nat {
    match n
    case Begin => 0 case Uid => 1 case DtStamp => 2 case DtStart => 3 case DtEnd => 4
    case XTimezone => 5 case XAllDay => 6 case Summary => 7 case Description => 8
    case Place => 9 case Link => 10 case State => 11 case Attendee => 12 case Priority => 13
    case RRule => 14 case End => 15
  }

  /** Different names have different positions. */
  lemma RankInjective(m: Name, n: Name)
    ensures Rank(m) == Rank(n) ==> m == n
  {
  }

  /** The entries, from position `k` on, have one name each in the order of their positions. */
  predicate RankedFrom(slots: seq<Slot>, k: nat) {
    forall i :: 0 <= i < |slots| ==> Rank(slots[i].name) == k + i
  }

  /**
   * When each entry has its own name, the properties named `n` are exactly those of the
   * entry for `n`, and there are none when there is no such entry.
   */
  lemma {:induction false} RankedValues(slots: seq<Slot>, k: nat, n: Name)
    requires RankedFrom(slots, k)
    ensures ValuesNamed(Expand(slots), n)
         == if k <= Rank(n) < k + |slots| then SlotValues(slots[Rank(n) - k]) else []
    decreases |slots|
  {
    if slots != [] {
      var rest := slots[1..];
      assert RankedFrom(rest, k + 1);
      RankedValues(rest, k + 1, n);
      assert Expand(slots) == SlotProps(slots[0]) + Expand(rest);
      ValuesNamedConcat(SlotProps(slots[0]), Expand(rest), n);
      SlotValuesNamed(slots[0], n);
      RankInjective(slots[0].name, n);
      if Rank(n) != k && k <= Rank(n) < k + |slots| {
        assert slots[Rank(n) - k] == rest[Rank(n) - (k + 1)];
      }
    }
  }

  /** The entries of an event have the sixteen names in order. */
  lemma EventRanked(v: EventValues)
    ensures RankedFrom(EventSlots(v), 0) && |EventSlots(v)| == 16
  {
  }

  /** Under each name an event holds exactly the value or values its entry gives. */
  lemma EventValuesNamed(v: EventValues, n: Name)
    ensures ValuesNamed(EventProps(v), n) == SlotValues(EventSlot(v, n))
  {
    EventRanked(v);
    RankedValues(EventSlots(v), 0, n);
    EventSlotAt(v, n);
  }

  /** The entry for `n` sits at the position of `n`. */
  lemma EventSlotAt(v: EventValues, n: Name)
    ensures Rank(n) < |EventSlots(v)| && EventSlots(v)[Rank(n)] == EventSlot(v, n)
  {
    NameAtRank(n);
  }

  /** The name at the position of `n` is `n`. */
  lemma NameAtRank(n: Name)
    ensures Rank(n) < |EventNames| && EventNames[Rank(n)] == n
  {
  }

  /** The values of an optional property: one when there is a value, none otherwise. */
  function OptionValues(x: Option<string>): seq<string> {
    if x.Some? then [x.value] else []
  }

  /** What an event holds under the names the importer reads. */
  lemma EventHolds(v: EventValues)
    ensures ValuesNamed(EventProps(v), Uid) == [v.uid]
    ensures ValuesNamed(EventProps(v), DtStart) == [v.start]
    ensures ValuesNamed(EventProps(v), DtEnd) == OptionValues(v.end)
    ensures ValuesNamed(EventProps(v), Place) == OptionValues(v.location)
    ensures ValuesNamed(EventProps(v), Link) == OptionValues(v.url)
    ensures ValuesNamed(EventProps(v), State) == [v.status]
    ensures ValuesNamed(EventProps(v), Attendee) == v.attendees
    ensures ValuesNamed(EventProps(v), Priority) == [v.priority]
    ensures ValuesNamed(EventProps(v), RRule) == OptionValues(v.rrule)
    ensures ValuesNamed(EventProps(v), XTimezone) == [v.timezone]
    ensures ValuesNamed(EventProps(v), XAllDay) == [v.allDay]
    ensures ValuesNamed(EventProps(v), Summary) == [v.summary]
    ensures ValuesNamed(EventProps(v), Description) == [v.description]
  {
    EventHoldsFirst(v);
    EventHoldsRest(v);
  }

  lemma EventHoldsFirst(v: EventValues)
    ensures ValuesNamed(EventProps(v), Uid) == [v.uid]
    ensures ValuesNamed(EventProps(v), DtStart) == [v.start]
    ensures ValuesNamed(EventProps(v), DtEnd) == OptionValues(v.end)
    ensures ValuesNamed(EventProps(v), Place) == OptionValues(v.location)
    ensures ValuesNamed(EventProps(v), Link) == OptionValues(v.url)
    ensures ValuesNamed(EventProps(v), State) == [v.status]
  {
    EventValuesNamed(v, Uid);
    EventValuesNamed(v, DtStart);
    EventValuesNamed(v, DtEnd);
    EventValuesNamed(v, Place);
    EventValuesNamed(v, Link);
    EventValuesNamed(v, State);
  }

  lemma EventHoldsRest(v: EventValues)
    ensures ValuesNamed(EventProps(v), Attendee) == v.attendees
    ensures ValuesNamed(EventProps(v), Priority) == [v.priority]
    ensures ValuesNamed(EventProps(v), RRule) == OptionValues(v.rrule)
    ensures ValuesNamed(EventProps(v), XTimezone) == [v.timezone]
    ensures ValuesNamed(EventProps(v), XAllDay) == [v.allDay]
    ensures ValuesNamed(EventProps(v), Summary) == [v.summary]
    ensures ValuesNamed(EventProps(v), Description) == [v.description]
  {
    EventValuesNamed(v, Attendee);
    EventValuesNamed(v, Priority);
    EventValuesNamed(v, RRule);
    EventValuesNamed(v, XTimezone);
    EventValuesNamed(v, XAllDay);
    EventValuesNamed(v, Summary);
    EventValuesNamed(v, Description);
  }

  /**
   * An exported event has exactly one `PRIORITY` property, the priority clamped to 1..10,
   * and exactly one `STATUS`, the status upper-cased; it has one `ATTENDEE` per attendee in
   * their order, and `DTEND`, `LOCATION`, `URL` and `RRULE` exactly when there is a value.
   */
  lemma EventProperties(item: Appointment, uid: string, stamp: string, start: string, end: string)
    ensures var ps := EventProps(EventValuesOf(item, uid, stamp, start, end));
      && Count(ps, Priority) == 1 && LastValue(ps, Priority) == Some(IntToString(ClampPriority(item.priority)))
      && Count(ps, State) == 1 && LastValue(ps, State) == Some(EscapeIcs(ToUpper(OrText(item.status, "confirmed"))))
      && Count(ps, DtStart) == 1 && LastValue(ps, DtStart) == Some(start)
      && ValuesNamed(ps, Attendee) == EscapeAll(item.attendees)
      && Count(ps, DtEnd) == (if Present(item.endDate) then 1 else 0)
      && Count(ps, Place) == (if item.location != "" then 1 else 0)
      && Count(ps, Link) == (if item.url != "" then 1 else 0)
      && Count(ps, RRule) == (if RecurrenceToRRule(item.recurrence).Some? then 1 else 0)
  {
    EventHolds(EventValuesOf(item, uid, stamp, start, end));
  }

  /** An event opens with `BEGIN:VEVENT` and closes with `END:VEVENT`. */
  lemma EventFrame(v: EventValues)
    ensures var lines := PropLines(EventProps(v));
      |lines| >= 2 && lines[0] == "BEGIN:VEVENT" && lines[|lines| - 1] == "END:VEVENT"
  {
    var slots := EventSlots(v);
    var ps := EventProps(v);
    ExpandLast(slots);
    assert ps == [(Begin, "VEVENT")] + Expand(slots[1..]);
    assert |Expand(slots[1..])| >= 1 by {
      ExpandLast(slots[1..]);
    }
    PropLinesAt(ps, 0);
    PropLinesAt(ps, |ps| - 1);
    FrameLines();
  }

  lemma FrameLines()
    ensures PropLine(Begin, "VEVENT") == "BEGIN:VEVENT" && PropLine(End, "VEVENT") == "END:VEVENT"
  {
  }

  /** When the last entry is a single property, the properties end with it. */
  lemma {:induction false} ExpandLast(slots: seq<Slot>)
    requires |slots| >= 1 && slots[|slots| - 1].One?
    ensures var ps := Expand(slots);
      |ps| >= 1 && ps[|ps| - 1] == (slots[|slots| - 1].name, slots[|slots| - 1].value)
    decreases |slots|
  {
    if |slots| > 1 {
      ExpandLast(slots[1..]);
      assert slots[1..][|slots| - 2] == slots[|slots| - 1];
    }
  }

  lemma {:induction false} PropLinesAt(props: seq<(Name, string)>, i: nat)
    requires i < |props|
    ensures PropLines(props)[i] == PropLine(props[i].0, props[i].1)
    decreases i
  {
    if i > 0 {
      PropLinesAt(props[1..], i - 1);
    }
  }

  /** The `k`-th event of the calendar is the event of the `k`-th appointment. */
  lemma {:induction false} EventTextsAt(items: seq<Appointment>, k: nat, event: (Appointment, nat) -> string, i: nat)
    requires i < |items|
    ensures EventTexts(items, k, event)[i] == event(items[i], k + i)
    decreases i
  {
    if i > 0 {
      EventTextsAt(items[1..], k + 1, event, i - 1);
    }
  }

  /**
   * The calendar is its four header lines, one event per appointment in order, then
   * `END:VCALENDAR`, and its text ends with a line break.
   */
  lemma CalendarShape(state: CalendarState, prodId: string, event: (Appointment, nat) -> string)
    ensures var lines := CalendarLines(state, prodId, event);
      && |lines| == |state.appointments| + 6
      && lines[..4] == ["BEGIN:VCALENDAR", "VERSION:2.0", "PRODID:" + OrText(prodId, DefaultProdId), "CALSCALE:GREGORIAN"]
      && lines[|lines| - 2] == "END:VCALENDAR"
      && (forall i :: 0 <= i < |state.appointments| ==> lines[4 + i] == event(state.appointments[i], i))
    ensures var text := JoinWith(CalendarLines(state, prodId, event), "\r\n");
      |text| >= 2 && text[|text| - 2..] == "\r\n"
  {
    var lines := CalendarLines(state, prodId, event);
    forall i | 0 <= i < |state.appointments|
      ensures lines[4 + i] == event(state.appointments[i], i)
    {
      EventTextsAt(state.appointments, 0, event, i);
    }
    JoinEndsWithEmpty(lines, "\r\n");
  }
}
