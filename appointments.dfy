/**
 * The records the scheduler passes around: a raw appointment as a form, a file or another
 * plugin hands it over, and the appointment record that the engine, the exporters and
 * the importers read and write.
 *
 * JavaScript objects are open records whose fields may be missing; here a missing text
 * field is the empty text, a missing list is the empty list and a missing flag is
 * `false`, which is how every reader in the scheduler treats them (`x || default`).
 */
module Appointments {
  import opened Wrappers
  import opened JsText

  /** `x || d` for a text: the text unless it is empty. */
  function OrText(x: string, d: string): (r: string)
    ensures r == x || r == d
    ensures x != "" ==> r == x
  {
    if x != "" then x else d
  }

  /** `x || d` for an optional text (`null`, `undefined` and `''` are all falsy). */
  function OrOptText(x: Option<string>, d: string): (r: string)
    ensures x.Some? && x.value != "" ==> r == x.value
    ensures (x.None? || x.value == "") ==> r == d
  {
    if x.Some? && x.value != "" then x.value else d
  }

  /** A list field as it may arrive: an array, a comma-separated text, or nothing. */
  datatype ListInput = ListArray(items: seq<string>) | ListText(text: string) | ListAbsent

  /** A numeric field as it may arrive: missing (`undefined` or `null`), text, or a number. */
  datatype RawNumber = NumAbsent | NumText(text: string) | NumValue(num: JsNum)

  /** `Number(x)`; `Number(undefined)` is NaN, `Number(null)` is 0, and both are falsy. */
  function NumberOfRaw(x: RawNumber): (r: JsNum)
    ensures x.NumAbsent? ==> !Truthy(r)
  {
    match x
    case NumAbsent => NaN
    case NumText(s) => NumberOf(s)
    case NumValue(n) => n
  }

  /** `Number(x) || 1`: a number that is neither NaN nor zero, else 1. */
  function PriorityOr1(x: JsNum): (r: int)
    ensures r != 0
    ensures Truthy(x) ==> r == x.value
    ensures !Truthy(x) ==> r == 1
  {
    if Truthy(x) then x.value else 1
  }

  /** The input record of `normalizeAppointment`; `None` stands for a missing field. */
  datatype RawAppointment = RawAppointment(
    id: Option<string>,
    date: Option<string>,
    recurrence: Option<string>,
    title: Option<string>,
    description: Option<string>,
    contact: ListInput,
    category: Option<string>,
    tags: ListInput,
    priority: RawNumber,
    createdAt: Option<string>)

  /**
   * An appointment record with every field any part of the scheduler reads or writes.
   * `occurrenceDate` and `sourceId` are only set on the occurrences the engine expands.
   */
  datatype Appointment = Appointment(
    id: string,
    date: string,
    endDate: Option<string>,
    recurrence: string,
    title: string,
    description: string,
    contact: seq<string>,
    category: string,
    tags: seq<string>,
    priority: int,
    createdAt: string,
    location: string,
    url: string,
    status: string,
    attendees: seq<string>,
    timezone: string,
    allDay: bool,
    calendarId: string,
    reminderMinutes: Option<JsNum>,
    recurrenceCount: Option<JsNum>,
    occurrenceDate: Option<string>,
    sourceId: Option<string>)

  /** A record with only the fields that `normalizeAppointment` sets; the others are missing. */
  function Basic(id: string, date: string, recurrence: string, title: string, description: string,
                 contact: seq<string>, category: string, tags: seq<string>, priority: int,
                 createdAt: string): (a: Appointment)
    ensures a.id == id && a.date == date && a.recurrence == recurrence && a.title == title
    ensures a.description == description && a.contact == contact && a.category == category
    ensures a.tags == tags && a.priority == priority && a.createdAt == createdAt
    ensures a.endDate.None? && a.location == "" && a.url == "" && a.status == "" && a.attendees == []
    ensures a.timezone == "" && !a.allDay && a.calendarId == "" && a.reminderMinutes.None?
    ensures a.recurrenceCount.None? && a.occurrenceDate.None? && a.sourceId.None?
  {
    Appointment(id, date, None, recurrence, title, description, contact, category, tags, priority,
      createdAt, "", "", "", [], "", false, "", None, None, None, None)
  }

  /** The state of the scheduler as the exporters and importers see it. */
  datatype CalendarState = CalendarState(
    appointments: seq<Appointment>,
    viewMode: string,
    sortMode: string,
    focusDate: string)
}
