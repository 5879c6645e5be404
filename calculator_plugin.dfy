/**
 * The calendar calculator plugin: it takes a payload of appointments and calendars that the
 * calculator produced, normalizes the appointments, merges them and the calendars into the
 * application's state by id (later entries winning), and consumes an import that was
 * queued for the application's next start.
 */
module CalculatorPlugin {
  import opened Wrappers
  import opened CivilTime
  import opened DateStrings
  import opened DateUtils
  import opened Appointments
  import opened SchedulerEngine
  import opened OrderedMaps

  /** A calendar record; a missing text field is empty text. */
  datatype Calendar = Calendar(id: string, name: string, color: string)

  const DefaultColor: string := "#2563eb"

  /** The calendars every application starts with. */
  const DefaultCalendars: seq<Calendar> :=
    [Calendar("default", "Default", "#2563eb"), Calendar("work", "Work", "#7c3aed"), Calendar("health", "Health", "#059669")]

  // ---- mergeCalendars ----

  predicate HasCalendarId(c: Calendar) { c.id != "" }

  function CalendarIdOf(c: Calendar): string { c.id }

  /** The record stored for a calendar: the name defaults to the id, the colour to blue. */
  function CalendarEntry(c: Calendar): (r: Calendar)
    ensures r.id == c.id && r.color != "" && (c.id != "" ==> r.name != "")
  {
    Calendar(c.id, OrText(c.name, c.id), OrText(c.color, DefaultColor))
  }

  /** The map `mergeCalendars` fills from the defaults, the existing and the incoming calendars. */
  function CalendarMap(existing: seq<Calendar>, incoming: seq<Calendar>): seq<Entry<string, Calendar>> {
    SetAll([], DefaultCalendars + existing + incoming, HasCalendarId, CalendarIdOf, CalendarEntry)
  }

  /** `mergeCalendars(existing, incoming)`. */
  method MergeCalendars(existing: seq<Calendar>, incoming: seq<Calendar>) returns (merged: seq<Calendar>)
    ensures merged == Values(CalendarMap(existing, incoming))
  {
    var all := DefaultCalendars + existing + incoming;
    var byId: seq<Entry<string, Calendar>> := [];
    var i := 0;
    while i < |all|
      invariant 0 <= i <= |all|
      invariant byId == SetAll([], all[..i], HasCalendarId, CalendarIdOf, CalendarEntry)
    {
      assert all[..i + 1][..i] == all[..i];
      if all[i].id != "" {
        byId := Put(byId, all[i].id, CalendarEntry(all[i]));
      }
      i := i + 1;
    }
    assert all[..|all|] == all;
    merged := Values(byId);
  }

  /**
   * Each id appears once, in the order it was first met, and holds the last calendar with
   * that id: incoming over existing over the defaults.
   */
  lemma CalendarMapMeaning(existing: seq<Calendar>, incoming: seq<Calendar>, q: string)
    ensures var m := CalendarMap(existing, incoming);
      && Distinct(Keys(m)) && KeyedBy(m, CalendarIdOf)
      && Keys(m) == AddKeys([], DefaultCalendars + existing + incoming, HasCalendarId, CalendarIdOf)
      && Get(m, q) ==
        if LastWith(incoming, HasCalendarId, CalendarIdOf, CalendarEntry, q).Some? then LastWith(incoming, HasCalendarId, CalendarIdOf, CalendarEntry, q)
        else if LastWith(existing, HasCalendarId, CalendarIdOf, CalendarEntry, q).Some? then LastWith(existing, HasCalendarId, CalendarIdOf, CalendarEntry, q)
        else LastWith(DefaultCalendars, HasCalendarId, CalendarIdOf, CalendarEntry, q)
  {
    var all := DefaultCalendars + existing + incoming;
    SetAllKeys([], all, HasCalendarId, CalendarIdOf, CalendarEntry);
    AddKeysDistinct([], all, HasCalendarId, CalendarIdOf);
    SetAllKeyed([], all, HasCalendarId, CalendarIdOf, CalendarEntry, CalendarIdOf);
    var m0 := SetAll([], DefaultCalendars, HasCalendarId, CalendarIdOf, CalendarEntry);
    var m1 := SetAll(m0, existing, HasCalendarId, CalendarIdOf, CalendarEntry);
    SetAllConcat([], DefaultCalendars, existing, HasCalendarId, CalendarIdOf, CalendarEntry);
    SetAllConcat([], DefaultCalendars + existing, incoming, HasCalendarId, CalendarIdOf, CalendarEntry);
    SetAllGet([], DefaultCalendars, HasCalendarId, CalendarIdOf, CalendarEntry, q);
    SetAllGet(m0, existing, HasCalendarId, CalendarIdOf, CalendarEntry, q);
    SetAllGet(m1, incoming, HasCalendarId, CalendarIdOf, CalendarEntry, q);
  }

  // ---- normalizeAppointments ----

  /** The values of the steps that succeed, in order; `f(x, i)` is the step for the element `x` at `i`. */
  function Successes<X, Y>(xs: seq<X>, f: (X, nat) -> Result<Y>): (r: seq<Y>)
    ensures |r| <= |xs|
    decreases |xs|
  {
    if xs == [] then []
    else
      var k := |xs| - 1;
      Successes(xs[..k], f) + match f(xs[k], k) case Success(y) => [y] case Failure(_) => []
  }

  /** How many steps succeed. */
  function SuccessCount<X, Y>(xs: seq<X>, f: (X, nat) -> Result<Y>): (r: nat)
    ensures r <= |xs|
    decreases |xs|
  {
    if xs == [] then 0
    else SuccessCount(xs[..|xs| - 1], f) + if f(xs[|xs| - 1], |xs| - 1).Success? then 1 else 0
  }

  /** One value per successful step; when every step succeeds, the values are theirs, position by position. */
  lemma {:induction false} SuccessesMeaning<X, Y>(xs: seq<X>, f: (X, nat) -> Result<Y>)
    ensures |Successes(xs, f)| == SuccessCount(xs, f)
    ensures SuccessCount(xs, f) == |xs| ==> forall i :: 0 <= i < |xs| ==> f(xs[i], i) == Success(Successes(xs, f)[i])
    decreases |xs|
  {
    if xs != [] {
      var k := |xs| - 1;
      SuccessesMeaning(xs[..k], f);
      if SuccessCount(xs, f) == |xs| {
        forall i | 0 <= i < |xs|
          ensures f(xs[i], i) == Success(Successes(xs, f)[i])
        {
          if i < k {
            assert xs[..k][i] == xs[i];
          }
        }
      }
    }
  }

  /** The normalization of the entry at `i`, with `ids(i)` its uuid and `now` the current instant. */
  function Normalizer(ids: nat -> string, now: Instant): (RawAppointment, nat) -> Result<Appointment> {
    (x: RawAppointment, i: nat) => NormalizeAppointment(x, ids(i), now)
  }

  /**
   * `normalizeAppointments(items)`: each entry normalized and the ones whose normalization
   * fails dropped; a value that is not an array (`None`) gives no appointments.
   */
  function NormalizeAppointments(items: Option<seq<RawAppointment>>, ids: nat -> string, now: Instant): seq<Appointment> {
    if items.Some? then Successes(items.value, Normalizer(ids, now)) else []
  }

  /** The entries whose date parses. */
  function Parsable(items: seq<RawAppointment>): nat
    decreases |items|
  {
    if items == [] then 0
    else Parsable(items[..|items| - 1]) + if ParseInputDate(items[|items| - 1].date).Some? then 1 else 0
  }

  /** The entries whose normalization succeeds are exactly the ones whose date parses. */
  lemma {:induction false} NormalizerCount(items: seq<RawAppointment>, ids: nat -> string, now: Instant)
    ensures SuccessCount(items, Normalizer(ids, now)) == Parsable(items)
    decreases |items|
  {
    if items != [] {
      var k := |items| - 1;
      NormalizerCount(items[..k], ids, now);
      assert Normalizer(ids, now)(items[k], k) == NormalizeAppointment(items[k], ids(k), now);
    }
  }

  /** Exactly the entries whose date parses are kept; when all parse, each is kept as it normalizes. */
  lemma NormalizeAppointmentsMeaning(items: seq<RawAppointment>, ids: nat -> string, now: Instant)
    ensures |NormalizeAppointments(Some(items), ids, now)| == Parsable(items)
    ensures Parsable(items) == |items| ==> forall i :: 0 <= i < |items| ==>
      NormalizeAppointment(items[i], ids(i), now) == Success(NormalizeAppointments(Some(items), ids, now)[i])
  {
    NormalizerCount(items, ids, now);
    SuccessesMeaning(items, Normalizer(ids, now));
  }

  // ---- mergeAppointments ----

  predicate HasId(a: Appointment) { a.id != "" }

  function IdOf(a: Appointment): string { a.id }

  function Itself(a: Appointment): Appointment { a }

  /** The map `mergeAppointments` fills, existing appointments first. */
  function AppointmentMap(existing: seq<Appointment>, incoming: seq<Appointment>): seq<Entry<string, Appointment>> {
    SetAll(SetAll([], existing, HasId, IdOf, Itself), incoming, HasId, IdOf, Itself)
  }

  /** `mergeAppointments(existing, incoming)`. */
  method MergeAppointments(existing: seq<Appointment>, incoming: seq<Appointment>) returns (merged: seq<Appointment>)
    ensures merged == Values(AppointmentMap(existing, incoming))
  {
    var byId: seq<Entry<string, Appointment>> := [];
    var i := 0;
    while i < |existing|
      invariant 0 <= i <= |existing|
      invariant byId == SetAll([], existing[..i], HasId, IdOf, Itself)
    {
      assert existing[..i + 1][..i] == existing[..i];
      if existing[i].id != "" {
        byId := Put(byId, existing[i].id, existing[i]);
      }
      i := i + 1;
    }
    assert existing[..|existing|] == existing;
    ghost var before := byId;
    var j := 0;
    while j < |incoming|
      invariant 0 <= j <= |incoming|
      invariant byId == SetAll(before, incoming[..j], HasId, IdOf, Itself)
    {
      assert incoming[..j + 1][..j] == incoming[..j];
      if incoming[j].id != "" {
        byId := Put(byId, incoming[j].id, incoming[j]);
      }
      j := j + 1;
    }
    assert incoming[..|incoming|] == incoming;
    merged := Values(byId);
  }

  /**
   * The merge holds one appointment per id, in the order the ids were first met (existing
   * then incoming), covering every non-empty id of either list; an id that comes in takes
   * the last incoming appointment with it, any other keeps the last existing one.
   */
  lemma AppointmentMapMeaning(existing: seq<Appointment>, incoming: seq<Appointment>, q: string)
    ensures var m := AppointmentMap(existing, incoming);
      && Distinct(Keys(m)) && KeyedBy(m, IdOf)
      && Keys(m) == AddKeys(AddKeys([], existing, HasId, IdOf), incoming, HasId, IdOf)
      && Get(m, q) ==
        if LastWith(incoming, HasId, IdOf, Itself, q).Some? then LastWith(incoming, HasId, IdOf, Itself, q)
        else LastWith(existing, HasId, IdOf, Itself, q)
  {
    var m0 := SetAll([], existing, HasId, IdOf, Itself);
    SetAllKeys([], existing, HasId, IdOf, Itself);
    SetAllKeys(m0, incoming, HasId, IdOf, Itself);
    AddKeysDistinct([], existing, HasId, IdOf);
    AddKeysDistinct(Keys(m0), incoming, HasId, IdOf);
    SetAllKeyed([], existing, HasId, IdOf, Itself, IdOf);
    SetAllKeyed(m0, incoming, HasId, IdOf, Itself, IdOf);
    SetAllGet([], existing, HasId, IdOf, Itself, q);
    SetAllGet(m0, incoming, HasId, IdOf, Itself, q);
  }

  /** An id is in the merge exactly when an existing or incoming appointment has it, and it is never empty. */
  lemma MergedIds(existing: seq<Appointment>, incoming: seq<Appointment>, q: string)
    ensures q in Keys(AppointmentMap(existing, incoming)) <==>
      q != "" && ((exists i :: 0 <= i < |existing| && existing[i].id == q) || (exists i :: 0 <= i < |incoming| && incoming[i].id == q))
  {
    var m0 := SetAll([], existing, HasId, IdOf, Itself);
    SetAllKeys([], existing, HasId, IdOf, Itself);
    SetAllKeys(m0, incoming, HasId, IdOf, Itself);
    AddKeysMembers([], existing, HasId, IdOf, q);
    AddKeysMembers(Keys(m0), incoming, HasId, IdOf, q);
  }

  // ---- applyImport and consumeQueuedImport ----

  /**
   * `payload.calendars` as `mergeCalendars` spreads it: left out (the default `[]`), a list,
   * or a value that cannot be spread (`null`, a number, a boolean or a plain object), for
   * which `[...incomingCalendars]` throws a `TypeError`. A text spreads into characters that
   * have no `id`, so it merges like the empty list.
   */
  datatype CalendarsField = Missing | Listed(list: seq<Calendar>) | Unspreadable

  /** What an import hands over: the appointments (`None` where they are not an array) and the calendars. */
  datatype ImportPayload = ImportPayload(appointments: Option<seq<RawAppointment>>, calendars: CalendarsField)

  /** How `applyImport` ends: it returns whether it imported, or it throws a `TypeError`. */
  datatype ImportOutcome = Returned(imported: bool) | ThrewTypeError

  /** The application as the plugin sees it: its state, and `applyLoadedState`, which installs a new one. */
  class App {
    /** `state.appointments` and `state.calendars`, `None` where they are not arrays. */
    var appointments: Option<seq<Appointment>>
    var calendars: Option<seq<Calendar>>
    var viewMode: string
    var sortMode: string
    var focusDate: string

    constructor (appointments: Option<seq<Appointment>>, calendars: Option<seq<Calendar>>, viewMode: string, sortMode: string, focusDate: string)
      ensures this.appointments == appointments && this.calendars == calendars
      ensures this.viewMode == viewMode && this.sortMode == sortMode && this.focusDate == focusDate
    {
      this.appointments := appointments;
      this.calendars := calendars;
      this.viewMode := viewMode;
      this.sortMode := sortMode;
      this.focusDate := focusDate;
    }

    method ApplyLoadedState(appointments: seq<Appointment>, calendars: seq<Calendar>, viewMode: string, sortMode: string, focusDate: string)
      modifies this
      ensures this.appointments == Some(appointments) && this.calendars == Some(calendars)
      ensures this.viewMode == viewMode && this.sortMode == sortMode && this.focusDate == focusDate
    {
      this.appointments := Some(appointments);
      this.calendars := Some(calendars);
      this.viewMode := viewMode;
      this.sortMode := sortMode;
      this.focusDate := focusDate;
    }
  }

  /** An import goes ahead when there is an application, a payload, and an appointment in it that normalizes. */
  predicate Accepts(hasApp: bool, payload: Option<ImportPayload>, ids: nat -> string, now: Instant) {
    hasApp && payload.Some? && NormalizeAppointments(payload.value.appointments, ids, now) != []
  }

  /** The appointments after an import: the incoming ones (`replace`), else merged into the existing ones (none when the state has no list). */
  function ImportedAppointments(existing: Option<seq<Appointment>>, payload: ImportPayload, replace: bool, ids: nat -> string, now: Instant): seq<Appointment> {
    var incoming := NormalizeAppointments(payload.appointments, ids, now);
    if replace then incoming else Values(AppointmentMap(if existing.Some? then existing.value else [], incoming))
  }

  /** The calendars after an import: the payload's merged into the existing ones (the defaults when the state has no list). */
  function ImportedCalendars(existing: Option<seq<Calendar>>, payload: ImportPayload): seq<Calendar> {
    Values(CalendarMap(if existing.Some? then existing.value else DefaultCalendars,
      if payload.calendars.Listed? then payload.calendars.list else []))
  }

  /** How an import ends: nothing to do, a throw from `mergeCalendars`, or done. */
  function OutcomeOf(hasApp: bool, payload: Option<ImportPayload>, ids: nat -> string, now: Instant): ImportOutcome {
    if !Accepts(hasApp, payload, ids, now) then Returned(false)
    else if payload.value.calendars.Unspreadable? then ThrewTypeError
    else Returned(true)
  }

  /**
   * `applyImport(app, payload, { replace })`, with `ids` and `now` as for the normalization.
   * Nothing changes when the import does not go ahead or when the calendars cannot be
   * spread (the throw leaves before `applyLoadedState`); otherwise the appointments become
   * the incoming ones (`replace`) or the merge, the calendars the merge, the view and sort
   * modes stay, and the focus moves to now.
   */
  method ApplyImport(app: App?, payload: Option<ImportPayload>, replace: bool, ids: nat -> string, now: Instant) returns (outcome: ImportOutcome)
    modifies app
    ensures outcome == OutcomeOf(app != null, payload, ids, now)
    ensures outcome != Returned(true) && app != null ==> unchanged(app)
    ensures outcome == Returned(true) ==>
      && app.appointments == Some(ImportedAppointments(old(app.appointments), payload.value, replace, ids, now))
      && app.calendars == Some(ImportedCalendars(old(app.calendars), payload.value))
      && app.viewMode == old(app.viewMode) && app.sortMode == old(app.sortMode)
      && app.focusDate == ToIsoString(now)
  {
    if app == null || payload.None? {
      return Returned(false);
    }
    var incoming := NormalizeAppointments(payload.value.appointments, ids, now);
    if |incoming| == 0 {
      return Returned(false);
    }
    var existing := if app.appointments.Some? then app.appointments.value else [];
    var existingCalendars := if app.calendars.Some? then app.calendars.value else DefaultCalendars;
    var merged := incoming;
    if !replace {
      merged := MergeAppointments(existing, incoming);
    }
    if payload.value.calendars.Unspreadable? {
      return ThrewTypeError;
    }
    var calendars := MergeCalendars(existingCalendars, if payload.value.calendars.Listed? then payload.value.calendars.list else []);
    app.ApplyLoadedState(merged, calendars, app.viewMode, app.sortMode, ToIsoString(now));
    return Returned(true);
  }

  /** The queued import in the abstract store; `None` when nothing is queued or it does not parse. */
  class ImportQueue {
    var queued: Option<ImportPayload>

    constructor (queued: Option<ImportPayload>)
      ensures this.queued == queued
    {
      this.queued := queued;
    }

    method Clear()
      modifies this
      ensures queued.None?
    {
      queued := None;
    }
  }

  /**
   * `consumeQueuedImport(app)`: imports the queued payload without replacing, and clears it
   * only when the import went ahead; a throw from `applyImport` passes through (`threw`),
   * with the queue kept.
   */
  method ConsumeQueuedImport(app: App?, queue: ImportQueue, ids: nat -> string, now: Instant) returns (threw: bool)
    modifies app, queue
    ensures threw == (OutcomeOf(app != null, old(queue.queued), ids, now) == ThrewTypeError)
    ensures queue.queued == if OutcomeOf(app != null, old(queue.queued), ids, now) == Returned(true) then None else old(queue.queued)
    ensures OutcomeOf(app != null, old(queue.queued), ids, now) != Returned(true) && app != null ==> unchanged(app)
    ensures OutcomeOf(app != null, old(queue.queued), ids, now) == Returned(true) ==>
      && app.appointments == Some(ImportedAppointments(old(app.appointments), old(queue.queued).value, false, ids, now))
      && app.calendars == Some(ImportedCalendars(old(app.calendars), old(queue.queued).value))
      && app.viewMode == old(app.viewMode) && app.sortMode == old(app.sortMode)
      && app.focusDate == ToIsoString(now)
  {
    var queued := queue.queued;
    if queued.None? {
      return false;
    }
    var outcome := ApplyImport(app, queued, false, ids, now);
    if outcome == Returned(true) {
      queue.Clear();
    }
    return outcome == ThrewTypeError;
  }
}
