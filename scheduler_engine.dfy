/**
 * The scheduler engine: normalizing a raw appointment, expanding recurring appointments
 * into the occurrences that fall inside a window, ordering appointments, and choosing the
 * window a calendar view shows.
 */
module SchedulerEngine {
  import opened Wrappers
  import opened JsText
  import opened CivilTime
  import opened DateStrings
  import opened DateUtils
  import opened Appointments
  import opened Ordering

  // ---- Normalizing a raw appointment ----

  /**
   * `splitByComma(value)`: an array is kept as it is; a text is split on commas, each part
   * trimmed and the empty parts dropped; a missing or empty value gives no items.
   */
  function SplitByComma(value: ListInput): seq<string> {
    match value
    case ListArray(items) => items
    case ListText(text) => if text == "" then [] else TrimParts(Split(text, ','))
    case ListAbsent => []
  }

  /**
   * `normalizeAppointment(input)`, with the generated id and the current instant as
   * parameters. It fails exactly when the date does not parse; otherwise the record's date
   * is the parsed instant in ISO form and the other fields take their defaults.
   */
  function NormalizeAppointment(input: RawAppointment, uuid: string, now: Instant): (r: Result<Appointment>)
    ensures r.Failure? <==> ParseInputDate(input.date).None?
    ensures r.Failure? ==> r.error == "Invalid appointment date"
    ensures r.Success? ==> r.value == Normalized(input, ParseInputDate(input.date).value, uuid, now)
  {
    match ParseInputDate(input.date)
    case None => Failure("Invalid appointment date")
    case Some(date) => Success(Normalized(input, date, uuid, now))
  }

  /** The record `normalizeAppointment` builds once the date has parsed. */
  function Normalized(input: RawAppointment, date: Instant, uuid: string, now: Instant): (a: Appointment)
    ensures a.date == ToIsoString(date)
    ensures a.id == input.id.GetOr(uuid)
    ensures a.recurrence != "" && (input.recurrence.Some? && input.recurrence.value != "" ==> a.recurrence == input.recurrence.value)
    ensures Trim(a.title) == a.title && Trim(a.description) == a.description
    ensures Trim(a.category) == a.category
    ensures a.contact == SplitByComma(input.contact) && a.tags == SplitByComma(input.tags)
    ensures a.priority != 0
    ensures a.createdAt == OrOptText(input.createdAt, ToIsoString(now))
    ensures a.occurrenceDate.None? && a.sourceId.None?
    // The defaults of each field: a missing or empty recurrence is `'none'`, a missing or
    // empty category `'general'`, and the texts are the trimmed input or empty.
    ensures a.recurrence == OrOptText(input.recurrence, "none")
    ensures (input.recurrence.None? || input.recurrence.value == "") ==> a.recurrence == "none"
    ensures a.title == Trim(OrOptText(input.title, ""))
    ensures a.description == Trim(OrOptText(input.description, ""))
    ensures a.category == Trim(OrOptText(input.category, "general"))
    ensures (input.category.None? || input.category.value == "") ==> a.category == "general"
    // `Number(priority) || 1`: the number when it is neither 0 nor NaN, else 1.
    ensures a.priority == PriorityOr1(NumberOfRaw(input.priority))
    ensures Truthy(NumberOfRaw(input.priority)) ==> a.priority == NumberOfRaw(input.priority).value
    ensures !Truthy(NumberOfRaw(input.priority)) ==> a.priority == 1
  {
    var category := OrOptText(input.category, "general");
    TrimIdempotent(OrOptText(input.title, ""));
    TrimIdempotent(OrOptText(input.description, ""));
    TrimIdempotent(category);
    Basic(
      input.id.GetOr(uuid),
      ToIsoString(date),
      OrOptText(input.recurrence, "none"),
      Trim(OrOptText(input.title, "")),
      Trim(OrOptText(input.description, "")),
      SplitByComma(input.contact),
      Trim(category),
      SplitByComma(input.tags),
      PriorityOr1(NumberOfRaw(input.priority)),
      OrOptText(input.createdAt, ToIsoString(now)))
  }

  /** Splitting a text keeps only non-empty items without surrounding white space and without commas. */
  lemma SplitByCommaClean(text: string)
    ensures forall i :: 0 <= i < |SplitByComma(ListText(text))| ==>
      CleanItem(SplitByComma(ListText(text))[i]) && ',' !in SplitByComma(ListText(text))[i]
  {
    if text != "" {
      var parts := Split(text, ',');
      TrimPartsClean(parts);
      TrimPartsNoSeparator(parts, ',');
    }
  }

  /** Joining clean, comma-free items with commas and splitting again gives the items back. */
  lemma SplitByCommaJoin(items: seq<string>)
    requires forall i :: 0 <= i < |items| ==> CleanItem(items[i]) && ',' !in items[i]
    ensures SplitByComma(ListText(JoinWith(items, ","))) == items
  {
    if items != [] {
      SplitJoin(items, ',');
      TrimPartsUnchanged(items);
      assert items[0] != "";
      JoinWithNonEmpty(items, ",");
    }
  }

  /** The normalized date reads back as the instant that the raw date denoted. */
  lemma NormalizedDateRoundTrip(input: RawAppointment, uuid: string, now: Instant)
    requires NormalizeAppointment(input, uuid, now).Success?
    requires -1000000 < ParseInputDate(input.date).value.year < 1000000
    ensures ParseDateString(NormalizeAppointment(input, uuid, now).value.date) == ParseInputDate(input.date)
  {
    ParseToIsoString(ParseInputDate(input.date).value);
  }

  // ---- Stepping a recurrence ----

  /** The recurrences the engine knows how to step. */
  predicate KnownRecurrence(recurrence: string) {
    recurrence == "daily" || recurrence == "weekly" || recurrence == "monthly" || recurrence == "yearly"
  }

  /** The loop stops after the first occurrence for a missing or `'none'` recurrence. */
  predicate Recurs(recurrence: string) {
    recurrence != "" && recurrence != "none"
  }

  /**
   * `shiftByRecurrence(date, recurrence)`: one day, one week, one month or one year later
   * (with JavaScript's day overflow), or, for any other recurrence, the same day and time
   * in the year 3000.
   */
  function ShiftByRecurrence(t: Instant, recurrence: string): Instant {
    if recurrence == "daily" then AddDays(t, 1)
    else if recurrence == "weekly" then AddDays(t, 7)
    else if recurrence == "monthly" then AddMonths(t, 1)
    else if recurrence == "yearly" then AddYears(t, 1)
    else SetFullYear(t, 3000)
  }

  /** Each known recurrence moves strictly forward: at least a day, and a day or a week exactly. */
  lemma ShiftAdvances(t: Instant, recurrence: string)
    requires KnownRecurrence(recurrence)
    ensures TimeValue(ShiftByRecurrence(t, recurrence)) >= TimeValue(t) + MsPerDay
    ensures recurrence == "daily" ==> TimeValue(ShiftByRecurrence(t, recurrence)) == TimeValue(t) + MsPerDay
    ensures recurrence == "weekly" ==> TimeValue(ShiftByRecurrence(t, recurrence)) == TimeValue(t) + 7 * MsPerDay
  {
    if recurrence == "monthly" {
      MonthlyAdvances(t);
    } else if recurrence == "yearly" {
      YearlyAdvances(t);
    }
  }

  lemma MonthlyAdvances(t: Instant)
    ensures EpochDay(AddMonths(t, 1)) == EpochDay(t) + DaysInMonth(t.year, t.month)
    ensures MsOfDay(AddMonths(t, 1)) == MsOfDay(t)
  {
    var n := NextMonth(t.year, t.month);
    assert t.year + MonthSplit(t.month).0 == n.0 && MonthSplit(t.month).1 == n.1;
    NextMonthDayNumber(t.year, t.month, t.day);
  }

  lemma YearlyAdvances(t: Instant)
    ensures EpochDay(AddYears(t, 1)) > EpochDay(t)
    ensures MsOfDay(AddYears(t, 1)) == MsOfDay(t)
  {
    LaterYearLaterDay(t.year, t.year + 1, t.month, t.day);
  }

  /**
   * The fallback step moves to the year 3000: forward from an earlier year, backward from
   * a later one, and not at all from the year 3000 itself.
   */
  lemma FallbackStep(t: Instant, recurrence: string)
    requires !KnownRecurrence(recurrence)
    ensures ShiftByRecurrence(t, recurrence).year == 3000
    ensures t.year < 3000 ==> TimeValue(ShiftByRecurrence(t, recurrence)) > TimeValue(t)
    ensures t.year == 3000 ==> ShiftByRecurrence(t, recurrence) == t
    ensures t.year > 3000 ==> TimeValue(ShiftByRecurrence(t, recurrence)) < TimeValue(t)
  {
    if t.year < 3000 {
      LaterYearLaterDay(t.year, 3000, t.month, t.day);
    } else if t.year == 3000 {
      SetFullYearSame(t);
    } else {
      LaterYearLaterDay(3000, t.year, t.month, t.day);
    }
    DayWithinAnyYear(3000, t.month, t.day);
    YearOfEpochDay(SetFullYear(t, 3000), 3000);
  }

  // ---- Expanding recurring appointments ----

  /** The step the expansion loop takes for a recurrence, as a function value. */
  function StepOf(recurrence: string): (step: Instant -> Instant)
    ensures forall t :: step(t) == ShiftByRecurrence(t, recurrence)
  {
    t => ShiftByRecurrence(t, recurrence)
  }

  /**
   * The occurrences from `t` on that the expansion loop records for one appointment. The
   * walk is stated for any type of instant, step and time value `key`, so that its
   * properties are proved once: each instant whose time value lies in `[lo, hi]` is kept,
   * a non-recurring appointment stops after the first, and the walk stops once it passes
   * `hi` or a step fails to move forward (the guard the loop as written lacks; see
   * `AsWrittenNeverEnds`).
   */
  function Occurrences<T>(t: T, step: T -> T, key: T -> int, recurs: bool, lo: int, hi: int): seq<T>
    decreases hi - key(t)
  {
    if key(t) > hi then []
    else
      (if key(t) >= lo then [t] else [])
      + (if !recurs || key(step(t)) <= key(t) then [] else Occurrences(step(t), step, key, recurs, lo, hi))
  }

  /** `{ ...item, occurrenceDate: occurrence.toISOString(), sourceId: item.id }`. */
  function AsOccurrence(item: Appointment, o: Instant): (r: Appointment)
    ensures r.occurrenceDate == Some(ToIsoString(o)) && r.sourceId == Some(item.id)
    ensures r.(occurrenceDate := item.occurrenceDate, sourceId := item.sourceId) == item
  {
    item.(occurrenceDate := Some(ToIsoString(o)), sourceId := Some(item.id))
  }

  /** The records pushed for the given occurrences of an appointment, in order. */
  function Records(item: Appointment, os: seq<Instant>): (r: seq<Appointment>)
    ensures |r| == |os|
  {
    seq(|os|, k requires 0 <= k < |os| => AsOccurrence(item, os[k]))
  }

  /** The instants the expansion visits for one appointment: none when its date does not parse. */
  function ItemOccurrences(item: Appointment, rangeStart: Instant, rangeEnd: Instant): seq<Instant> {
    match ParseDateString(item.date)
    case None => []
    case Some(t) => Occurrences(t, StepOf(item.recurrence), TimeValue, Recurs(item.recurrence), TimeValue(rangeStart), TimeValue(rangeEnd))
  }

  /** The records of one appointment, in order. */
  function ItemRecords(item: Appointment, rangeStart: Instant, rangeEnd: Instant): seq<Appointment> {
    Records(item, ItemOccurrences(item, rangeStart, rangeEnd))
  }

  /** `ItemRecords` for a fixed window, as a function value. */
  function ItemRecordsIn(rangeStart: Instant, rangeEnd: Instant): (f: Appointment -> seq<Appointment>)
    ensures forall item :: f(item) == ItemRecords(item, rangeStart, rangeEnd)
  {
    item => ItemRecords(item, rangeStart, rangeEnd)
  }

  /** The whole expansion: the records of each appointment in turn. */
  function Expansion(items: seq<Appointment>, rangeStart: Instant, rangeEnd: Instant): seq<Appointment> {
    ConcatMap(items, ItemRecordsIn(rangeStart, rangeEnd))
  }

  /** `f` applied to each element, the results concatenated in order. */
  function ConcatMap<T, U>(xs: seq<T>, f: T -> seq<U>): seq<U> {
    if xs == [] then [] else ConcatMap(xs[..|xs| - 1], f) + f(xs[|xs| - 1])
  }

  lemma ConcatMapSnoc<T, U>(xs: seq<T>, x: T, f: T -> seq<U>)
    ensures ConcatMap(xs + [x], f) == ConcatMap(xs, f) + f(x)
  {
    assert (xs + [x])[..|xs|] == xs;
  }

  lemma {:induction false} ConcatMapConcat<T, U>(a: seq<T>, b: seq<T>, f: T -> seq<U>)
    ensures ConcatMap(a + b, f) == ConcatMap(a, f) + ConcatMap(b, f)
    decreases |b|
  {
    if b == [] {
      assert a + b == a;
    } else {
      assert (a + b)[..|a + b| - 1] == a + b[..|b| - 1];
      ConcatMapConcat(a, b[..|b| - 1], f);
    }
  }

  /** Every element of the result comes from one element of the input. */
  lemma {:induction false} ConcatMapIndex<T, U>(xs: seq<T>, f: T -> seq<U>, k: nat) returns (i: nat, m: nat)
    requires k < |ConcatMap(xs, f)|
    ensures i < |xs| && m < |f(xs[i])| && ConcatMap(xs, f)[k] == f(xs[i])[m]
    decreases |xs|
  {
    var front := xs[..|xs| - 1];
    if k < |ConcatMap(front, f)| {
      i, m := ConcatMapIndex(front, f, k);
    } else {
      i, m := |xs| - 1, k - |ConcatMap(front, f)|;
    }
  }

  /**
   * `expandRecurringAppointments(appointments, rangeStart, rangeEnd)`, with the
   * stalled-step guard; an appointment whose date does not parse (`Invalid Date`, which
   * compares false) gives no records.
   */
  method ExpandRecurringAppointments(appointments: seq<Appointment>, rangeStart: Instant, rangeEnd: Instant)
    returns (expanded: seq<Appointment>)
    ensures expanded == Expansion(appointments, rangeStart, rangeEnd)
  {
    expanded := [];
    for i := 0 to |appointments|
      invariant expanded == Expansion(appointments[..i], rangeStart, rangeEnd)
    {
      var item := appointments[i];
      var records := [];
      var parsed := ParseDateString(item.date);
      if parsed.Some? {
        records := ExpandItem(item, parsed.value, StepOf(item.recurrence), rangeStart, rangeEnd);
      }
      ConcatMapSnoc(appointments[..i], item, ItemRecordsIn(rangeStart, rangeEnd));
      assert appointments[..i + 1] == appointments[..i] + [item];
      expanded := expanded + records;
    }
    assert appointments[..|appointments|] == appointments;
  }

  /** The inner `while` loop of the expansion for one appointment, from its first occurrence `start`. */
  method ExpandItem(item: Appointment, start: Instant, step: Instant -> Instant, rangeStart: Instant, rangeEnd: Instant)
    returns (records: seq<Appointment>)
    ensures records == Records(item, Occurrences(start, step, TimeValue, Recurs(item.recurrence), TimeValue(rangeStart), TimeValue(rangeEnd)))
  {
    var recurs, lo, hi := Recurs(item.recurrence), TimeValue(rangeStart), TimeValue(rangeEnd);
    records := [];
    ghost var done: seq<Instant> := [];
    var occurrence := start;
    while TimeValue(occurrence) <= hi
      invariant done + Occurrences(occurrence, step, TimeValue, recurs, lo, hi) == Occurrences(start, step, TimeValue, recurs, lo, hi)
      invariant records == Records(item, done)
      decreases hi - TimeValue(occurrence)
    {
      ghost var tail := if !recurs || TimeValue(step(occurrence)) <= TimeValue(occurrence) then []
        else Occurrences(step(occurrence), step, TimeValue, recurs, lo, hi);
      OccurrencesCons(occurrence, step, TimeValue, recurs, lo, hi);
      if TimeValue(occurrence) >= lo {
        RecordsSnoc(item, done, occurrence);
        records := records + [AsOccurrence(item, occurrence)];
        SnocAssoc(done, occurrence, tail);
        done := done + [occurrence];
      }
      if !recurs {
        assert done + [] == done;
        break;
      }
      var next := step(occurrence);
      if TimeValue(next) <= TimeValue(occurrence) {
        assert done + [] == done;
        break;
      }
      occurrence := next;
    }
    assert done + [] == done;
  }

  lemma SnocAssoc<T>(a: seq<T>, x: T, b: seq<T>)
    ensures (a + [x]) + b == a + ([x] + b)
  {
  }

  lemma RecordsSnoc(item: Appointment, os: seq<Instant>, o: Instant)
    ensures Records(item, os + [o]) == Records(item, os) + [AsOccurrence(item, o)]
  {
  }

  /** One step of `Occurrences`: the current instant if it is in the window, then the rest of the walk. */
  lemma OccurrencesCons<T>(t: T, step: T -> T, key: T -> int, recurs: bool, lo: int, hi: int)
    requires key(t) <= hi
    ensures var tail := if !recurs || key(step(t)) <= key(t) then [] else Occurrences(step(t), step, key, recurs, lo, hi);
      Occurrences(t, step, key, recurs, lo, hi) == (if key(t) >= lo then [t] + tail else tail)
  {
  }

  /** Every visited occurrence lies in the window, at or after the starting instant. */
  lemma {:induction false} OccurrenceBounds<T>(t: T, step: T -> T, key: T -> int, recurs: bool, lo: int, hi: int, k: nat)
    requires k < |Occurrences(t, step, key, recurs, lo, hi)|
    ensures var o := Occurrences(t, step, key, recurs, lo, hi)[k];
      lo <= key(o) <= hi && key(t) <= key(o)
    decreases hi - key(t)
  {
    OccurrencesCons(t, step, key, recurs, lo, hi);
    var here := key(t) >= lo;
    if !(here && k == 0) {
      var k' := if here then k - 1 else k;
      OccurrenceBounds(step(t), step, key, recurs, lo, hi, k');
    }
  }

  /** The occurrences are in strictly increasing time order. */
  lemma {:induction false} OccurrencesAscending<T>(t: T, step: T -> T, key: T -> int, recurs: bool, lo: int, hi: int, j: nat, k: nat)
    requires j < k < |Occurrences(t, step, key, recurs, lo, hi)|
    ensures var os := Occurrences(t, step, key, recurs, lo, hi);
      key(os[j]) < key(os[k])
    decreases hi - key(t)
  {
    OccurrencesCons(t, step, key, recurs, lo, hi);
    var os := Occurrences(t, step, key, recurs, lo, hi);
    var tail := Occurrences(step(t), step, key, recurs, lo, hi);
    if key(t) >= lo {
      assert os == [t] + tail;
      if j == 0 {
        OccurrenceBounds(step(t), step, key, recurs, lo, hi, k - 1);
      } else {
        OccurrencesAscending(step(t), step, key, recurs, lo, hi, j - 1, k - 1);
      }
    } else {
      OccurrencesAscending(step(t), step, key, recurs, lo, hi, j, k);
    }
  }

  /**
   * Once inside the window the walk records every step: each occurrence after the first
   * is one step after the previous one.
   */
  lemma {:induction false} OccurrencesConsecutive<T>(t: T, step: T -> T, key: T -> int, recurs: bool, lo: int, hi: int, k: nat)
    requires k + 1 < |Occurrences(t, step, key, recurs, lo, hi)|
    ensures var os := Occurrences(t, step, key, recurs, lo, hi);
      os[k + 1] == step(os[k])
    decreases hi - key(t)
  {
    OccurrencesCons(t, step, key, recurs, lo, hi);
    var os := Occurrences(t, step, key, recurs, lo, hi);
    var tail := Occurrences(step(t), step, key, recurs, lo, hi);
    if key(t) >= lo {
      assert os == [t] + tail;
      if k == 0 {
        OccurrencesStart(step(t), step, key, recurs, lo, hi);
      } else {
        OccurrencesConsecutive(step(t), step, key, recurs, lo, hi, k - 1);
      }
    } else {
      OccurrencesConsecutive(step(t), step, key, recurs, lo, hi, k);
    }
  }

  /**
   * A starting instant inside the window is recorded first, one after the window gives
   * nothing, and a non-recurring appointment gives its start alone when that is inside.
   */
  lemma OccurrencesStart<T>(t: T, step: T -> T, key: T -> int, recurs: bool, lo: int, hi: int)
    ensures var os := Occurrences(t, step, key, recurs, lo, hi);
      && (lo <= key(t) <= hi ==> |os| >= 1 && os[0] == t)
      && (key(t) > hi ==> os == [])
      && (!recurs ==> os == if lo <= key(t) <= hi then [t] else [])
  {
    if key(t) <= hi {
      OccurrencesCons(t, step, key, recurs, lo, hi);
    }
  }

  /**
   * The walk ends only for a reason: after the last occurrence the appointment does not
   * recur, or its next step stalls or falls after the window.
   */
  lemma {:induction false} OccurrencesLast<T>(t: T, step: T -> T, key: T -> int, recurs: bool, lo: int, hi: int)
    requires |Occurrences(t, step, key, recurs, lo, hi)| > 0
    ensures var os := Occurrences(t, step, key, recurs, lo, hi);
      var last := os[|os| - 1];
      !recurs || key(step(last)) <= key(last) || key(step(last)) > hi
    decreases hi - key(t)
  {
    OccurrencesCons(t, step, key, recurs, lo, hi);
    var os := Occurrences(t, step, key, recurs, lo, hi);
    if recurs && key(step(t)) > key(t) {
      var tail := Occurrences(step(t), step, key, recurs, lo, hi);
      if tail == [] {
        assert os == [t];
        OccurrencesStart(step(t), step, key, recurs, lo, hi);
      } else {
        assert os[|os| - 1] == tail[|tail| - 1];
        OccurrencesLast(step(t), step, key, recurs, lo, hi);
      }
    } else {
      assert os == [t];
    }
  }

  // ---- The loop as written, and why the stalled-step guard is needed ----

  /**
   * The `while` loop of `expandRecurringAppointments` exactly as written, run for at most
   * `fuel` iterations: `Some` of the instants it records once it leaves the loop, `None`
   * while it is still looping.
   */
  function AsWrittenRun<T>(t: T, step: T -> T, key: T -> int, recurs: bool, lo: int, hi: int, fuel: nat): Option<seq<T>> {
    if key(t) > hi then Some([])
    else if fuel == 0 then None
    else
      var here := if key(t) >= lo then [t] else [];
      if !recurs then Some(here)
      else
        match AsWrittenRun(step(t), step, key, recurs, lo, hi, fuel - 1)
        case None => None
        case Some(rest) => Some(here + rest)
  }

  /**
   * When every step moves forward the guard never fires: the loop as written leaves the
   * loop within `hi - key(t) + 1` iterations, with the same occurrences.
   */
  lemma {:induction false} AsWrittenAgrees<T>(t: T, step: T -> T, key: T -> int, recurs: bool, lo: int, hi: int, fuel: nat)
    requires recurs ==> forall x :: key(step(x)) > key(x)
    requires fuel > hi - key(t)
    ensures AsWrittenRun(t, step, key, recurs, lo, hi, fuel) == Some(Occurrences(t, step, key, recurs, lo, hi))
    decreases fuel
  {
    if key(t) <= hi {
      OccurrencesCons(t, step, key, recurs, lo, hi);
      if recurs {
        assert key(step(t)) > key(t);
        AsWrittenAgrees(step(t), step, key, recurs, lo, hi, fuel - 1);
      } else {
        var here := if key(t) >= lo then [t] else [];
        assert here + [] == here;
      }
    }
  }

  /** A recurring walk that reaches a fixed point inside the window never leaves the loop. */
  lemma {:induction false} FixedPointLoops<T>(u: T, step: T -> T, key: T -> int, lo: int, hi: int, fuel: nat)
    requires key(u) <= hi && step(u) == u
    ensures AsWrittenRun(u, step, key, true, lo, hi, fuel) == None
  {
    if fuel > 0 {
      FixedPointLoops(u, step, key, lo, hi, fuel - 1);
    }
  }

  /** For the four known recurrences the loop as written and the guarded loop agree. */
  lemma KnownRecurrenceAgrees(t: Instant, recurrence: string, rangeStart: Instant, rangeEnd: Instant)
    requires KnownRecurrence(recurrence)
    ensures var fuel := if TimeValue(rangeEnd) < TimeValue(t) then 0 else TimeValue(rangeEnd) - TimeValue(t) + 1;
      AsWrittenRun(t, StepOf(recurrence), TimeValue, true, TimeValue(rangeStart), TimeValue(rangeEnd), fuel)
      == Some(Occurrences(t, StepOf(recurrence), TimeValue, true, TimeValue(rangeStart), TimeValue(rangeEnd)))
  {
    var step := StepOf(recurrence);
    forall x: Instant
      ensures TimeValue(step(x)) > TimeValue(x)
    {
      ShiftAdvances(x, recurrence);
    }
    var fuel := if TimeValue(rangeEnd) < TimeValue(t) then 0 else TimeValue(rangeEnd) - TimeValue(t) + 1;
    AsWrittenAgrees(t, step, TimeValue, true, TimeValue(rangeStart), TimeValue(rangeEnd), fuel);
  }

  /**
   * The loop as written never ends for a recurrence outside the four it knows (a value
   * such as `'custom'` from an imported file) once the window reaches the occurrence's
   * image in the year 3000: that image is a fixed point of the step, so the loop keeps
   * recording it without end.
   */
  lemma AsWrittenNeverEnds(t: Instant, recurrence: string, rangeStart: Instant, rangeEnd: Instant, fuel: nat)
    requires Recurs(recurrence) && !KnownRecurrence(recurrence)
    requires TimeValue(t) <= TimeValue(rangeEnd)
    requires TimeValue(SetFullYear(t, 3000)) <= TimeValue(rangeEnd)
    ensures AsWrittenRun(t, StepOf(recurrence), TimeValue, true, TimeValue(rangeStart), TimeValue(rangeEnd), fuel).None?
  {
    var step := StepOf(recurrence);
    var u := step(t);
    FallbackStep(t, recurrence);
    FallbackStep(u, recurrence);
    if fuel > 0 {
      FixedPointLoops(u, step, TimeValue, TimeValue(rangeStart), TimeValue(rangeEnd), fuel - 1);
    }
  }

  /** With the guard, such an appointment gives at most two occurrences: its date and its year-3000 image. */
  lemma FallbackOccurrencesBounded(t: Instant, recurrence: string, rangeStart: Instant, rangeEnd: Instant)
    requires !KnownRecurrence(recurrence)
    ensures |Occurrences(t, StepOf(recurrence), TimeValue, Recurs(recurrence), TimeValue(rangeStart), TimeValue(rangeEnd))| <= 2
  {
    var step := StepOf(recurrence);
    var lo, hi := TimeValue(rangeStart), TimeValue(rangeEnd);
    var u := step(t);
    FallbackStep(t, recurrence);
    FallbackStep(u, recurrence);
    OccurrencesStart(t, step, TimeValue, Recurs(recurrence), lo, hi);
    if TimeValue(t) <= hi {
      OccurrencesCons(t, step, TimeValue, Recurs(recurrence), lo, hi);
      if TimeValue(u) <= hi {
        OccurrencesCons(u, step, TimeValue, Recurs(recurrence), lo, hi);
      }
    }
  }

  // ---- What the expansion yields ----

  /**
   * Each expanded record of an appointment is that appointment with `sourceId` set to its
   * id and an `occurrenceDate` that reads back as an instant inside the window.
   */
  lemma ItemRecordReadsBack(item: Appointment, rangeStart: Instant, rangeEnd: Instant, k: nat)
    requires -1000000 < rangeStart.year && rangeEnd.year < 1000000
    requires k < |ItemOccurrences(item, rangeStart, rangeEnd)|
    ensures var os := ItemOccurrences(item, rangeStart, rangeEnd);
      var r := Records(item, os)[k];
      && r == AsOccurrence(item, os[k])
      && r.sourceId == Some(item.id)
      && ParseDateString(r.occurrenceDate.value) == Some(os[k])
      && TimeValue(rangeStart) <= TimeValue(os[k]) <= TimeValue(rangeEnd)
  {
    var t := ParseDateString(item.date).value;
    var os := ItemOccurrences(item, rangeStart, rangeEnd);
    OccurrenceBounds(t, StepOf(item.recurrence), TimeValue, Recurs(item.recurrence), TimeValue(rangeStart), TimeValue(rangeEnd), k);
    YearOfOrder(rangeStart, os[k]);
    YearOfOrder(os[k], rangeEnd);
    ParseToIsoString(os[k]);
  }

  /** Expanding two lists of appointments one after the other is expanding their concatenation. */
  lemma ExpansionConcat(a: seq<Appointment>, b: seq<Appointment>, rangeStart: Instant, rangeEnd: Instant)
    ensures Expansion(a + b, rangeStart, rangeEnd) == Expansion(a, rangeStart, rangeEnd) + Expansion(b, rangeStart, rangeEnd)
  {
    ConcatMapConcat(a, b, ItemRecordsIn(rangeStart, rangeEnd));
  }

  /**
   * Every record of the whole expansion is one of the input appointments stamped with an
   * occurrence inside the window (whose date reads back by `ItemRecordReadsBack`).
   */
  lemma ExpansionOrigin(items: seq<Appointment>, rangeStart: Instant, rangeEnd: Instant, k: nat)
    returns (j: nat, o: Instant)
    requires k < |Expansion(items, rangeStart, rangeEnd)|
    ensures j < |items| && TimeValue(rangeStart) <= TimeValue(o) <= TimeValue(rangeEnd)
    ensures Expansion(items, rangeStart, rangeEnd)[k] == AsOccurrence(items[j], o)
  {
    var m;
    j, m := ConcatMapIndex(items, ItemRecordsIn(rangeStart, rangeEnd), k);
    o := RecordOrigin(items[j], rangeStart, rangeEnd, m);
  }

  /** The `i`-th record of one appointment is the appointment stamped with its `i`-th occurrence. */
  lemma RecordOrigin(item: Appointment, rangeStart: Instant, rangeEnd: Instant, i: nat) returns (o: Instant)
    requires i < |ItemRecords(item, rangeStart, rangeEnd)|
    ensures o == ItemOccurrences(item, rangeStart, rangeEnd)[i]
    ensures TimeValue(rangeStart) <= TimeValue(o) <= TimeValue(rangeEnd)
    ensures ItemRecords(item, rangeStart, rangeEnd)[i] == AsOccurrence(item, o)
  {
    var t := ParseDateString(item.date).value;
    OccurrenceBounds(t, StepOf(item.recurrence), TimeValue, Recurs(item.recurrence), TimeValue(rangeStart), TimeValue(rangeEnd), i);
    o := ItemOccurrences(item, rangeStart, rangeEnd)[i];
  }

  // ---- Ordering appointments ----

  /** The date an appointment is ordered by: `new Date(a.occurrenceDate || a.date)`. */
  function SortKey(a: Appointment): Option<Instant> {
    ParseDateString(OrOptText(a.occurrenceDate, a.date))
  }

  /**
   * The difference of two dates in milliseconds; an unparseable date makes it NaN, which
   * `Array.prototype.sort` reads as 0 (equal).
   */
  function DateDifference(ka: Option<Instant>, kb: Option<Instant>): (r: int)
    ensures ka.Some? && kb.Some? ==> (r <= 0 <==> TimeValue(ka.value) <= TimeValue(kb.value))
    ensures ka.None? || kb.None? ==> r == 0
  {
    if ka.Some? && kb.Some? then TimeValue(ka.value) - TimeValue(kb.value) else 0
  }

  /**
   * The comparator of `sortAppointments`: in 'datetime' mode by date; in any other mode by
   * priority, higher first, then by date. `key` is the date each appointment is ordered by.
   */
  function Compare(mode: string, key: Appointment -> Option<Instant>, a: Appointment, b: Appointment): int {
    if mode == "datetime" then DateDifference(key(a), key(b))
    else if b.priority != a.priority then b.priority - a.priority
    else DateDifference(key(a), key(b))
  }

  function Comparator(mode: string, key: Appointment -> Option<Instant>): (cmp: (Appointment, Appointment) -> int)
    ensures forall a, b :: cmp(a, b) == Compare(mode, key, a, b)
  {
    (a, b) => Compare(mode, key, a, b)
  }

  /** `sortAppointments(items, mode)`: a sorted copy; the input itself is not reordered. */
  function SortAppointments(items: seq<Appointment>, mode: string): (r: seq<Appointment>)
    ensures |r| == |items| && multiset(r) == multiset(items)
  {
    SortBy(items, Comparator(mode, SortKey))
  }

  /** `a` may come before `b`: both dates parse, and `a` is earlier or equally early, or of higher priority. */
  ghost predicate InOrder(mode: string, key: Appointment -> Option<Instant>, a: Appointment, b: Appointment) {
    && key(a).Some? && key(b).Some?
    && (mode == "datetime" ==> TimeValue(key(a).value) <= TimeValue(key(b).value))
    && (mode != "datetime" ==>
          a.priority > b.priority || (a.priority == b.priority && TimeValue(key(a).value) <= TimeValue(key(b).value)))
  }

  ghost predicate Ranked(r: seq<Appointment>, mode: string, key: Appointment -> Option<Instant>) {
    forall i, j :: 0 <= i < j < |r| ==> InOrder(mode, key, r[i], r[j])
  }

  /** When every date parses, the comparator says "keep `a` first" exactly for `InOrder`. */
  lemma ComparatorMeaning(mode: string, key: Appointment -> Option<Instant>, a: Appointment, b: Appointment)
    requires key(a).Some? && key(b).Some?
    ensures Comparator(mode, key)(a, b) <= 0 <==> InOrder(mode, key, a, b)
  {
  }

  lemma ComparatorConsistent(items: seq<Appointment>, mode: string, key: Appointment -> Option<Instant>)
    requires forall a :: a in items ==> key(a).Some?
    ensures ConsistentOn(items, Comparator(mode, key))
  {
    var cmp := Comparator(mode, key);
    forall a, b | a in items && b in items
      ensures cmp(a, b) <= 0 || cmp(b, a) <= 0
    {
      ComparatorMeaning(mode, key, a, b);
      ComparatorMeaning(mode, key, b, a);
    }
    forall a, b, c | a in items && b in items && c in items && cmp(a, b) <= 0 && cmp(b, c) <= 0
      ensures cmp(a, c) <= 0
    {
      ComparatorMeaning(mode, key, a, b);
      ComparatorMeaning(mode, key, b, c);
      ComparatorMeaning(mode, key, a, c);
    }
  }

  /** With any key under which every date parses, the sorted list is in `InOrder` order. */
  lemma SortedByKey(items: seq<Appointment>, mode: string, key: Appointment -> Option<Instant>)
    requires forall a :: a in items ==> key(a).Some?
    ensures Ranked(SortBy(items, Comparator(mode, key)), mode, key)
  {
    var r := SortBy(items, Comparator(mode, key));
    ComparatorConsistent(items, mode, key);
    SortBySorted(items, Comparator(mode, key));
    forall i, j | 0 <= i < j < |r|
      ensures InOrder(mode, key, r[i], r[j])
    {
      assert r[i] in multiset(items) && r[j] in multiset(items);
      ComparatorMeaning(mode, key, r[i], r[j]);
    }
  }

  /**
   * When every appointment's date parses, `sortAppointments` puts them in date order
   * ('datetime') or in priority order, higher first, with ties by date (any other mode).
   */
  lemma SortAppointmentsOrdered(items: seq<Appointment>, mode: string)
    requires forall a :: a in items ==> SortKey(a).Some?
    ensures Ranked(SortAppointments(items, mode), mode, SortKey)
  {
    SortedByKey(items, mode, SortKey);
  }

  // ---- The window a view shows ----

  /** `getRangeByView(date, viewMode)`: the day, the Monday-to-Sunday week, the year, or (by default) the month. */
  function RangeByView(t: Instant, viewMode: string): (Instant, Instant) {
    match viewMode
    case "day" => (StartOfDay(t), EndOfDay(t))
    case "week" => (StartOfWeek(t), EndOfWeek(t))
    case "year" => (StartOfYear(t), EndOfYear(t))
    case _ => (StartOfMonth(t), EndOfMonth(t))
  }

  /**
   * Every view's window holds the date it was chosen for, starts at midnight and ends at
   * 23:59:59.999; the day window is that date's day, the week window starts on a Monday,
   * the month window on the first of the month and the year window on 1 January.
   */
  lemma RangeByViewHolds(t: Instant, viewMode: string)
    requires FourDigitSafe(t.year) && FourDigitSafe(t.year + 1)
    ensures var (s, e) := RangeByView(t, viewMode);
      && TimeValue(s) <= TimeValue(t) <= TimeValue(e)
      && MsOfDay(s) == 0 && MsOfDay(e) == MsPerDay - 1
      && (viewMode == "day" ==> EpochDay(s) == EpochDay(t) == EpochDay(e))
      && (viewMode == "week" ==> Weekday(s) == 1 && EpochDay(e) == EpochDay(s) + 6)
      && (viewMode == "year" ==> s == DateTime(t.year, 1, 1, 0, 0, 0, 0) && e == DateTime(t.year, 12, 31, 23, 59, 59, 999))
      && (viewMode !in {"day", "week", "year"} ==>
            s == DateTime(t.year, t.month, 1, 0, 0, 0, 0)
            && e == DateTime(t.year, t.month, DaysInMonth(t.year, t.month), 23, 59, 59, 999))
  {
    if viewMode == "day" {
      DayBounds(t);
      StartOfDayParts(t);
      EndOfDayParts(t);
    } else if viewMode == "week" {
      StartOfWeekBounds(t);
      EndOfWeekBounds(t);
    } else if viewMode == "year" {
      YearBounds(t);
    } else {
      MonthBounds(t);
    }
  }
}
