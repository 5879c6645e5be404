/**
 * The events of a calculator template and the schedule each one generates (a single date,
 * a series of dates or a range of weeks), filtered to the calculation window, gathered
 * over all events, deduplicated by title and date, and sorted by date.
 */
module TemplateSchedules {
  import opened Wrappers
  import opened JsText
  import opened CivilTime
  import opened DateStrings
  import opened OrderedMaps
  import opened Ordering
  import opened CalculatorEngine
  import opened CalculatorTemplates

  // ---- Events ----

  /** How an event is scheduled, from `schedule.mode` (`single` when it is absent). */
  datatype Mode = Single | Series | RangeWeeks | NoMode

  function ModeOf(mode: string): (r: Mode)
    ensures r == Single <==> mode == "" || mode == "single"
    ensures r == Series <==> mode == "series"
    ensures r == RangeWeeks <==> mode == "rangeWeeks"
  {
    if mode == "" || mode == "single" then Single
    else if mode == "series" then Series
    else if mode == "rangeWeeks" then RangeWeeks
    else NoMode
  }

  /**
   * An event's schedule. The offsets are `None` unless they are finite numbers; the other
   * numbers are what `Number` makes of them (NaN when absent). `anchor` is `''` when absent.
   */
  datatype Schedule = Schedule(
    mode: Mode,
    anchor: string,
    offsetDays: Option<int>,
    offsetWeeks: Option<int>,
    offsetMonths: Option<int>,
    intervalDays: JsNum,
    intervalWeeks: JsNum,
    intervalMonths: JsNum,
    maxOccurrences: JsNum,
    startWeek: JsNum,
    endWeek: JsNum,
    stepWeeks: JsNum)

  /** An event of a template; absent texts are `''`, a list that is not an array `None`, a number that is not finite `None`. */
  datatype Event = Event(
    conditions: seq<Condition>,
    schedule: Schedule,
    titleTemplate: string,
    description: string,
    category: string,
    tags: Option<seq<string>>,
    priority: Option<int>,
    reminderMinutes: Option<int>,
    calendarId: string,
    status: string)

  /** An item an event generates. */
  datatype EventItem = EventItem(
    date: Instant,
    title: string,
    description: string,
    category: string,
    tags: seq<string>,
    priority: int,
    reminderMinutes: Option<int>,
    calendarId: string,
    status: string)

  /** What an event sees: the input, the derived dates, the template's fields, the window, and now. */
  datatype Context = Context(
    input: map<string, InputValue>,
    derived: Derived,
    fields: seq<RawField>,
    windowStart: Instant,
    windowEnd: Instant,
    futureOnly: bool,
    now: Instant)

  const WeekKey: string := "week"

  /** `input.petName || input.personName || ''`. */
  function EntityName(input: map<string, InputValue>): (r: InputValue)
    ensures r == TextInput("") || ValueTruthy(r)
  {
    var pet := Lookup(input, "petName");
    var person := Lookup(input, "personName");
    if pet.Some? && ValueTruthy(pet.value) then pet.value
    else if person.Some? && ValueTruthy(person.value) then person.value
    else TextInput("")
  }

  /** ` (name)` after a nonempty name. */
  function EntitySuffix(name: InputValue): string {
    if ValueTruthy(name) then " (" + ValueText(name) + ")" else ""
  }

  /** The variables titles and descriptions are filled from: the input, then the species label and the entity name. */
  function Variables(input: map<string, InputValue>, fields: seq<RawField>): map<string, InputValue> {
    var name := EntityName(input);
    input + map[
      "speciesLabel" := OptionLabel(fields, "species", Lookup(input, "species")),
      "entityName" := name,
      "entitySuffix" := TextInput(EntitySuffix(name))]
  }

  /** `buildItem(date, extra)`: filled and trimmed texts, and the event's settings with their defaults. */
  function BuildItem(e: Event, vars: map<string, InputValue>, date: Instant): (r: EventItem)
    ensures r.date == date
    ensures r.category != "" && r.calendarId != "" && r.status != ""
    ensures r.priority == if e.priority.Some? then e.priority.value else 5
  {
    EventItem(
      date,
      Trim(FillTemplate(e.titleTemplate, vars)),
      Trim(FillTemplate(e.description, vars)),
      OrDefault(e.category, "general"),
      if e.tags.Some? then e.tags.value else [],
      if e.priority.Some? then e.priority.value else 5,
      e.reminderMinutes,
      OrDefault(e.calendarId, "health"),
      OrDefault(e.status, "confirmed"))
  }

  // ---- Single dates ----

  /** The anchor shifted by the finite offsets, days, then weeks, then months. */
  function SingleDate(anchor: Instant, s: Schedule): Instant {
    var t1 := if s.offsetDays.Some? then AddDays(anchor, s.offsetDays.value) else anchor;
    var t2 := if s.offsetWeeks.Some? then AddDays(t1, s.offsetWeeks.value * 7) else t1;
    if s.offsetMonths.Some? then AddMonths(t2, s.offsetMonths.value) else t2
  }

  /** Offsets in days and weeks move the anchor by that many days. */
  lemma SingleDateDays(anchor: Instant, s: Schedule)
    requires s.offsetMonths.None?
    ensures TimeValue(SingleDate(anchor, s)) == TimeValue(anchor)
      + ((if s.offsetDays.Some? then s.offsetDays.value else 0) + (if s.offsetWeeks.Some? then s.offsetWeeks.value * 7 else 0)) * MsPerDay
  {
  }

  // ---- Series ----

  /** How a series moves from one date to the next. */
  datatype Step = ByDays(days: int) | ByMonths(months: int) | NoStep

  /** The first interval that is set, days before weeks before months. */
  function StepOf(s: Schedule): (r: Step)
    ensures r.ByDays? ==> r.days != 0
    ensures r.ByMonths? ==> r.months != 0
    ensures r == NoStep <==> !Truthy(s.intervalDays) && !Truthy(s.intervalWeeks) && !Truthy(s.intervalMonths)
  {
    var d := NumOr(s.intervalDays, 0);
    var w := NumOr(s.intervalWeeks, 0);
    var m := NumOr(s.intervalMonths, 0);
    if d != 0 then ByDays(d) else if w != 0 then ByDays(w * 7) else if m != 0 then ByMonths(m) else NoStep
  }

  function Next(t: Instant, step: Step): Instant {
    match step
    case ByDays(k) => AddDays(t, k)
    case ByMonths(k) => AddMonths(t, k)
    case NoStep => t
  }

  /** `Number(schedule.maxOccurrences) || 200`. */
  function MaxOccurrences(s: Schedule): int {
    NumOr(s.maxOccurrences, 200)
  }

  /**
   * The values `current`, `next(current)`, … while fewer than `remaining` are taken and
   * each one is `within`; only the first when `once`.
   */
  function Iterate<T>(current: T, remaining: int, within: T -> bool, next: T -> T, once: bool): (r: seq<T>)
    ensures |r| <= if remaining > 0 then remaining else 0
    ensures forall i :: 0 <= i < |r| ==> within(r[i])
    ensures once ==> |r| <= 1
    ensures remaining > 0 && within(current) <==> r != []
    ensures r != [] ==> r[0] == current
    decreases remaining
  {
    if remaining <= 0 || !within(current) then []
    else [current] + (if once then [] else Iterate(next(current), remaining - 1, within, next, once))
  }

  /** Each value after the first is `next` of the one before it. */
  lemma {:induction false} IterateNext<T>(current: T, remaining: int, within: T -> bool, next: T -> T, once: bool, i: nat)
    requires i + 1 < |Iterate(current, remaining, within, next, once)|
    ensures Iterate(current, remaining, within, next, once)[i + 1] == next(Iterate(current, remaining, within, next, once)[i])
    decreases remaining
  {
    if i > 0 {
      IterateNext(next(current), remaining - 1, within, next, once, i - 1);
    }
  }

  /** `current <= windowEnd`, on time values. */
  function NotPast(windowEnd: Instant): (r: Instant -> bool)
    ensures forall t :: r(t) == (TimeValue(t) <= TimeValue(windowEnd))
  {
    (t: Instant) => TimeValue(t) <= TimeValue(windowEnd)
  }

  function StepBy(step: Step): (r: Instant -> Instant)
    ensures forall t :: r(t) == Next(t, step)
  {
    (t: Instant) => Next(t, step)
  }

  /**
   * The dates of a series: from the anchor, while fewer than `maxOccurrences` are taken and
   * the date is not past the window's end; the anchor only when there is no interval.
   */
  function SeriesDates(anchor: Instant, maxOccurrences: int, windowEnd: Instant, step: Step): (r: seq<Instant>)
    ensures |r| <= if maxOccurrences > 0 then maxOccurrences else 0
    ensures forall i :: 0 <= i < |r| ==> TimeValue(r[i]) <= TimeValue(windowEnd)
    ensures step == NoStep ==> |r| <= 1
    ensures maxOccurrences > 0 && TimeValue(anchor) <= TimeValue(windowEnd) <==> r != []
    ensures r != [] ==> r[0] == anchor
  {
    Iterate(anchor, maxOccurrences, NotPast(windowEnd), StepBy(step), step == NoStep)
  }

  /** The `while` loop of series mode; `Next` is the `if`/`else if` chain on the intervals. */
  method SeriesLoop(anchor: Instant, maxOccurrences: int, windowEnd: Instant, step: Step) returns (dates: seq<Instant>)
    ensures dates == SeriesDates(anchor, maxOccurrences, windowEnd, step)
  {
    dates := IterateLoop(anchor, maxOccurrences, NotPast(windowEnd), StepBy(step), step == NoStep);
  }

  /**
   * The loop itself: take the current value while fewer than `remaining` are taken and it is
   * `within`, stop after the first when `once`, else move on to `next(current)`.
   */
  method IterateLoop<T>(start: T, remaining: int, within: T -> bool, next: T -> T, once: bool) returns (taken: seq<T>)
    ensures taken == Iterate(start, remaining, within, next, once)
  {
    taken := [];
    var current := start;
    var count := 0;
    while count < remaining && within(current)
      invariant count >= 0
      invariant taken + Iterate(current, remaining - count, within, next, once) == Iterate(start, remaining, within, next, once)
      decreases remaining - count
    {
      IterateTake(taken, current, remaining - count, within, next, once, Iterate(start, remaining, within, next, once));
      taken := taken + [current];
      count := count + 1;
      if once {
        break;
      }
      current := next(current);
    }
    assert taken + [] == taken;
  }

  /** One turn of the loop: the date taken moves from what is left to what is kept. */
  lemma IterateTake<T>(dates: seq<T>, current: T, remaining: int, within: T -> bool, next: T -> T, once: bool, whole: seq<T>)
    requires remaining > 0 && within(current)
    requires dates + Iterate(current, remaining, within, next, once) == whole
    ensures once ==> dates + [current] == whole
    ensures !once ==> (dates + [current]) + Iterate(next(current), remaining - 1, within, next, once) == whole
  {
    var rest := if once then [] else Iterate(next(current), remaining - 1, within, next, once);
    assert Iterate(current, remaining, within, next, once) == [current] + rest;
    assert dates + ([current] + rest) == (dates + [current]) + rest;
    assert rest == [] ==> (dates + [current]) + rest == dates + [current];
  }

  /** Each date of a series is the step after the one before it. */
  lemma SeriesNext(anchor: Instant, maxOccurrences: int, windowEnd: Instant, step: Step, i: nat)
    requires i + 1 < |SeriesDates(anchor, maxOccurrences, windowEnd, step)|
    ensures SeriesDates(anchor, maxOccurrences, windowEnd, step)[i + 1] == Next(SeriesDates(anchor, maxOccurrences, windowEnd, step)[i], step)
  {
    IterateNext(anchor, maxOccurrences, NotPast(windowEnd), StepBy(step), step == NoStep, i);
  }

  /** In a series by days the dates are that many days apart, so one by a positive number of days goes forward. */
  lemma SeriesByDays(anchor: Instant, maxOccurrences: int, windowEnd: Instant, k: int, i: nat)
    requires i + 1 < |SeriesDates(anchor, maxOccurrences, windowEnd, ByDays(k))|
    ensures var r := SeriesDates(anchor, maxOccurrences, windowEnd, ByDays(k));
      TimeValue(r[i + 1]) == TimeValue(r[i]) + k * MsPerDay
    ensures var r := SeriesDates(anchor, maxOccurrences, windowEnd, ByDays(k));
      k > 0 ==> TimeValue(r[i]) < TimeValue(r[i + 1])
  {
    SeriesNext(anchor, maxOccurrences, windowEnd, ByDays(k), i);
  }

  // ---- Ranges of weeks ----

  /** `Number(schedule.startWeek) || 0`. */
  function StartWeek(s: Schedule): int {
    NumOr(s.startWeek, 0)
  }

  /** `Number(schedule.endWeek) || startWeek`. */
  function EndWeek(s: Schedule): int {
    NumOr(s.endWeek, StartWeek(s))
  }

  /** `Math.max(1, Number(schedule.stepWeeks) || 1)`. */
  function StepWeeks(s: Schedule): (r: int)
    ensures r >= 1
  {
    var n := NumOr(s.stepWeeks, 1);
    if n > 1 then n else 1
  }

  /**
   * The weeks `week`, `week + step`, … up to `end`: each a step after the one before, all
   * within `[week, end]`, and the next step past `end`.
   */
  function Weeks(week: int, end: int, step: int): (r: seq<int>)
    requires step >= 1
    ensures r == [] <==> end < week
    ensures r != [] ==> r[0] == week && r[|r| - 1] + step > end
    ensures forall i :: 0 <= i < |r| ==> week <= r[i] <= end
    ensures forall i :: 0 <= i < |r| - 1 ==> r[i + 1] == r[i] + step
    decreases end - week
  {
    if week > end then []
    else
      var rest := Weeks(week + step, end, step);
      assert forall i :: 1 <= i < |rest| + 1 ==> ([week] + rest)[i] == rest[i - 1];
      [week] + rest
  }

  /** The `for` loop of rangeWeeks mode. */
  method WeekLoop(start: int, end: int, step: int) returns (weeks: seq<int>)
    requires step >= 1
    ensures weeks == Weeks(start, end, step)
  {
    weeks := [];
    var week := start;
    while week <= end
      invariant weeks + Weeks(week, end, step) == Weeks(start, end, step)
      decreases end - week
    {
      assert Weeks(week, end, step) == [week] + Weeks(week + step, end, step);
      weeks := weeks + [week];
      week := week + step;
    }
    assert weeks + [] == weeks;
  }

  // ---- The items of an event ----

  function SeriesItems(e: Event, vars: map<string, InputValue>, dates: seq<Instant>): (r: seq<EventItem>)
    ensures |r| == |dates| && forall i :: 0 <= i < |r| ==> r[i] == BuildItem(e, vars, dates[i])
  {
    seq(|dates|, i requires 0 <= i < |dates| => BuildItem(e, vars, dates[i]))
  }

  /** One item per week, `week` weeks after the anchor, with `{week}` filled in. */
  function WeekItems(e: Event, vars: map<string, InputValue>, anchor: Instant, weeks: seq<int>): (r: seq<EventItem>)
    ensures |r| == |weeks|
    ensures forall i :: 0 <= i < |r| ==> r[i] == BuildItem(e, vars[WeekKey := NumInput(weeks[i])], AddDays(anchor, weeks[i] * 7))
  {
    seq(|weeks|, i requires 0 <= i < |weeks| => BuildItem(e, vars[WeekKey := NumInput(weeks[i])], AddDays(anchor, weeks[i] * 7)))
  }

  /** The items an event's schedule generates from the anchor, before the window filter. */
  function ScheduleItems(e: Event, anchor: Instant, ctx: Context): seq<EventItem> {
    var s := e.schedule;
    var vars := Variables(ctx.input, ctx.fields);
    match s.mode
    case Single => [BuildItem(e, vars, SingleDate(anchor, s))]
    case Series => SeriesItems(e, vars, SeriesDates(anchor, MaxOccurrences(s), ctx.windowEnd, StepOf(s)))
    case RangeWeeks => WeekItems(e, vars, anchor, Weeks(StartWeek(s), EndWeek(s), StepWeeks(s)))
    case NoMode => []
  }

  /** The final filter: within the window, and after now when only future dates are wanted. */
  predicate InWindow(item: EventItem, ctx: Context) {
    && TimeValue(ctx.windowStart) <= TimeValue(item.date) <= TimeValue(ctx.windowEnd)
    && (ctx.futureOnly ==> TimeValue(item.date) > TimeValue(ctx.now))
  }

  /** `xs.filter(keep)`. */
  function Filter<T>(xs: seq<T>, keep: T -> bool): (r: seq<T>)
    ensures |r| <= |xs|
    ensures forall i :: 0 <= i < |r| ==> keep(r[i])
    ensures forall i :: 0 <= i < |r| ==> r[i] in xs
    ensures forall i :: 0 <= i < |xs| && keep(xs[i]) ==> xs[i] in r
  {
    if xs == [] then []
    else
      assert xs == [xs[0]] + xs[1..];
      (if keep(xs[0]) then [xs[0]] else []) + Filter(xs[1..], keep)
  }

  function WindowFilter(ctx: Context): (r: EventItem -> bool)
    ensures forall x :: r(x) == InWindow(x, ctx)
  {
    (x: EventItem) => InWindow(x, ctx)
  }

  /** `createEventItems(event, context)`. */
  function EventItems(e: Event, ctx: Context): seq<EventItem> {
    if !AllHold(e.conditions, ctx.input, ctx.derived) then []
    else match AnchorDate(e.schedule.anchor, ctx.input, ctx.derived)
      case None => []
      case Some(anchor) => Filter(ScheduleItems(e, anchor, ctx), WindowFilter(ctx))
  }

  /** `createEventItems`, with its loops. */
  method CreateEventItems(e: Event, ctx: Context) returns (items: seq<EventItem>)
    ensures items == EventItems(e, ctx)
  {
    if !AllHold(e.conditions, ctx.input, ctx.derived) {
      return [];
    }
    var anchor := AnchorDate(e.schedule.anchor, ctx.input, ctx.derived);
    if anchor.None? {
      return [];
    }
    var s := e.schedule;
    var vars := Variables(ctx.input, ctx.fields);
    var generated: seq<EventItem> := [];
    if s.mode == Single {
      generated := [BuildItem(e, vars, SingleDate(anchor.value, s))];
    } else if s.mode == Series {
      var dates := SeriesLoop(anchor.value, MaxOccurrences(s), ctx.windowEnd, StepOf(s));
      generated := SeriesItems(e, vars, dates);
    } else if s.mode == RangeWeeks {
      var weeks := WeekLoop(StartWeek(s), EndWeek(s), StepWeeks(s));
      generated := WeekItems(e, vars, anchor.value, weeks);
    }
    items := Filter(generated, WindowFilter(ctx));
  }

  /** Failing conditions or an anchor that does not resolve give no items. */
  lemma EventItemsEmpty(e: Event, ctx: Context)
    requires !AllHold(e.conditions, ctx.input, ctx.derived) || AnchorDate(e.schedule.anchor, ctx.input, ctx.derived).None?
    ensures EventItems(e, ctx) == []
  {
  }

  /** Every item lies in the window, and after now when only future dates are wanted. */
  lemma EventItemsInWindow(e: Event, ctx: Context, i: nat)
    requires i < |EventItems(e, ctx)|
    ensures InWindow(EventItems(e, ctx)[i], ctx)
  {
  }

  /**
   * A series gives at most `maxOccurrences` items (200 by default), none past the window's
   * end, and at most one without an interval.
   */
  lemma SeriesBounded(e: Event, ctx: Context)
    requires e.schedule.mode == Series
    ensures |EventItems(e, ctx)| <= if MaxOccurrences(e.schedule) > 0 then MaxOccurrences(e.schedule) else 0
    ensures StepOf(e.schedule) == NoStep ==> |EventItems(e, ctx)| <= 1
    ensures !Truthy(e.schedule.maxOccurrences) ==> |EventItems(e, ctx)| <= 200
  {
  }

  /** Without an interval a series is the one item at its anchor, when that is in the window. */
  lemma SeriesWithoutInterval(e: Event, ctx: Context, anchor: Instant)
    requires e.schedule.mode == Series && StepOf(e.schedule) == NoStep
    requires MaxOccurrences(e.schedule) >= 1 && TimeValue(anchor) <= TimeValue(ctx.windowEnd)
    ensures ScheduleItems(e, anchor, ctx) == [BuildItem(e, Variables(ctx.input, ctx.fields), anchor)]
  {
    var dates := SeriesDates(anchor, MaxOccurrences(e.schedule), ctx.windowEnd, NoStep);
    assert |dates| == 1 && dates[0] == anchor;
  }

  /**
   * A range of weeks gives one item per week from the start week to the end week inclusive
   * (stepping by at least one week, none when the end comes before the start), each that
   * many weeks after the anchor.
   */
  lemma RangeWeeksItems(e: Event, ctx: Context, anchor: Instant)
    requires e.schedule.mode == RangeWeeks
    ensures var s := e.schedule;
      var ws := Weeks(StartWeek(s), EndWeek(s), StepWeeks(s));
      var items := ScheduleItems(e, anchor, ctx);
      && |items| == |ws|
      && forall i :: 0 <= i < |items| ==> TimeValue(items[i].date) == TimeValue(anchor) + ws[i] * 7 * MsPerDay
  {
    var s := e.schedule;
    var ws := Weeks(StartWeek(s), EndWeek(s), StepWeeks(s));
    var items := ScheduleItems(e, anchor, ctx);
    forall i | 0 <= i < |items|
      ensures TimeValue(items[i].date) == TimeValue(anchor) + ws[i] * 7 * MsPerDay
    {
      assert items[i].date == AddDays(anchor, ws[i] * 7);
    }
  }

  // ---- Dedup and sort ----

  /** `${item.title}::${new Date(item.date).toISOString()}`. */
  function KeyOf(item: EventItem): string {
    item.title + "::" + ToIsoString(item.date)
  }

  function KeepAll(item: EventItem): bool { true }

  function Itself(item: EventItem): EventItem { item }

  /** `deduped`: the items set one by one under their keys. */
  function Dedup(items: seq<EventItem>): seq<Entry<string, EventItem>> {
    SetAll([], items, KeepAll, KeyOf, Itself)
  }

  /** The loop that fills `deduped`. */
  method DedupLoop(items: seq<EventItem>) returns (deduped: seq<Entry<string, EventItem>>)
    ensures deduped == Dedup(items)
  {
    deduped := [];
    var i := 0;
    while i < |items|
      invariant 0 <= i <= |items|
      invariant deduped == SetAll([], items[..i], KeepAll, KeyOf, Itself)
    {
      assert items[..i + 1][..i] == items[..i];
      deduped := Put(deduped, KeyOf(items[i]), items[i]);
      i := i + 1;
    }
    assert items[..|items|] == items;
  }

  /** `new Date(a.date) - new Date(b.date)`. */
  function ByDate(a: EventItem, b: EventItem): int {
    TimeValue(a.date) - TimeValue(b.date)
  }

  /** The deduplicated items sorted by date. */
  function DedupSorted(items: seq<EventItem>): seq<EventItem> {
    SortBy(Values(Dedup(items)), ByDate)
  }

  /** The dedup map, for any key: entries keyed by their items' keys, no key twice. */
  lemma DedupMapKeyed(items: seq<EventItem>, key: EventItem -> string)
    ensures var m := SetAll([], items, KeepAll, key, Itself);
      Distinct(Keys(m)) && KeyedBy(m, key)
  {
    SetAllKeys([], items, KeepAll, key, Itself);
    AddKeysDistinct([], items, KeepAll, key);
    SetAllKeyed([], items, KeepAll, key, Itself, key);
  }

  /** In such a map two items with the same key are at the same place. */
  lemma KeyedIndex(m: seq<Entry<string, EventItem>>, key: EventItem -> string, p: nat, q: nat)
    requires Distinct(Keys(m)) && KeyedBy(m, key) && p < |m| && q < |m|
    requires key(m[p].value) == key(m[q].value)
    ensures p == q
  {
    assert Keys(m)[p] == Keys(m)[q];
  }

  /** Each sorted item is an item of the map. */
  lemma SortedFromMap(m: seq<Entry<string, EventItem>>, i: nat)
    requires i < |SortBy(Values(m), ByDate)|
    ensures exists p :: 0 <= p < |m| && m[p].value == SortBy(Values(m), ByDate)[i]
  {
    var r := SortBy(Values(m), ByDate);
    assert r[i] in multiset(Values(m));
    var p :| 0 <= p < |Values(m)| && Values(m)[p] == r[i];
  }

  /** No two results share a key. */
  lemma DedupUnique(items: seq<EventItem>, key: EventItem -> string)
    ensures var r := SortBy(Values(SetAll([], items, KeepAll, key, Itself)), ByDate);
      forall i, j :: 0 <= i < j < |r| ==> key(r[i]) != key(r[j])
  {
    var m := SetAll([], items, KeepAll, key, Itself);
    var vals := Values(m);
    var r := SortBy(vals, ByDate);
    DedupMapKeyed(items, key);
    assert Distinct(vals) by {
      forall i, j | 0 <= i < j < |vals|
        ensures vals[i] != vals[j]
      {
        assert Keys(m)[i] != Keys(m)[j];
      }
    }
    DistinctPermuted(vals, r);
    forall i, j | 0 <= i < j < |r|
      ensures key(r[i]) != key(r[j])
    {
      SortedFromMap(m, i);
      SortedFromMap(m, j);
      var p :| 0 <= p < |m| && m[p].value == r[i];
      var q :| 0 <= q < |m| && m[q].value == r[j];
      if key(r[i]) == key(r[j]) {
        KeyedIndex(m, key, p, q);
      }
    }
  }

  /** Each result is the last item with its key. */
  lemma DedupLast(items: seq<EventItem>, key: EventItem -> string, i: nat)
    requires i < |SortBy(Values(SetAll([], items, KeepAll, key, Itself)), ByDate)|
    ensures var r := SortBy(Values(SetAll([], items, KeepAll, key, Itself)), ByDate);
      LastWith(items, KeepAll, key, Itself, key(r[i])) == Some(r[i])
  {
    var m := SetAll([], items, KeepAll, key, Itself);
    var r := SortBy(Values(m), ByDate);
    DedupMapKeyed(items, key);
    SortedFromMap(m, i);
    var p :| 0 <= p < |m| && m[p].value == r[i];
    GetAt(m, p);
    SetAllGet([], items, KeepAll, key, Itself, key(r[i]));
  }

  /** Every item's key is among the results (whatever order they are sorted in). */
  lemma DedupCovers(items: seq<EventItem>, key: EventItem -> string, cmp: (EventItem, EventItem) -> int, n: nat)
    requires n < |items|
    ensures var r := SortBy(Values(SetAll([], items, KeepAll, key, Itself)), cmp);
      exists i :: 0 <= i < |r| && key(r[i]) == key(items[n])
  {
    var vals := Values(SetAll([], items, KeepAll, key, Itself));
    SetAllValuesCover([], items, KeepAll, key, Itself, key, n);
    var p :| 0 <= p < |vals| && key(vals[p]) == key(items[n]);
    SortByMembers(vals, cmp, vals[p]);
  }

  /** The results are in date order. */
  lemma DedupOrdered(vals: seq<EventItem>)
    ensures SortedBy(SortBy(vals, ByDate), ByDate)
  {
    assert ConsistentOn(vals, ByDate);
    SortBySorted(vals, ByDate);
  }

  /** Each result is the last item with its title and date. */
  lemma DedupSortedLast(items: seq<EventItem>)
    ensures var r := DedupSorted(items);
      forall i :: 0 <= i < |r| ==> LastWith(items, KeepAll, KeyOf, Itself, KeyOf(r[i])) == Some(r[i])
  {
    forall i | 0 <= i < |DedupSorted(items)|
      ensures LastWith(items, KeepAll, KeyOf, Itself, KeyOf(DedupSorted(items)[i])) == Some(DedupSorted(items)[i])
    {
      DedupLast(items, KeyOf, i);
    }
  }

  /** The results are in date order. */
  lemma DedupSortedOrdered(items: seq<EventItem>)
    ensures SortedBy(DedupSorted(items), ByDate)
  {
    DedupOrdered(Values(Dedup(items)));
  }

  // ---- The calculation of a template ----

  /** Where a template's window starts and ends (anchors `''` when absent), and whether only future dates count. */
  datatype WindowSpec = WindowSpec(startAnchor: string, endAnchor: string, futureOnly: bool)

  /** A template file. */
  datatype TemplateData = TemplateData(
    id: string,
    fields: seq<RawField>,
    definitions: seq<Definition>,
    window: WindowSpec,
    events: seq<Event>)

  /** `new Date('1970-01-01T00:00:00.000Z')`. */
  const Epoch: Instant := FromTimeValue(0)

  /** The window start: its anchor's date, else 1 January 1970. */
  function WindowStart(data: TemplateData, input: map<string, InputValue>, derived: Derived): Instant {
    match AnchorDate(data.window.startAnchor, input, derived)
    case Some(t) => t
    case None => Epoch
  }

  /** The window end: its anchor's date, else five years after the start. */
  function WindowEnd(data: TemplateData, input: map<string, InputValue>, derived: Derived): Instant {
    match AnchorDate(data.window.endAnchor, input, derived)
    case Some(t) => t
    case None => AddYears(WindowStart(data, input, derived), 5)
  }

  /** `context`, given the derived dates. */
  function ContextWith(data: TemplateData, input: map<string, InputValue>, derived: Derived, now: Instant): Context {
    Context(input, derived, data.fields, WindowStart(data, input, derived), WindowEnd(data, input, derived), data.window.futureOnly, now)
  }

  function ContextOf(data: TemplateData, input: map<string, InputValue>, now: Instant): Context {
    ContextWith(data, input, DerivedOf(data.definitions, input, now), now)
  }

  function EventsOf(ctx: Context): (r: Event -> seq<EventItem>)
    ensures forall e :: r(e) == EventItems(e, ctx)
  {
    (e: Event) => EventItems(e, ctx)
  }

  /** `events.flatMap((event) => createEventItems(event, context))`. */
  function AllItems(events: seq<Event>, ctx: Context): seq<EventItem> {
    ConcatMap(events, EventsOf(ctx))
  }

  /** The template's `calculate({ input })`, with `now` the current instant. */
  function TemplateCalculation(data: TemplateData, input: map<string, InputValue>, now: Instant): seq<EventItem> {
    DedupSorted(AllItems(data.events, ContextOf(data, input, now)))
  }

  /** The `flatMap` over the events, as a loop. */
  method AllItemsLoop(events: seq<Event>, ctx: Context) returns (all: seq<EventItem>)
    ensures all == AllItems(events, ctx)
  {
    ghost var f := EventsOf(ctx);
    all := [];
    var i := 0;
    while i < |events|
      invariant 0 <= i <= |events|
      invariant all == ConcatMap(events[..i], f)
    {
      assert events[..i + 1][..i] == events[..i];
      var items := CreateEventItems(events[i], ctx);
      all := all + items;
      i := i + 1;
    }
    assert events[..|events|] == events;
  }

  /** The template's `calculate`, as it runs: derived dates, event items and the dedup map each by their loops. */
  method RunTemplate(data: TemplateData, input: map<string, InputValue>, now: Instant) returns (result: seq<EventItem>)
    ensures result == TemplateCalculation(data, input, now)
  {
    var derived := ResolveDerivedDates(data.definitions, input, now);
    var ctx := ContextWith(data, input, derived, now);
    var all := AllItemsLoop(data.events, ctx);
    var deduped := DedupLoop(all);
    result := SortBy(Values(deduped), ByDate);
  }

  lemma {:induction false} ConcatMapIn<A, B>(xs: seq<A>, f: A -> seq<B>, y: B)
    ensures y in ConcatMap(xs, f) <==> exists i :: 0 <= i < |xs| && y in f(xs[i])
    decreases |xs|
  {
    if xs != [] {
      var k := |xs| - 1;
      ConcatMapIn(xs[..k], f, y);
      if exists i :: 0 <= i < k && y in f(xs[..k][i]) {
        var i :| 0 <= i < k && y in f(xs[..k][i]);
        assert xs[i] == xs[..k][i];
      }
      if exists i :: 0 <= i < |xs| && y in f(xs[i]) {
        var i :| 0 <= i < |xs| && y in f(xs[i]);
        if i < k {
          assert xs[..k][i] == xs[i];
        }
      }
    }
  }

  /**
   * Each item a template's calculation gives was generated by one of its events, and lies
   * in the window (and after now under `futureOnly`); the rest of what it promises is
   * stated by the `DedupSorted` lemmas, on `AllItems`.
   */
  lemma TemplateItemsInWindow(data: TemplateData, input: map<string, InputValue>, now: Instant, i: nat)
    requires i < |TemplateCalculation(data, input, now)|
    ensures var ctx := ContextOf(data, input, now);
      var r := TemplateCalculation(data, input, now);
      InWindow(r[i], ctx) && exists k :: 0 <= k < |data.events| && r[i] in EventItems(data.events[k], ctx)
  {
    var ctx := ContextOf(data, input, now);
    var all := AllItems(data.events, ctx);
    DedupMember(all, KeyOf, i);
    AllItemsInWindow(data.events, ctx, DedupSorted(all)[i]);
  }

  /** Whatever key the dedup uses, what it keeps was among the items. */
  lemma DedupMember(items: seq<EventItem>, key: EventItem -> string, i: nat)
    requires i < |SortBy(Values(SetAll([], items, KeepAll, key, Itself)), ByDate)|
    ensures SortBy(Values(SetAll([], items, KeepAll, key, Itself)), ByDate)[i] in items
  {
    var r := SortBy(Values(SetAll([], items, KeepAll, key, Itself)), ByDate);
    DedupLast(items, key, i);
    LastWithMeaning(items, KeepAll, key, Itself, key(r[i]));
  }

  /** An item of the `flatMap` was generated by one of the events, and lies in the window. */
  lemma AllItemsInWindow(events: seq<Event>, ctx: Context, y: EventItem)
    requires y in AllItems(events, ctx)
    ensures InWindow(y, ctx) && exists k :: 0 <= k < |events| && y in EventItems(events[k], ctx)
  {
    ConcatMapIn(events, EventsOf(ctx), y);
    var k :| 0 <= k < |events| && y in EventsOf(ctx)(events[k]);
    var items := EventItems(events[k], ctx);
    var p :| 0 <= p < |items| && items[p] == y;
    EventItemsInWindow(events[k], ctx, p);
  }

  // ---- The runtime template ----

  /** An item as the engine receives it: a `Date`, no end date, the engine's defaults for the rest. */
  function ToCalcItem(item: EventItem): CalcItem {
    CalcItem(DateObject(Some(item.date)), NoDate, item.title, item.description, item.category,
      "", item.status, item.calendarId, "", false, Some(item.tags), None, None, Num(item.priority), item.reminderMinutes)
  }

  function AsCalcItems(items: seq<EventItem>): (r: seq<Option<CalcItem>>)
    ensures |r| == |items| && forall i :: 0 <= i < |r| ==> r[i] == Some(ToCalcItem(items[i]))
  {
    if items == [] then [] else [Some(ToCalcItem(items[0]))] + AsCalcItems(items[1..])
  }

  /**
   * `mapTemplateToRuntime(templateData)`: the id, the normalized fields, and the calculation.
   * The calculation reads `new Date()` each time it runs; here `now` is the one instant every
   * call of this template sees.
   */
  function RuntimeTemplate(data: TemplateData, now: Instant): (t: Template)
    ensures t.id == data.id && |t.fields| == |data.fields|
    ensures forall i :: 0 <= i < |t.fields| ==> t.fields[i] == NormalizeField(data.fields[i])
  {
    Template(
      data.id,
      seq(|data.fields|, i requires 0 <= i < |data.fields| => NormalizeField(data.fields[i])),
      (input: map<string, InputValue>) => Returned(AsCalcItems(TemplateCalculation(data, input, now))))
  }

  /** Every item a runtime template returns has a date, so the engine keeps them all, in order. */
  lemma {:induction false} RuntimeItemsKept(items: seq<EventItem>)
    ensures DatedItems(AsCalcItems(items)) == seq(|items|, i requires 0 <= i < |items| => ToCalcItem(items[i]))
  {
    if items != [] {
      var xs, c := AsCalcItems(items), ToCalcItem(items[0]);
      RuntimeItemsKept(items[1..]);
      assert xs[0] == Some(c) && xs[1..] == AsCalcItems(items[1..]);
      assert HasDate(c);
      assert DatedItems(xs) == [c] + DatedItems(xs[1..]);
      var rest := seq(|items| - 1, i requires 0 <= i < |items| - 1 => ToCalcItem(items[1..][i]));
      assert seq(|items|, i requires 0 <= i < |items| => ToCalcItem(items[i])) == [c] + rest;
    }
  }
}
