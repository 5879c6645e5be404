# A verified model of the appointment scheduler's core

This project models the calendar arithmetic, the import/export layer and the small stateful
registries of a browser appointment scheduler. It covers:

- **The scheduler engine** (`src/core/schedulerEngine.js`). It normalizes a raw appointment,
  expands recurring appointments into the occurrences inside a window, sorts appointments,
  and chooses the window a calendar view shows.
- **The wall-clock date helpers** (`src/core/dateUtils.js`). They read user input, write the
  `datetime-local` form text, and give the first and last instants of a day, a Monday-based
  week, a month and a year.
- **The interchange codecs** (`src/modules/sync/calendarSyncFormats.js`). These are ICS text
  escaping, CSV quoting and the character-by-character CSV line reader, `|`-joined lists, the
  `YYYYMMDDTHHMMSSZ` date form and RRULE `FREQ`, following RFC 5545 in part. On top of them sit
  the CSV and ICS writers, the line-by-line ICS and CSV readers, the description block and the
  import format sniffing. The ICS reader is modelled under a `Reading`: `AsWritten` is the
  code as it stands, which `parseStateFromICS` and `parseDescription` compute, and `Intended`
  corrects the four defects listed under Findings and carries the round-trip lemmas.
- **The export decision** of the calendar sync connector
  (`src/connectors/calendarSyncConnector.js`). It chooses the format, file name and MIME type,
  and builds the reported result.
- **The calculator engine and its templates** (`src/core/calendarCalculatorEngine.js`,
  `src/modules/calculator/calculatorTemplates.js`). These cover field normalization and
  validation, `{key}` filling, conditions, derived dates, and the three schedule generators
  (single, series, range of weeks). On top of them sit the window filter and the de-duplicated,
  date-sorted result.
- **The calculator plugin's import** (`src/plugins/calendarCalculatorPlugin.js`). It performs
  keyed merges of calendars and appointments where later entries win, the import into the
  app's state, and taking a queued import.
- **The event bus, the connector registry and the in-memory cache** (`src/core/eventBus.js`,
  `src/connectors/connectorRegistry.js`, `src/core/cacheMemory.js`). These are classes whose
  methods update their fields in place.

Instants are civil date-time records (year, month, day, hour, minute, second, millisecond)
with JavaScript's `Date` semantics, including its day and month overflow. There is one local
zone, which has no offset from UTC and no daylight saving time. The current instant, generated
UUIDs and the host zone's name are parameters. Loops in the source are methods with loop
invariants, proved equal to specification functions. The properties are proved about those
functions.

The modules follow the source files:

- `CivilTime`, `DateStrings`, `JsText`, `Wrappers`, `OrderedMaps` and `Ordering` are the
  JavaScript built-ins the core relies on (`Date`, `toISOString`, `new Date(text)`, `Number`,
  `trim`, `split`, `Map` and `Array.prototype.sort`).
- `SchedulerEngine`, `Appointments` and `DateUtils` model the engine and the date helpers.
- `JsText`, `IcsText`, `CsvText`, `CsvState`, `CsvRoundTrip`, `IcsFields`, `IcsDescription`,
  `IcsExport`, `IcsImport`, `IcsRoundTrip`, `IcsStateRoundTrip` and `SyncFormats` model the codecs.
- `SyncConnector` models the connector.
- `CalculatorEngine`, `CalculatorTemplates` and `TemplateSchedules` model the calculator.
- `CalculatorPlugin` models the plugin.
- `Events`, `Connectors` and `Cache` model the three small classes.

## Model

| member | source | states |
|---|---|---|
| SchedulerEngine.NormalizeAppointment | src/core/schedulerEngine.js:14-29 | fails with "Invalid appointment date" exactly when `parseInputDate` gives nothing; otherwise the record built from the parsed instant |
| SchedulerEngine.Normalized | src/core/schedulerEngine.js:18-29 | the ISO date; the id or the generated uuid; the recurrence given when truthy, else `'none'`; the title and description trimmed, empty when missing; the category trimmed, `'general'` when missing or empty; the lists split by comma; the priority `Number(priority)` unless that is 0 or NaN, else 1; createdAt given or now; no occurrence fields |
| SchedulerEngine.SplitByCommaClean | src/core/schedulerEngine.js:32-38 | every item of a split text is non-empty, has no outer white space and no comma |
| SchedulerEngine.SplitByCommaJoin | src/core/schedulerEngine.js:32-38 | splitting the comma-join of clean comma-free items gives them back |
| SchedulerEngine.NormalizedDateRoundTrip | src/core/schedulerEngine.js:15-20 | the stored ISO date reads back as the instant the raw date denoted |
| SchedulerEngine.ShiftAdvances | src/core/schedulerEngine.js:40-55 | daily, weekly, monthly and yearly steps move forward by at least a day; daily by exactly one day and weekly by exactly seven |
| SchedulerEngine.MonthlyAdvances | src/core/schedulerEngine.js:50-52 | a monthly step moves forward by the length of the month, same time of day |
| SchedulerEngine.YearlyAdvances | src/core/schedulerEngine.js:53-55 | a yearly step moves to a later day, same time of day |
| SchedulerEngine.FallbackStep | src/core/schedulerEngine.js:56-58 | any other recurrence jumps to the year 3000: forward from earlier years, nowhere from 3000, backward from later years |
| SchedulerEngine.StepOf | src/core/schedulerEngine.js:79 | the loop's step is `shiftByRecurrence` with the item's recurrence |
| SchedulerEngine.AsOccurrence | src/core/schedulerEngine.js:71-75 | the record is the item with `occurrenceDate` its ISO text and `sourceId` its id, nothing else changed |
| SchedulerEngine.Records | src/core/schedulerEngine.js:70-76 | one record per visited occurrence |
| SchedulerEngine.ExpandRecurringAppointments | src/core/schedulerEngine.js:63-84 | the loop over the appointments returns exactly `Expansion`: each item's records in input order |
| SchedulerEngine.ExpandItem | src/core/schedulerEngine.js:67-80 | the inner `while` loop records exactly the in-window occurrences of the walk from the item's date |
| SchedulerEngine.OccurrencesCons | src/core/schedulerEngine.js:69-80 | one iteration: the current occurrence if it is at or after the start, then the rest of the walk |
| SchedulerEngine.OccurrenceBounds | src/core/schedulerEngine.js:69-70 | every recorded occurrence lies in `[rangeStart, rangeEnd]` and not before the item's date |
| SchedulerEngine.OccurrencesAscending | src/core/schedulerEngine.js:69-80 | an item's occurrences are strictly ascending |
| SchedulerEngine.OccurrencesConsecutive | src/core/schedulerEngine.js:69-80 | once inside the window each occurrence is one step after the one before |
| SchedulerEngine.OccurrencesStart | src/core/schedulerEngine.js:69-78 | a start inside the window is recorded first; a start after the window gives nothing; a non-recurring item gives its date alone when in the window, else nothing |
| SchedulerEngine.OccurrencesLast | src/core/schedulerEngine.js:69-80 | the walk ends only when the item does not recur, its step stalls, or the next step is past the window |
| SchedulerEngine.AsWrittenAgrees | src/core/schedulerEngine.js:69-80 | when every step moves forward, the unguarded loop ends within the window's length and records the same occurrences |
| SchedulerEngine.FixedPointLoops | src/core/schedulerEngine.js:69-80 | a recurring walk at a fixed point of its step inside the window never leaves the loop |
| SchedulerEngine.KnownRecurrenceAgrees | src/core/schedulerEngine.js:40-80 | for daily, weekly, monthly and yearly the loop as written and the guarded loop agree |
| SchedulerEngine.AsWrittenNeverEnds | src/core/schedulerEngine.js:56-80 | an unknown recurrence whose year-3000 image lies in the window makes the loop as written run forever |
| SchedulerEngine.FallbackOccurrencesBounded | src/core/schedulerEngine.js:56-80 | with the guard, an unknown recurrence gives at most two occurrences |
| SchedulerEngine.ItemRecordReadsBack | src/core/schedulerEngine.js:70-76 | each record is the item stamped with `sourceId` its id and an `occurrenceDate` that reads back as an instant inside the window |
| SchedulerEngine.ExpansionConcat | src/core/schedulerEngine.js:66-81 | expanding a concatenation is concatenating the expansions, so output follows input order |
| SchedulerEngine.ExpansionOrigin | src/core/schedulerEngine.js:66-83 | every record of the expansion is an input item stamped with one of its occurrences inside the window |
| SchedulerEngine.RecordOrigin | src/core/schedulerEngine.js:70-76 | the i-th record of an item is the item stamped with its i-th occurrence, which lies in the window |
| SchedulerEngine.DateDifference | src/core/schedulerEngine.js:90 | the key difference is at most 0 exactly when the first date is not later; an unparseable date compares equal |
| SchedulerEngine.Comparator | src/core/schedulerEngine.js:89-96 | the comparator is `Compare` in the given mode |
| SchedulerEngine.SortAppointments | src/core/schedulerEngine.js:86-97 | the result is a permutation of the input |
| SchedulerEngine.ComparatorMeaning | src/core/schedulerEngine.js:89-96 | "keep a first" exactly when a is earlier (datetime), or of higher priority, or of equal priority and not later |
| SchedulerEngine.ComparatorConsistent | src/core/schedulerEngine.js:89-96 | on parseable dates the comparator is total and transitive |
| SchedulerEngine.SortedByKey | src/core/schedulerEngine.js:86-97 | the sorted list is in `InOrder` order for any key with parseable dates |
| SchedulerEngine.SortAppointmentsOrdered | src/core/schedulerEngine.js:86-97 | datetime mode sorts ascending by `occurrenceDate \|\| date`; other modes descending by priority, ties by earlier date |
| SchedulerEngine.RangeByViewHolds | src/core/schedulerEngine.js:99-111 | every view's window holds the date, runs from midnight to 23:59:59.999, and is that day, a Monday-to-Sunday week, the month or the year |
| DateUtils.DaysSinceMonday | src/core/dateUtils.js:41-42 | the days back to Monday are 0 to 6 |
| DateUtils.FromFieldsInRange | src/core/dateUtils.js:32 | in-range fields given to the `Date` constructor give back that date |
| DateUtils.StartOfDayTwoDigitYear | src/core/dateUtils.js:32 | the constructor reads years 0 to 99 as 1900 to 1999 |
| DateUtils.DayBounds | src/core/dateUtils.js:31-37 | `startOfDay` is that day at 00:00:00.000, `endOfDay` that day at 23:59:59.999, and the date lies between |
| DateUtils.StartOfDayParts | src/core/dateUtils.js:31-33 | `startOfDay` is midnight of the same day |
| DateUtils.EndOfDayParts | src/core/dateUtils.js:35-37 | `endOfDay` is the last millisecond of the same day |
| DateUtils.StartOfWeekBounds | src/core/dateUtils.js:39-45 | `startOfWeek` is the Monday 0 to 6 days on or before the date, at midnight |
| DateUtils.EndOfWeekBounds | src/core/dateUtils.js:47-51 | `endOfWeek` is 23:59:59.999 on the Sunday six days after that Monday, not before the date |
| DateUtils.MondayOf | src/core/dateUtils.js:41-43 | going back `(day + 6) % 7` days reaches a Monday |
| DateUtils.SundayOf | src/core/dateUtils.js:49 | six days after a Monday is a Sunday |
| DateUtils.MonthBounds | src/core/dateUtils.js:53-59 | `startOfMonth` is day 1 at midnight, `endOfMonth` the month's last day at 23:59:59.999, and the date lies between |
| DateUtils.EndOfMonthDay | src/core/dateUtils.js:57-59 | day 0 of the next month is this month's last day |
| DateUtils.YearBounds | src/core/dateUtils.js:61-67 | `startOfYear` is 1 January 00:00, `endOfYear` 31 December 23:59:59.999, and the date lies between |
| DateUtils.ParseSlashDate | src/core/dateUtils.js:4-8 | `D/M/Y` with nonzero parts is local midnight of that day, with overflow |
| DateUtils.SlashBranch | src/core/dateUtils.js:4-8 | text with a slash is read as `D/M/Y` |
| DateUtils.ParseSlashDateInRange | src/core/dateUtils.js:4-8 | a valid day written as `D/M/Y` reads back as that day at midnight |
| DateUtils.ParseSlashZeroPart | src/core/dateUtils.js:5-6 | a missing, zero or non-numeric part makes slash input invalid |
| DateUtils.ParseZeroDay | src/core/dateUtils.js:5-6 | a day of zeros, as in `00/00/0000`, makes slash input invalid |
| DateUtils.TextBranch | src/core/dateUtils.js:10-11 | text without a slash is read as a date-time string |
| DateUtils.ParseLocalDateTimeInput | src/core/dateUtils.js:14-22 | the `YYYY-MM-DDTHH:mm` text reads back as the same local minute, for four-digit years |
| DateUtils.LocalInputNoSlash | src/core/dateUtils.js:14-22 | the form text is never empty and has no slash |
| CivilTime.SetDate | src/core/dateUtils.js:43 | `setDate(d)` is day d of the month, counted with overflow, at the same time of day |
| CivilTime.SetMonth | src/core/schedulerEngine.js:51 | `setMonth(m0)` is the same day of month m0 counted with overflow, at the same time of day |
| CivilTime.SetFullYear | src/core/schedulerEngine.js:54 | `setFullYear(y)` is the same month and day in year y, at the same time of day |
| CivilTime.AddDays | src/core/schedulerEngine.js:45 | `setDate(getDate() + k)` is exactly k days later |
| CivilTime.FromFields | src/core/dateUtils.js:7 | `new Date(y, m0, d, …)` is the day those fields denote with overflow, years 0 to 99 read as 19xx |
| CivilTime.TimeValueInjective | src/core/schedulerEngine.js:69-70 | the time value identifies the date, so comparing dates compares instants |
| DateStrings.ParseToIsoString | src/core/schedulerEngine.js:20 | `new Date(d.toISOString())` is d again, for every year `toISOString` can print |
| Appointments.OrText | src/core/schedulerEngine.js:22-25 | `x \|\| d` for a text: the text unless it is empty, else the default |
| Appointments.OrOptText | src/core/schedulerEngine.js:28 | `x \|\| d` for an optional text: a missing or empty text gives the default |
| Appointments.NumberOfRaw | src/core/schedulerEngine.js:27 | `Number` of a missing value is falsy, so the default applies |
| Appointments.PriorityOr1 | src/core/schedulerEngine.js:27 | `Number(priority) \|\| 1` is the number when it is neither 0 nor NaN, else 1, so never 0 |
| Appointments.Basic | src/core/schedulerEngine.js:18-29 | the record `normalizeAppointment` returns has exactly its ten fields set and every other field missing |
| JsText.Trim | src/core/schedulerEngine.js:22-23 | `trim()` leaves no white space at either end |
| JsText.TrimIdempotent | src/core/schedulerEngine.js:22-25 | trimming twice is trimming once |
| JsText.TrimPartsClean | src/core/schedulerEngine.js:36-37 | after `map(trim).filter(Boolean)` no part is empty or has outer white space |
| JsText.TrimPartsUnchanged | src/core/schedulerEngine.js:36-37 | parts that are already clean are kept as they are |
| JsText.Split | src/core/schedulerEngine.js:35 | `split(c)` gives at least one part and no part holds the separator |
| JsText.SplitJoin | src/modules/sync/calendarSyncFormats.js:56-68 | splitting a join on a separator no part holds gives the parts back |
| JsText.SplitJoinTrimmed | src/modules/sync/calendarSyncFormats.js:56-68 | splitting a joined list gives its trimmed non-empty items back when none holds the separator |
| JsText.NumberOfIntToString | src/modules/sync/calendarSyncFormats.js:85-90 | `Number(String(i))` is i |
| JsText.NumberOfNumText | src/modules/sync/calendarSyncFormats.js:220 | printing a number and reading it back with `Number` gives the same number |
| JsText.PadNatValue | src/modules/sync/calendarSyncFormats.js:72-79 | a zero-padded number reads back as the number and has exactly the padded width when it fits |
| IcsText.EscapeIcsCharwise | src/modules/sync/calendarSyncFormats.js:1-7 | the four replacement passes of `escapeICS` escape each character on its own |
| IcsText.EscapeIcsPlain | src/modules/sync/calendarSyncFormats.js:1-7 | a text without backslash, line break, comma or semicolon is written unchanged |
| IcsText.UnescapeEscapeNoBackslash | src/modules/sync/calendarSyncFormats.js:1-15 | `unescapeICS(escapeICS(s)) == s` as written, for every text without a backslash |
| IcsText.AsWrittenLosesBackslashN | src/modules/sync/calendarSyncFormats.js:9-15 | as written, the text `\n` (backslash, n) comes back as a backslash and a line break |
| IcsText.UnescapeEscape | src/modules/sync/calendarSyncFormats.js:1-15 | the corrected one-pass unescaping undoes `escapeICS` for every text |
| IcsText.EscapeIcsNoLineBreak | src/modules/sync/calendarSyncFormats.js:1-7 | escaped text holds no line break |
| CsvText.ParseCsvLine | src/modules/sync/calendarSyncFormats.js:23-54 | the character loop computes `ParseCsv` and returns at least one value |
| CsvText.ReadChar | src/modules/sync/calendarSyncFormats.js:49 | an ordinary character is added to the field |
| CsvText.ReadDoubledQuote | src/modules/sync/calendarSyncFormats.js:32-36 | a doubled quote inside quotes is one quote of the field |
| CsvText.ReadSingleQuote | src/modules/sync/calendarSyncFormats.js:38-41 | any other quote switches quoting |
| CsvText.ReadField | src/modules/sync/calendarSyncFormats.js:17-54 | an escaped field followed by the end of the line or a comma reads back as the field |
| CsvText.ParseCsvRow | src/modules/sync/calendarSyncFormats.js:17-54 | `parseCsvLine` of the comma-join of `csvEscape`d fields gives exactly those fields, whatever they hold |
| CsvText.CsvEscapeKeepsOut | src/modules/sync/calendarSyncFormats.js:17-21 | escaping adds no character but quotes |
| CsvText.CsvRowKeepsOut | src/modules/sync/calendarSyncFormats.js:17-21 | a character other than a quote or comma that no field holds is not in the row, so a row without line breaks is one line |
| CsvText.PipeListRoundTrip | src/modules/sync/calendarSyncFormats.js:56-68 | `splitPipeList(joinPipeList(xs))` is xs trimmed with empties removed, when no item holds a bar |
| CsvText.SplitPipeListClean | src/modules/sync/calendarSyncFormats.js:56-62 | every item `splitPipeList` returns is non-empty, trimmed and bar-free |
| CsvState.RowAppointments | src/modules/sync/calendarSyncFormats.js:390-416 | one appointment per line after the header: line i is read from its parsed values with identifier `ids(i)` |
| CsvState.ParseStateFromCsv | src/modules/sync/calendarSyncFormats.js:374-424 | month view, priority sort, focus now; no lines give no appointments; otherwise one appointment per line after the header |
| CsvState.FieldPresent | src/modules/sync/calendarSyncFormats.js:392 | a key has a value exactly when some header has that name |
| CsvState.FieldAt | src/modules/sync/calendarSyncFormats.js:392 | the value under a header no later header repeats is the value in its position, or `''` past the end of the line |
| CsvState.LaterHeaderWins | src/modules/sync/calendarSyncFormats.js:392 | with a repeated header the later column wins |
| CsvState.ShortLineReadsEmpty | src/modules/sync/calendarSyncFormats.js:392 | a line shorter than the header reads `''` under the last header |
| CsvState.RowDefaults | src/modules/sync/calendarSyncFormats.js:394-415 | title, recurrence, category, timezone and calendar id are never empty and priority never 0; id, date and createdAt are filled in |
| CsvState.RowLists | src/modules/sync/calendarSyncFormats.js:409-412 | contact, attendees and tags hold non-empty, trimmed, bar-free items |
| CsvState.MissingColumns | src/modules/sync/calendarSyncFormats.js:392-415 | absent columns give a generated id, the current date and creation time, priority 1, empty lists, `false`, and NaN for the numeric columns |
| CsvRoundTrip.ColumnNameInjective | src/modules/sync/calendarSyncFormats.js:189-210 | no two columns share a header name |
| CsvRoundTrip.HeaderReadsBack | src/modules/sync/calendarSyncFormats.js:189-210 | the header line is the names joined with commas, needs no quotes, stays one line and reads back as the names |
| CsvRoundTrip.RowLineSafe | src/modules/sync/calendarSyncFormats.js:212-237 | the line written for an appointment without line breaks in its texts is one line |
| CsvRoundTrip.RowNotBlank | src/modules/sync/calendarSyncFormats.js:375-378 | a written line holds a comma, so the importer does not drop it as blank |
| CsvRoundTrip.ReadWritten | src/modules/sync/calendarSyncFormats.js:212-237 | each value written for an appointment reads back under its column's name |
| CsvRoundTrip.CsvLinesOfState | src/modules/sync/calendarSyncFormats.js:188-240 | the lines read from an exported state are the header line and one line per appointment; the final line break only adds a blank line |
| CsvRoundTrip.CsvStateRoundTrip | src/modules/sync/calendarSyncFormats.js:188-240 | importing an export gives one appointment per exported one, in order, each read back from its own line with its own fresh identifier |
| CsvRoundTrip.ImportedIdentity | src/modules/sync/calendarSyncFormats.js:212-216 | id, date, end date, title and createdAt come back, with the importer's defaults for the empty ones |
| CsvRoundTrip.ImportedTexts | src/modules/sync/calendarSyncFormats.js:212-237 | description, location and url come back unchanged; recurrence and status with their defaults, status lower-cased |
| CsvRoundTrip.ImportedSettings | src/modules/sync/calendarSyncFormats.js:212-237 | timezone, calendar id, category and the all-day flag come back, with the defaults for empty ones |
| CsvRoundTrip.ImportedNumbers | src/modules/sync/calendarSyncFormats.js:219-233 | reminder and recurrence count come back exactly, priority 0 comes back as 1 |
| CsvRoundTrip.NumberBack | src/modules/sync/calendarSyncFormats.js:219-220 | a number that may be missing, written and read back, is itself |
| CsvRoundTrip.ImportedLists | src/modules/sync/calendarSyncFormats.js:64-68 | contact, attendees and tags come back trimmed and without empty items, when no item holds a bar or a line break |
| IcsFields.UntilSemicolon | src/modules/sync/calendarSyncFormats.js:115 | the longest prefix without a semicolon, ending at the first semicolon |
| IcsFields.IcsStampReadsBack | src/modules/sync/calendarSyncFormats.js:70-96 | for a four-digit year the stamp has the form `\d{8}T\d{6}Z` and reads back as the same UTC instant cut to the whole second |
| IcsFields.StampFields | src/modules/sync/calendarSyncFormats.js:70-91 | each digit group of the stamp reads back as the instant's field |
| IcsFields.ToIcsDateTimeOfIso | src/modules/sync/calendarSyncFormats.js:70-80 | printing the ISO text of an instant gives its UTC stamp |
| IcsFields.IcsDateTimeRoundTrip | src/modules/sync/calendarSyncFormats.js:70-96 | `fromICSDateTime(toICSDateTime(iso))` is the ISO text of the same instant without its milliseconds |
| IcsFields.WholeSecond | src/modules/sync/calendarSyncFormats.js:85-91 | the instant cut to the second is earlier by its milliseconds, which are below 1000 |
| IcsFields.RecurrenceToRRule | src/modules/sync/calendarSyncFormats.js:98-111 | a rule exactly for daily, weekly, monthly and yearly, in any letter case |
| IcsFields.FreqValue | src/modules/sync/calendarSyncFormats.js:115-116 | a match captures a non-empty value without semicolons |
| IcsFields.RRuleToRecurrence | src/modules/sync/calendarSyncFormats.js:113-131 | the result is `none` or one of the four known names |
| IcsFields.RRuleRoundTrip | src/modules/sync/calendarSyncFormats.js:98-131 | an exported recurrence reads back as the lower-cased known name, and anything else as `none` |
| IcsFields.FreqOfRule | src/modules/sync/calendarSyncFormats.js:98-117 | the rule `FREQ=X` captures X, which is its own upper case |
| IcsFields.RRuleCaseInsensitive | src/modules/sync/calendarSyncFormats.js:113-131 | rules that differ only in letter case name the same recurrence |
| IcsDescription.KeyOf | src/modules/sync/calendarSyncFormats.js:151-174 | the text up to and including the first colon, a prefix of the line |
| IcsDescription.StartsWithKey | src/modules/sync/calendarSyncFormats.js:151-174 | a line starts with a key exactly when its text up to the first colon is that key |
| IcsDescription.KeyNamedOf | src/modules/sync/calendarSyncFormats.js:151-174 | each key's text names that key alone and has its only colon at its end |
| IcsDescription.LineKeyStarts | src/modules/sync/calendarSyncFormats.js:151-174 | a line is read as key k exactly when it starts with k's text, so the order of the tests does not matter |
| IcsDescription.After | src/modules/sync/calendarSyncFormats.js:152-174 | `line.replace(key, '')` of a line that starts with the key is the rest after the key |
| IcsDescription.ParseDescription | src/modules/sync/calendarSyncFormats.js:133-182 | the loop over the decoded lines computes `DescriptionOf` as written: the four-pass unescaping, `Number` of an empty reminder value, and the whole decoded text for an empty description |
| IcsDescription.ReadingsAgreeButReminder | src/modules/sync/calendarSyncFormats.js:151-175 | on the same lines, the as-written and the corrected readings set every field alike except the reminder |
| IcsDescription.LineOfKey | src/modules/sync/calendarSyncFormats.js:152-174 | a line made of a key and a value sets exactly that key's field from the value |
| IcsDescription.ReminderReadsBack | src/modules/sync/calendarSyncFormats.js:168-173 | a written reminder reads back as itself when it is a number of at least 0 |
| IcsDescription.ReminderAsWrittenReadsNoneAsZero | src/modules/sync/calendarSyncFormats.js:168-173 | as written, no reminder is exported as an empty value and read back as a reminder at 0 minutes |
| IcsDescription.AllDayReadsBack | src/modules/sync/calendarSyncFormats.js:166 | the all-day flag reads back as written |
| IcsDescription.ReadPairs | src/modules/sync/calendarSyncFormats.js:151-175 | the written lines, read in order, set each pair's field in order |
| IcsDescription.SetInExportOrder | src/modules/sync/calendarSyncFormats.js:151-175 | the twelve pairs in the exporter's order set every field from its own pair |
| IcsDescription.StatusReadsBack | src/modules/sync/calendarSyncFormats.js:157 | the status reads back lower-cased, `confirmed` standing in for an empty one |
| IcsDescription.PairsReadBack | src/modules/sync/calendarSyncFormats.js:248-261 | what the exporter's pairs set is what the appointment holds, trimmed |
| IcsDescription.LinesReadBack | src/modules/sync/calendarSyncFormats.js:248-261 | the exporter's lines, read in order, give every field the appointment holds, trimmed, with the defaults for empty ones |
| IcsDescription.BlockHasDetailLine | src/modules/sync/calendarSyncFormats.js:249 | the block always has its `DETAIL:` line |
| IcsDescription.BlockSplitsIntoLines | src/modules/sync/calendarSyncFormats.js:134-135 | unescaping the escaped block and splitting at line breaks gives the exporter's lines back |
| IcsDescription.DescriptionRoundTrip | src/modules/sync/calendarSyncFormats.js:133-182 | an exported description read back gives every field the appointment holds, trimmed, with the importer's defaults |
| IcsDescription.AsWrittenLosesEmptyDescription | src/modules/sync/calendarSyncFormats.js:177-179 | as written (four-pass unescaping, `Number` of the reminder), an appointment without a description reads back with the whole block as its description, not the empty text its `DETAIL:` line holds; shown for blocks without a backslash |
| IcsExport.NameTextPlain | src/modules/sync/calendarSyncFormats.js:263-279 | property names are capital letters and dashes, with no colon |
| IcsExport.ClampPriority | src/modules/sync/calendarSyncFormats.js:277 | the priority is clamped to 1..10 and kept when already inside |
| IcsExport.RankedValues | src/modules/sync/calendarSyncFormats.js:263-281 | when each entry has its own name, the properties named n are exactly those of n's entry |
| IcsExport.EventValuesNamed | src/modules/sync/calendarSyncFormats.js:263-281 | under each name an event holds exactly the value or values of that name's entry |
| IcsExport.EventHolds | src/modules/sync/calendarSyncFormats.js:263-281 | the values an event holds under each name the importer reads |
| IcsExport.EventProperties | src/modules/sync/calendarSyncFormats.js:263-281 | exactly one `PRIORITY` (clamped), `STATUS` (upper-cased) and `DTSTART`; one `ATTENDEE` per attendee in order; `DTEND`, `LOCATION`, `URL` and `RRULE` exactly when present |
| IcsExport.EventFrame | src/modules/sync/calendarSyncFormats.js:264 | an event opens with `BEGIN:VEVENT` and closes with `END:VEVENT` |
| IcsExport.EventTextsAt | src/modules/sync/calendarSyncFormats.js:244 | the k-th event is the event of the k-th appointment |
| IcsExport.CalendarShape | src/modules/sync/calendarSyncFormats.js:285-293 | four header lines, one event per appointment in order, `END:VCALENDAR`, and a final CRLF |
| IcsImport.Unfold | src/modules/sync/calendarSyncFormats.js:310 | unfolding never lengthens the text |
| IcsImport.UnfoldFold | src/modules/sync/calendarSyncFormats.js:310 | a CRLF followed by a space or tab disappears wherever it falls, so a folded line reads back joined |
| IcsImport.NoReturnsUnchanged | src/modules/sync/calendarSyncFormats.js:310 | a text without carriage returns passes both replacements unchanged |
| IcsImport.ContentLinesClean | src/modules/sync/calendarSyncFormats.js:310-311 | every line read is non-empty, trimmed and holds no line break or carriage return |
| IcsImport.ColonIndex | src/modules/sync/calendarSyncFormats.js:354-357 | the first colon's position, or the line's length exactly when there is no colon |
| IcsImport.UnescapeAll | src/modules/sync/calendarSyncFormats.js:336-337 | each attendee unescaped, in order: as written by the four passes of `unescapeICS`, as intended by the one-pass reading |
| IcsImport.ParseStateFromIcs | src/modules/sync/calendarSyncFormats.js:309-372 | the loop over the lines computes `IcsState` as written: the identifier taken without unescaping, the four-pass unescaping and the as-written description reading, with `now` for the clock and `ids` for the fresh identifiers |
| IcsImport.ReadEvents | src/modules/sync/calendarSyncFormats.js:315-364 | for any way of making an appointment of a closed event, the loop over the lines returns exactly the appointments `ReadLines` collects, in order |
| IcsImport.FieldsAttendees | src/modules/sync/calendarSyncFormats.js:358-360 | the `ATTENDEE` lines of a body are collected in order |
| IcsImport.FieldsProp | src/modules/sync/calendarSyncFormats.js:361-363 | every other property holds the value of its last line, or what it held before |
| IcsImport.OutsideIgnored | src/modules/sync/calendarSyncFormats.js:353 | outside an event every line but `BEGIN:VEVENT` is ignored |
| IcsImport.ReadBody | src/modules/sync/calendarSyncFormats.js:353-363 | inside an event the lines of its body only add to the event |
| IcsImport.ReadEvent | src/modules/sync/calendarSyncFormats.js:316-351 | a whole event is kept as the next appointment exactly when its last `DTSTART` has a value |
| IcsImport.ReadLinesConcat | src/modules/sync/calendarSyncFormats.js:316-364 | reading two runs of lines is reading the first, then the second |
| IcsRoundTrip.NameTextInjective | src/modules/sync/calendarSyncFormats.js:263-279 | no two property names are written alike |
| IcsRoundTrip.PropLineSplit | src/modules/sync/calendarSyncFormats.js:354-357 | an exported content line splits at its first colon into its name and its value |
| IcsRoundTrip.KeyValuesOfLines | src/modules/sync/calendarSyncFormats.js:354-363 | the lines of the properties, read by name, give the values of that name in order |
| IcsRoundTrip.EventSplit | src/modules/sync/calendarSyncFormats.js:263-281 | an event is `BEGIN:VEVENT`, properties of every other name, then `END:VEVENT` |
| IcsRoundTrip.ExportedLines | src/modules/sync/calendarSyncFormats.js:263-282 | the lines of an exported event hold no frame line between the first and the last |
| IcsRoundTrip.ReadBackAttendees | src/modules/sync/calendarSyncFormats.js:276 | the attendees read back are the ones written, in order |
| IcsRoundTrip.ReadBackProp | src/modules/sync/calendarSyncFormats.js:354-363 | under every other name the property read back is the last value written |
| IcsRoundTrip.ReadExportedEvent | src/modules/sync/calendarSyncFormats.js:316-351 | an exported event read from any state closes one event, kept when its `DTSTART` is not empty |
| IcsRoundTrip.ReadBackFirst | src/modules/sync/calendarSyncFormats.js:265-271 | identifier, start, end and title read back as written |
| IcsRoundTrip.ReadBackSecond | src/modules/sync/calendarSyncFormats.js:272-275 | description, location, url and status read back as written |
| IcsRoundTrip.ReadBackThird | src/modules/sync/calendarSyncFormats.js:269-278 | zone, all-day flag, priority and rule read back as written |
| IcsRoundTrip.EscapeIcsEmpty | src/modules/sync/calendarSyncFormats.js:1-7 | escaping leaves exactly the empty text empty |
| IcsRoundTrip.UnescapeAllEscapeAll | src/modules/sync/calendarSyncFormats.js:276 | escaped attendees unescape to themselves |
| IcsRoundTrip.ImportedIdentity | src/modules/sync/calendarSyncFormats.js:245-277 | for the event an appointment wrote, read as intended: identifier and title come back, priority clamped to 1..10, recurrence as its lower-cased name when it has a rule, else `none`, createdAt now |
| IcsRoundTrip.ImportedDetails | src/modules/sync/calendarSyncFormats.js:248-261 | for the event an appointment wrote, read as intended: the description block's fields come back trimmed, with the defaults, and a reminder when it was a number of at least 0 |
| IcsRoundTrip.ImportedPlace | src/modules/sync/calendarSyncFormats.js:273-276 | for the event an appointment wrote, read as intended: location, url and attendees come back as they were |
| IcsRoundTrip.ImportedFlags | src/modules/sync/calendarSyncFormats.js:269-275 | for the event an appointment wrote, read as intended: the all-day flag and the zone come back; the status comes back lower-cased |
| IcsRoundTrip.PlainReadsBack | src/modules/sync/calendarSyncFormats.js:9-15 | unescaping leaves a text without a backslash as it is |
| IcsRoundTrip.ImportedDates | src/modules/sync/calendarSyncFormats.js:267-268 | start and end are read back through `fromICSDateTime`; an end only when one was written |
| IcsRoundTrip.ImportedStart | src/modules/sync/calendarSyncFormats.js:246 | a start written from an instant with a four-digit year reads back as that instant to the second |
| IcsRoundTrip.IdAsWrittenKeepsEscape | src/modules/sync/calendarSyncFormats.js:265 | as written, the identifier `a,b` is exported as `UID:a\,b` and comes back as `a\,b` |
| IcsStateRoundTrip.EscapeSafe | src/modules/sync/calendarSyncFormats.js:1-7 | escaping a text without a carriage return or trailing white space gives a value without line breaks and without trailing white space |
| IcsStateRoundTrip.ContentLinesOfClean | src/modules/sync/calendarSyncFormats.js:310-311 | lines that are non-empty, without line breaks and without surrounding white space, joined with CRLF and ended with one, are read back as exactly those lines |
| IcsStateRoundTrip.JoinEvents | src/modules/sync/calendarSyncFormats.js:280-293 | joining the event texts with CRLF is joining all their content lines with CRLF |
| IcsStateRoundTrip.EventLinesClean | src/modules/sync/calendarSyncFormats.js:263-282 | every content line of an event with safe values is a clean line |
| IcsStateRoundTrip.ReadExportedEvents | src/modules/sync/calendarSyncFormats.js:316-351 | reading the lines of a run of exported events adds one appointment per event, in order |
| IcsStateRoundTrip.CalendarRead | src/modules/sync/calendarSyncFormats.js:316-364 | reading the header, the events and the end gives one appointment per appointment, in order, each made of what it wrote |
| IcsStateRoundTrip.ExportedContentLines | src/modules/sync/calendarSyncFormats.js:242-311 | the content lines the importer reads from an exported calendar of safe appointments are its header lines, each event's property lines in order, and `END:VCALENDAR` |
| IcsStateRoundTrip.ExportedStateReadsBack | src/modules/sync/calendarSyncFormats.js:242-372 | under either reading, importing an export gives the month view, priority sort and focus now, and one appointment per exported one, in order, each made of the event that appointment wrote |
| IcsStateRoundTrip.ExportedStateImports | src/modules/sync/calendarSyncFormats.js:309-347 | as intended, the i-th appointment imported from the whole calendar text is `Imported` of the i-th exported one |
| IcsStateRoundTrip.ImportedFields | src/modules/sync/calendarSyncFormats.js:263-347 | an appointment read back keeps its identifier (or the uuid), title (or the default), clamped priority, location, url, attendees, all-day flag, zone (or `UTC`) and trimmed description |
| IcsStateRoundTrip.ExportedStateFields | src/modules/sync/calendarSyncFormats.js:242-372 | as intended, every appointment of an exported calendar of safe appointments comes back in its place with those fields |
| SyncFormats.PreferredFormat | src/modules/sync/calendarSyncFormats.js:426-430 | always `ics` or `json` |
| SyncFormats.PreferredFormatExamples | src/modules/sync/calendarSyncFormats.js:426-430 | the four calendar apps in any case get ICS; no app and any other app get JSON |
| SyncFormats.ParseCalendarStateFile | src/modules/sync/calendarSyncFormats.js:432-446 | an ICS file goes to the ICS reader, a CSV file to the CSV reader, anything else to the JSON reader |
| SyncFormats.ExportedIcsSniffed | src/modules/sync/calendarSyncFormats.js:437 | a file the ICS exporter wrote is read as ICS whatever its name |
| SyncFormats.CsvPrefixSniffed | src/modules/sync/calendarSyncFormats.js:437-441 | a text starting with `id,date,` is never read as JSON |
| SyncFormats.CsvStartsWithHeader | src/modules/sync/calendarSyncFormats.js:188-210 | the CSV export starts with `id,date,` |
| SyncFormats.ExportedCsvSniffed | src/modules/sync/calendarSyncFormats.js:437-442 | a file the CSV exporter wrote is never taken for JSON |
| CalculatorEngine.ParseValueDate | src/core/calendarCalculatorEngine.js:1-5 | a falsy value never parses to a date |
| CalculatorEngine.NormalizeFieldValue | src/core/calendarCalculatorEngine.js:31-47 | a number field holds a finite number exactly when the raw value is given and reads as one, and then that number, else `null`; every other field holds a text: a date the raw text or `''`, a select the raw text when truthy |
| CalculatorEngine.NormalizeIdempotent | src/core/calendarCalculatorEngine.js:31-47 | normalizing a normalized value again changes nothing |
| CalculatorEngine.Messages | src/core/calendarCalculatorEngine.js:57-76 | one message per problem, in order, the `i`-th being the caption and what the `i`-th problem says |
| CalculatorEngine.MessageShape | src/core/calendarCalculatorEngine.js:57-76 | every message starts with the caption and a space and ends with a full stop |
| CalculatorEngine.FieldErrors | src/core/calendarCalculatorEngine.js:52-79 | one error per problem the field's checks find |
| CalculatorEngine.CheckField | src/core/calendarCalculatorEngine.js:53-78 | the checks of one field in the `forEach` body compute `FieldProblems` |
| CalculatorEngine.ValidateInput | src/core/calendarCalculatorEngine.js:49-82 | the loop over the fields collects exactly `Errors`: each field's errors, in field order |
| CalculatorEngine.RequiredOnly | src/core/calendarCalculatorEngine.js:56-59 | a required field left empty gets exactly one error, and no other check runs for it |
| CalculatorEngine.NumberBounds | src/core/calendarCalculatorEngine.js:61-71 | a number below its minimum gets the "at least" error, one above its maximum the "at most" error, and nothing else |
| CalculatorEngine.DateCheck | src/core/calendarCalculatorEngine.js:73-78 | a non-empty date text gets the date error exactly when it does not parse |
| CalculatorEngine.NoNotANumber | src/core/calendarCalculatorEngine.js:31-36 | a value `normalizeFieldValue` made never gets the "valid number" error |
| CalculatorEngine.ErrorsEmpty | src/core/calendarCalculatorEngine.js:49-82 | there are no errors exactly when no field has a problem |
| CalculatorEngine.BuildInput | src/core/calendarCalculatorEngine.js:111-114 | the loop fills exactly `InputOf` |
| CalculatorEngine.InputKeys | src/core/calendarCalculatorEngine.js:111-114 | the input has a value exactly for the fields' names |
| CalculatorEngine.InputAt | src/core/calendarCalculatorEngine.js:111-114 | a field no later field shares a name with holds its own normalized raw value |
| CalculatorEngine.NoNotANumberInInput | src/core/calendarCalculatorEngine.js:111-116 | with distinct names, no field of the built input gets the "valid number" error |
| CalculatorEngine.TemplateIndex | src/core/calendarCalculatorEngine.js:86 | the `Map` keeps the last template with an id, and an id no template has is absent |
| CalculatorEngine.GetTemplate | src/core/calendarCalculatorEngine.js:88-90 | the template returned has the id asked for, and none exactly when no template has it |
| CalculatorEngine.GetFields | src/core/calendarCalculatorEngine.js:101-103 | an unknown id has no fields |
| CalculatorEngine.IsoOf | src/core/calendarCalculatorEngine.js:23-25 | no date gives none; a `Date` gives the ISO text of its instant, and none exactly when it is invalid; a text gives the ISO text of the instant it parses to, and none exactly when it does not parse |
| CalculatorEngine.IsoOfReadsBack | src/core/calendarCalculatorEngine.js:23-25 | a date holding an instant, as a `Date` or as a parseable text, is written as that instant's ISO text, which reads back as the instant |
| CalculatorEngine.OrDefault | src/core/calendarCalculatorEngine.js:138-141 | `x \|\| fallback` is x when x is not empty, else the fallback |
| CalculatorEngine.DatedItems | src/core/calendarCalculatorEngine.js:133 | each kept item has a date and comes from the items, and every dated item is kept |
| CalculatorEngine.DatedPositions | src/core/calendarCalculatorEngine.js:133 | the kept items are exactly the dated entries in input order: strictly ascending source positions, each holding its kept item, covering every dated position |
| CalculatorEngine.AllSome | src/core/calendarCalculatorEngine.js:132-147 | the mapped list when every item can be mapped, and none exactly when one cannot |
| CalculatorEngine.Calculate | src/core/calendarCalculatorEngine.js:105-157 | building the input and validating it by their loops gives exactly `Calculation` |
| CalculatorEngine.CalculationNotFound | src/core/calendarCalculatorEngine.js:106-109 | an unknown template gives the one "not found" error and no appointments |
| CalculatorEngine.CalculationInvalid | src/core/calendarCalculatorEngine.js:116-119 | an invalid input gives exactly the validation errors and no appointments |
| CalculatorEngine.CalculationFailure | src/core/calendarCalculatorEngine.js:105-157 | a failed calculation has no appointments and at least one error; a throw gives exactly one |
| CalculatorEngine.CalculationSuccess | src/core/calendarCalculatorEngine.js:132-149 | on success every item with a date becomes one appointment, in order; the others are dropped |
| CalculatorEngine.FinishDefaults | src/core/calendarCalculatorEngine.js:134-147 | the defaults for recurrence, status, calendar and zone; title and date kept; priority kept when a number, else 5; an end date exactly when the item has one |
| CalculatorEngine.FinishedDateReadsBack | src/core/calendarCalculatorEngine.js:136 | the date written for a `Date` item reads back as its instant |
| CalculatorEngine.InvalidDateFails | src/core/calendarCalculatorEngine.js:136 | an item with an invalid `Date` makes the whole calculation fail with the `RangeError`'s message |
| CalculatorTemplates.CloseAt | src/modules/calculator/calculatorTemplates.js:30 | the position of the first `}`, and none exactly when there is no `}` |
| CalculatorTemplates.FillPlain | src/modules/calculator/calculatorTemplates.js:30-33 | text without `{` passes through, and filling goes on after it |
| CalculatorTemplates.FillNoBraces | src/modules/calculator/calculatorTemplates.js:28-34 | a template without placeholders is kept as it is |
| CalculatorTemplates.FillKey | src/modules/calculator/calculatorTemplates.js:30-33 | `{key}` is replaced by the variable the trimmed key names |
| CalculatorTemplates.FillMissing | src/modules/calculator/calculatorTemplates.js:31-32 | a missing or `null` variable fills in as empty text |
| CalculatorTemplates.NormalizeField | src/modules/calculator/calculatorTemplates.js:210-222 | name, label, required flag, placeholder, default and bounds kept (an absent placeholder is `''`); the type defaults to `text`, the options to none |
| CalculatorTemplates.Lookup | src/modules/calculator/calculatorTemplates.js:46 | a value exactly for a name the input has |
| CalculatorTemplates.FindField | src/modules/calculator/calculatorTemplates.js:37 | the first field with the name, and none exactly when no field has it |
| CalculatorTemplates.FindOption | src/modules/calculator/calculatorTemplates.js:38 | the first option whose value is strictly the value, and none exactly when no option has it |
| CalculatorTemplates.OptionLabel | src/modules/calculator/calculatorTemplates.js:36-40 | the matching option's label when it has one, else the value when truthy, else `''` |
| CalculatorTemplates.MatchingOptionValue | src/modules/calculator/calculatorTemplates.js:38-39 | a matching option holds the value looked up, so `undefined` never has a label |
| CalculatorTemplates.DateCheckOf | src/modules/calculator/calculatorTemplates.js:64-68 | the two date checks exactly for their `kind` names |
| CalculatorTemplates.ConditionLists | src/modules/calculator/calculatorTemplates.js:44-54 | a condition without a field holds; an `in` list holds exactly for a listed value, `notIn` exactly for an unlisted one |
| CalculatorTemplates.ConditionEquals | src/modules/calculator/calculatorTemplates.js:56-62 | `equals` and `notEquals` compare strictly, only when no list test came first |
| CalculatorTemplates.OlderThanMeaning | src/modules/calculator/calculatorTemplates.js:68-74 | false without an anchor, true without a date, and otherwise the date is more than `\|days\|` days before the anchor |
| CalculatorTemplates.MissingDateMeaning | src/modules/calculator/calculatorTemplates.js:64-66 | `missingDate` holds exactly when the value is not a date |
| CalculatorTemplates.DerivedValue | src/modules/calculator/calculatorTemplates.js:92 | a name not derived reads `undefined` |
| CalculatorTemplates.NumOr | src/modules/calculator/calculatorTemplates.js:73 | `Number(x) \|\| d` is the number unless it is 0 or NaN |
| CalculatorTemplates.AgeOffset | src/modules/calculator/calculatorTemplates.js:98 | `Math.round(-a * 365.25)` as the integer nearest, halves rounded up |
| CalculatorTemplates.AgeOffsetBounds | src/modules/calculator/calculatorTemplates.js:95-99 | an age counts back no later than now and at most 366 days a year |
| CalculatorTemplates.Resolve | src/modules/calculator/calculatorTemplates.js:85-112 | a definition gives `null` exactly when it has no base |
| CalculatorTemplates.ResolveDerivedDates | src/modules/calculator/calculatorTemplates.js:80-116 | the loop over the definitions fills exactly `DerivedOf` |
| CalculatorTemplates.DerivedNames | src/modules/calculator/calculatorTemplates.js:84-113 | the derived dates are named exactly by the definitions |
| CalculatorTemplates.FoldLater | src/modules/calculator/calculatorTemplates.js:84-113 | later definitions do not touch another name |
| CalculatorTemplates.DerivedAt | src/modules/calculator/calculatorTemplates.js:84-113 | a definition no later one renames holds what it resolves to over the dates derived before it |
| CalculatorTemplates.BaseFromField | src/modules/calculator/calculatorTemplates.js:87-89 | a field holding a date is the base, whatever else the definition names |
| CalculatorTemplates.BaseFromAge | src/modules/calculator/calculatorTemplates.js:95-99 | with no other base an age of a years gives now less a years of 365.25 days, rounded |
| CalculatorTemplates.AnchorDate | src/modules/calculator/calculatorTemplates.js:118-124 | no anchor name gives none; the input's date when it has one, else the derived date |
| TemplateSchedules.ModeOf | src/modules/calculator/calculatorTemplates.js:134 | `single` for an absent or `single` mode, `series` and `rangeWeeks` by name, anything else none of the three |
| TemplateSchedules.EntityName | src/modules/calculator/calculatorTemplates.js:138 | `petName \|\| personName \|\| ''`: a truthy name or `''` |
| TemplateSchedules.BuildItem | src/modules/calculator/calculatorTemplates.js:148-158 | the item is at the date given, has category, calendar and status never empty, and the event's priority when finite, else 5 |
| TemplateSchedules.SingleDateDays | src/modules/calculator/calculatorTemplates.js:162-168 | offsets in days and weeks move the anchor by that many days |
| TemplateSchedules.StepOf | src/modules/calculator/calculatorTemplates.js:171-173 | days before weeks before months, a set interval never 0, no step exactly when none is set |
| TemplateSchedules.Iterate | src/modules/calculator/calculatorTemplates.js:179-187 | the values are taken while fewer than the maximum are taken and each passes the test; only the first without a step; the first is the start |
| TemplateSchedules.IterateNext | src/modules/calculator/calculatorTemplates.js:183-185 | each value after the first is the next of the one before |
| TemplateSchedules.NotPast | src/modules/calculator/calculatorTemplates.js:179 | `current <= windowEnd` on time values |
| TemplateSchedules.SeriesDates | src/modules/calculator/calculatorTemplates.js:174-187 | at most `maxOccurrences` dates, none past the window's end, at most one without an interval, starting at the anchor, and none exactly when the anchor is past the end |
| TemplateSchedules.SeriesLoop | src/modules/calculator/calculatorTemplates.js:176-187 | the `while` loop computes exactly `SeriesDates` |
| TemplateSchedules.IterateLoop | src/modules/calculator/calculatorTemplates.js:179-187 | for any window test and step, the loop takes exactly the values `Iterate` describes: at most the count, each inside the window, only the first when there is no step |
| TemplateSchedules.SeriesNext | src/modules/calculator/calculatorTemplates.js:183-185 | each date of a series is the step after the one before |
| TemplateSchedules.SeriesByDays | src/modules/calculator/calculatorTemplates.js:183 | dates of a series by days are that many days apart, ascending for a positive interval |
| TemplateSchedules.StepWeeks | src/modules/calculator/calculatorTemplates.js:193 | the step is at least one week |
| TemplateSchedules.Weeks | src/modules/calculator/calculatorTemplates.js:195 | the weeks from the start to the end inclusive, one step apart, none when the end is before the start, the next step past the end |
| TemplateSchedules.WeekLoop | src/modules/calculator/calculatorTemplates.js:195 | the `for` loop computes exactly `Weeks` |
| TemplateSchedules.SeriesItems | src/modules/calculator/calculatorTemplates.js:180 | one item per date, built from that date |
| TemplateSchedules.WeekItems | src/modules/calculator/calculatorTemplates.js:196-197 | one item per week, that many weeks after the anchor, with `{week}` filled in |
| TemplateSchedules.Filter | src/modules/calculator/calculatorTemplates.js:201-207 | the kept elements pass the test, are elements of the list, and every element that passes is kept |
| TemplateSchedules.CreateEventItems | src/modules/calculator/calculatorTemplates.js:126-208 | the method with its loops computes exactly `EventItems` |
| TemplateSchedules.EventItemsEmpty | src/modules/calculator/calculatorTemplates.js:129-136 | failing conditions or an anchor that does not resolve give no items |
| TemplateSchedules.SeriesBounded | src/modules/calculator/calculatorTemplates.js:170-188 | at most `maxOccurrences` items (200 when absent), at most one without an interval |
| TemplateSchedules.SeriesWithoutInterval | src/modules/calculator/calculatorTemplates.js:176-186 | without an interval a series is the one item at its anchor, when that is not past the window's end |
| TemplateSchedules.RangeWeeksItems | src/modules/calculator/calculatorTemplates.js:190-199 | one item per week of `Weeks`, each that many weeks after the anchor |
| TemplateSchedules.DedupLoop | src/modules/calculator/calculatorTemplates.js:249-253 | the loop fills exactly the map `Dedup` |
| TemplateSchedules.DedupMapKeyed | src/modules/calculator/calculatorTemplates.js:249-253 | the map has no key twice and each entry is stored under its item's key |
| TemplateSchedules.KeyedIndex | src/modules/calculator/calculatorTemplates.js:249-253 | two entries of such a map with the same key are the same entry |
| TemplateSchedules.SortedFromMap | src/modules/calculator/calculatorTemplates.js:255 | each sorted item is an item of the map |
| TemplateSchedules.DedupUnique | src/modules/calculator/calculatorTemplates.js:249-255 | no two results share a key |
| TemplateSchedules.DedupLast | src/modules/calculator/calculatorTemplates.js:249-255 | each result is the last item with its key |
| TemplateSchedules.DedupCovers | src/modules/calculator/calculatorTemplates.js:249-255 | every item's key is among the results |
| TemplateSchedules.DedupOrdered | src/modules/calculator/calculatorTemplates.js:255 | the results are sorted by date |
| TemplateSchedules.DedupSortedLast | src/modules/calculator/calculatorTemplates.js:249-255 | each result is the last item with its title and date |
| TemplateSchedules.DedupSortedOrdered | src/modules/calculator/calculatorTemplates.js:249-255 | the template's results are in date order |
| TemplateSchedules.AllItemsLoop | src/modules/calculator/calculatorTemplates.js:247 | the loop over the events computes exactly the `flatMap` |
| TemplateSchedules.RunTemplate | src/modules/calculator/calculatorTemplates.js:231-256 | the derived dates, the event items and the dedup map by their loops give exactly `TemplateCalculation` |
| TemplateSchedules.ConcatMapIn | src/modules/calculator/calculatorTemplates.js:247 | an item is in the `flatMap` exactly when it is in the list of some event |
| TemplateSchedules.TemplateItemsInWindow | src/modules/calculator/calculatorTemplates.js:201-255 | each result was generated by one of the template's events and lies in the window, after now under `futureOnly` |
| TemplateSchedules.AsCalcItems | src/modules/calculator/calculatorTemplates.js:231-256 | one engine item per template item |
| TemplateSchedules.RuntimeTemplate | src/modules/calculator/calculatorTemplates.js:224-260 | the id and the normalized fields of the template file |
| TemplateSchedules.RuntimeItemsKept | src/modules/calculator/calculatorTemplates.js:231-256 | every item a runtime template returns has a date, so the engine keeps them all in order |
| CalculatorPlugin.CalendarEntry | src/plugins/calendarCalculatorPlugin.js:19-23 | the stored record keeps the id, has a colour, and has a name for any calendar with an id |
| CalculatorPlugin.MergeCalendars | src/plugins/calendarCalculatorPlugin.js:15-26 | the loop fills the map `CalendarMap` and returns its values in order |
| CalculatorPlugin.CalendarMapMeaning | src/plugins/calendarCalculatorPlugin.js:15-26 | one calendar per id, ids in the order first met over the defaults, existing and incoming lists; each id holds its last incoming, else existing, else default calendar |
| CalculatorPlugin.Successes | src/plugins/calendarCalculatorPlugin.js:31-39 | no more values than entries |
| CalculatorPlugin.SuccessesMeaning | src/plugins/calendarCalculatorPlugin.js:31-39 | one value per successful step; when all succeed, each value is its step's, by position |
| CalculatorPlugin.NormalizerCount | src/plugins/calendarCalculatorPlugin.js:32-38 | the entries whose normalization succeeds are exactly those whose date parses |
| CalculatorPlugin.NormalizeAppointmentsMeaning | src/plugins/calendarCalculatorPlugin.js:28-40 | exactly the entries whose date parses are kept; when all parse, each is kept as it normalizes |
| CalculatorPlugin.MergeAppointments | src/plugins/calendarCalculatorPlugin.js:42-56 | the two loops fill `AppointmentMap` and return its values in order |
| CalculatorPlugin.AppointmentMapMeaning | src/plugins/calendarCalculatorPlugin.js:42-56 | one appointment per id in first-met order; an incoming id takes the last incoming appointment, any other keeps the last existing one |
| CalculatorPlugin.MergedIds | src/plugins/calendarCalculatorPlugin.js:42-56 | an id is in the merge exactly when it is non-empty and an existing or incoming appointment has it |
| CalculatorPlugin.App.ApplyLoadedState | src/plugins/calendarCalculatorPlugin.js:98-104 | the state is replaced by the one given |
| CalculatorPlugin.ApplyImport | src/plugins/calendarCalculatorPlugin.js:84-107 | false exactly when there is no app, no payload or no appointment that normalizes; a `TypeError` when the calendars cannot be spread; the app is unchanged unless it returns true; then the appointments are replaced or merged, the calendars merged, the modes kept and the focus moved to now |
| CalculatorPlugin.ConsumeQueuedImport | src/plugins/calendarCalculatorPlugin.js:109-117 | the queued payload is imported without replacing; a throw passes through with the queue kept; the queue is cleared exactly when the import returned true, and the app changes exactly as that import says |
| SyncConnector.NormalizeStateForExport | src/connectors/calendarSyncConnector.js:10-17 | view and sort mode never empty, no appointments without a list, a non-`Date` focus kept as it is |
| SyncConnector.NormalizeKeeps | src/connectors/calendarSyncConnector.js:10-17 | set fields are kept, unset ones take `month` and `priority` |
| SyncConnector.NormalizeIdempotent | src/connectors/calendarSyncConnector.js:10-17 | normalizing an exported state again changes nothing |
| SyncConnector.NormalizeEmpty | src/connectors/calendarSyncConnector.js:34-35 | an empty object exports no appointments in the month view sorted by priority |
| SyncConnector.ExportFormat | src/connectors/calendarSyncConnector.js:38 | a request other than `auto` is the format |
| SyncConnector.DefaultFileName | src/connectors/calendarSyncConnector.js:40-44 | there is a file name exactly for json, csv and ics |
| SyncConnector.ExportFileName | src/connectors/calendarSyncConnector.js:46 | an explicit file name wins |
| SyncConnector.MimeType | src/connectors/calendarSyncConnector.js:48-57 | the MIME type is one of the three |
| SyncConnector.ExecutePush | src/connectors/calendarSyncConnector.js:33-74 | the push always reports `ok`, and the number of appointments exported |
| SyncConnector.PushFormat | src/connectors/calendarSyncConnector.js:34-38 | the target app and requested format lower-cased with their defaults; `auto` picks the app's preferred ICS or JSON, any other request is the format |
| SyncConnector.PushContent | src/connectors/calendarSyncConnector.js:48-57 | the MIME type follows the format, and the content is the ICS, CSV or JSON writer's text accordingly |
| SyncConnector.PushFileName | src/connectors/calendarSyncConnector.js:40-46 | the payload's file name, else `appointment-state.` with the extension of the MIME type |
| SyncConnector.PushReadsBack | src/connectors/calendarSyncConnector.js:48-53 | a file pushed as ICS is read back as ICS and one pushed as CSV is never taken for JSON |
| SyncConnector.PushNonObject | src/connectors/calendarSyncConnector.js:34-73 | a payload that is not an object downloads the empty state as `appointment-state.json` |
| Events.Without | src/core/eventBus.js:14 | the listeners other than l, and only those |
| Events.WithoutConcat | src/core/eventBus.js:14 | filtering keeps the other listeners in order |
| Events.SubscribeMeaning | src/core/eventBus.js:6-8 | subscribing appends the listener to that event only |
| Events.UnsubscribeMeaning | src/core/eventBus.js:10-16 | unsubscribing removes every copy of the listener from that event, keeps the rest in order, touches no other event |
| Events.UnsubscribeIdempotent | src/core/eventBus.js:10-16 | calling the returned function twice is calling it once |
| Events.SubscribeThenUnsubscribe | src/core/eventBus.js:6-16 | subscribing a new listener and unsubscribing it restores every event's listeners |
| Events.EventBus.constructor | src/core/eventBus.js:2-4 | no listeners |
| Events.EventBus.On | src/core/eventBus.js:6-8 | the new listeners are `Subscribed` of the old |
| Events.EventBus.Unsubscribe | src/core/eventBus.js:10-16 | the new listeners are `Unsubscribed` of the old |
| Events.EventBus.Emit | src/core/eventBus.js:19-22 | the listeners called are the event's, in subscription order |
| Connectors.ConnectorRegistry.constructor | src/connectors/connectorRegistry.js:5-7 | an empty registry |
| Connectors.ConnectorRegistry.Register | src/connectors/connectorRegistry.js:9-11 | the registry stays keyed by name with no name twice, and the connector is put under its name |
| Connectors.ConnectorRegistry.Get | src/connectors/connectorRegistry.js:13-15 | nothing exactly for a name not listed; otherwise the connector with that name |
| Connectors.ConnectorRegistry.List | src/connectors/connectorRegistry.js:17-19 | one name per connector |
| Connectors.GetKeyed | src/connectors/connectorRegistry.js:13-15 | the connector found under a name has that name |
| Connectors.RegisterMeaning | src/connectors/connectorRegistry.js:9-19 | after registering, its name reads the connector and every other name what it read before; the list gains the name only when new |
| Connectors.CreateDefaultConnectorRegistry | src/connectors/connectorRegistry.js:22-27 | the task connector and the GitHub task manager connector, listed in that order |
| Cache.Read | src/core/cacheMemory.js:10-13 | a value exactly when the key holds a truthy one, and then that value |
| Cache.CacheMemory.Set | src/core/cacheMemory.js:6-8 | the key now holds the value, every other key what it held |
| Cache.CacheMemory.Get | src/core/cacheMemory.js:10-13 | a value only when the key holds it and it is truthy |
| Cache.CacheMemory.Clear | src/core/cacheMemory.js:15-17 | nothing stored |
| Cache.SetThenRead | src/core/cacheMemory.js:6-13 | a key reads back what was last set under it, `null` for a falsy value, and no other key changes |
| Cache.SetOverwrites | src/core/cacheMemory.js:6-8 | a second set of a key overwrites the first |
| Cache.ClearedReadsNull | src/core/cacheMemory.js:10-17 | after a clear every key reads `null` |
| SyncFormats.JsonFocusDate | src/modules/sync/calendarSyncFormats.js:302-304 | a missing or empty focus becomes now, any other is kept |

## Left out

- Browser and file I/O: `downloadTextFile`, `file.text()`, `localStorage` and `window` are not modelled. The download is the value `Download` a push returns, and the import queue is the field of `ImportQueue`.
- `window.open` in the sync connector, and the `push` wrapper that catches a throw from `_executePush`, are not modelled. The model's writers do not throw.
- JSON: `JSON.stringify` is a parameter of `ExecutePush`, and `JSON.parse` is not modelled. Of `parseStateFromJson` only its `focusDate` rule is stated (`JsonFocusDate`). A queued payload that does not parse is `None`.
- `getTemplates`, `readTemplateJson`, `loadCalculatorTemplates`, `queueImportPayload`, `exposeRuntimeApi` and `onAppReady` are not modelled. Each is a projection, file or network access, or a call into the browser.
- `src/core/repoUpdateMonitor.js`, the plugin manager, the base, task and GitHub connectors, and the UI modules are not part of this model. `ConnectorKind` tells the registered connectors apart by name and kind only.
- Clock, identifiers and host zone: `new Date()`, `Date.now()`, `crypto.randomUUID()` and `Intl`'s time zone are parameters (`now`, `ids`, `hostZone`). Within one call, every `new Date()` reads the same `now`, and the uuid drawn for the k-th record is `ids(k)`.
- TemplateSchedules.RuntimeTemplate: its calculation reads `new Date()` each time it runs; the model fixes one `now` when the template is built, so every calculation of that template sees the same instant.
- Time zones: the host zone has no offset and no daylight saving, so local and UTC fields agree. `TimeClip` (dates beyond 8.64e15 ms) is not modelled.
- Numbers: only integers are modelled. `Number(text)` reads optionally signed decimal integers, the empty text as 0, and everything else as NaN. Fractions, exponents, hexadecimal and `Infinity` are not modelled.
- Floating point: the age fallback `Math.round(-age * 365.25)` is exact for whole ages (`AgeOffset`). Fractional ages are read as not a number.
- Letter case: `toLowerCase` and `toUpperCase` are modelled on ASCII letters only. `trim` removes ECMAScript's WhiteSpace and LineTerminator characters (`IsSpace`), which include U+00A0, U+FEFF, U+1680, U+2000 to U+200A, U+2028, U+2029, U+202F, U+205F and U+3000.
- `new Date(text)` reads the date-time string format of ECMA-262 (section 21.4.3.15) with `Z` or a `±HH:mm` offset. Other formats that engines accept are read as invalid.
- Open records: a missing text field is the empty text. A list that is not an array is `None`, except the calendars of an import payload: `mergeCalendars` spreads them, so a missing value merges as none, and a value that cannot be spread (`null`, a number, a boolean or a plain object) makes `applyImport` throw a `TypeError` (`Unspreadable`). Inherited (prototype) keys, non-string ids and calendar ids, `null` entries in the plugin's lists, and JSON booleans or objects in conditions and options are not modelled. A missing `focusDate` is read as the empty text.
- Calculator: items returned by a template carry their dates as `Date` objects or texts. Only the `RangeError` of an invalid date in the engine's `toIso` is modelled as a throw. An absent anchor reads no date, whereas the source reads the key `"undefined"`.
- CSV round trip: it is stated for appointments whose texts have no line break or carriage return and whose list items have no bar. The importer splits lines before it looks at quotes, so other appointments do not come back.
- ICS description round trip: it is stated for appointments whose fields have no line breaks (`OneLineFields`).
- ICS whole-calendar round trip (`ExportedStateReadsBack`, `ExportedStateImports`, `ExportedStateFields`): it is stated for `IcsSafe` appointments, a product id without line breaks, and uuids without a carriage return or trailing white space. The importer drops every carriage return and trims every line, so a text with a carriage return, or one ending in white space where a line ends, does not come back.
- ImportedIdentity: stated about the event an appointment wrote, read as intended; for the whole calendar text it is the importer's result through `ExportedStateImports`, for `IcsSafe` appointments only.
- ImportedDetails: stated about the event an appointment wrote, read as intended; it reaches the whole calendar text through `ExportedStateImports`, for `IcsSafe` appointments only.
- ImportedPlace: stated about the event an appointment wrote, read as intended; it reaches the whole calendar text through `ExportedStateImports`, for `IcsSafe` appointments only.
- ImportedFlags: stated about the event an appointment wrote, read as intended; it reaches the whole calendar text through `ExportedStateImports`, for `IcsSafe` appointments only.
- AsWrittenLosesEmptyDescription: shown for description blocks without a backslash, where the as-written unescaping reads the escaped block back unchanged.
- UnescapeAll: as written it gives the four-pass result, which differs from the escaped attendee on `\\n` (see Findings); the attendee round trip is stated for the intended reading.
- `structuredClone` in the cache: values are immutable here, so a copy is the value itself. That the stored copy is isolated from the caller's later changes holds trivially and is not stated.
- Listeners run by `emit`: their effects and the payload they receive are not modelled. `Emit` returns the listeners it calls, in order.
- `expandRecurringAppointments` has no cap on iterations, no `recurrenceCount` limit and no zone-aware expansion. The model follows the code. Its only guard is that a step that does not move forward ends the walk (see Findings).
- Text positions: a Dafny `char` is a Unicode code point, while JavaScript indexes strings by UTF-16 code units. No operation modelled here depends on the difference, because every separator the code splits on and every white-space character `trim` removes lies in the Basic Multilingual Plane.
- Cache.CacheMemory.Get: states one direction only; `Cache.Read`, which `Get` returns, states both.
- TemplateSchedules.DedupUnique: stated for any key function, of which `DedupSorted`'s `KeyOf` is one instance. `TemplateSchedules.DedupCovers` is stated the same way.

## Findings

| source | as written | input that shows it | evidently intended | confidence | as-written member | corrected member |
|---|---|---|---|---|---|---|
| src/modules/sync/calendarSyncFormats.js:9-15 | `unescapeICS` replaces `\n` with a line break before it replaces `\\` with `\` | the text `\n` (backslash, n) is exported as `\\n` and read back as a backslash and a line break | unescaping undoes `escapeICS` for every text, reading each escape once from left to right | not executed | IcsText.AsWrittenLosesBackslashN | IcsText.UnescapeEscape |
| src/modules/sync/calendarSyncFormats.js:177-179 | an empty `details.description` is replaced by the whole decoded text | an appointment without a description is exported with `DETAIL:` empty and imported with the whole description block as its description | the whole text stands in only when there is no `DETAIL:` line | not executed | IcsDescription.AsWrittenLosesEmptyDescription | IcsDescription.DescriptionRoundTrip |
| src/modules/sync/calendarSyncFormats.js:168-173 | the reminder is `Number` of the trimmed value, and `Number('')` is 0 | an appointment without a reminder is exported as `REMINDERMINUTES:` and imported with a reminder at 0 minutes | an empty value reads as no reminder, which is how the exporter writes none | not executed | IcsDescription.ReminderAsWrittenReadsNoneAsZero | IcsDescription.ReminderReadsBack |
| src/modules/sync/calendarSyncFormats.js:326 | the imported id is `current.UID` without unescaping, although line 265 escapes it | an appointment with id `a,b` is exported as `UID:a\,b` and imported with id `a\,b` | the id is unescaped like every other text property | not executed | IcsRoundTrip.IdAsWrittenKeepsEscape | IcsRoundTrip.ImportedIdentity |
| src/core/schedulerEngine.js:56-80 | an unknown recurrence moves the date to the year 3000, and the `while` loop has no other exit | recurrence `fortnightly` with a window that reaches the year 3000: the date stays at its year-3000 image and the loop never ends | the walk ends once a step does not move forward | not executed | SchedulerEngine.AsWrittenNeverEnds | SchedulerEngine.FallbackOccurrencesBounded |
