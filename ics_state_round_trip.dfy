/**
 * The whole text `stateToICS` writes, read by `parseStateFromICS`: the text is cut into
 * its content lines (unfolded, carriage returns dropped, trimmed, empty lines left out),
 * and those are exactly the lines the exporter joined, so every appointment comes back
 * as the event exported for it, in order.
 */
module IcsStateRoundTrip {
  import opened Wrappers
  import opened JsText
  import opened CivilTime
  import opened DateStrings
  import opened Appointments
  import opened IcsText
  import opened IcsFields
  import opened IcsDescription
  import opened IcsExport
  import opened IcsImport
  import opened IcsRoundTrip

  const Crlf: string := "\r\n"

  // ---- Clean lines ----

  /** A line the importer keeps as it stands: not empty, no line break, no surrounding white space. */
  predicate CleanLine(l: string) {
    l != [] && '\r' !in l && '\n' !in l && !IsSpace(l[0]) && !IsSpace(l[|l| - 1])
  }

  predicate AllClean(ls: seq<string>) {
    forall i :: 0 <= i < |ls| ==> CleanLine(ls[i])
  }

  lemma {:induction false} AllCleanTail(ls: seq<string>)
    requires AllClean(ls) && ls != []
    ensures AllClean(ls[1..])
  {
    forall i | 0 <= i < |ls[1..]| ensures CleanLine(ls[1..][i]) {
      assert ls[1..][i] == ls[i + 1];
    }
  }

  /** The join of the lines and a last empty line: the first line, a line break, then the rest. */
  lemma {:induction false} JoinWithHead(ls: seq<string>, sep: string)
    requires ls != []
    ensures JoinWith(ls + [""], sep) == ls[0] + sep + JoinWith(ls[1..] + [""], sep)
  {
    assert (ls + [""])[1..] == ls[1..] + [""];
  }

  /** Text without carriage returns is not unfolded. */
  lemma {:induction false} UnfoldPlain(a: string, b: string)
    requires '\r' !in a
    ensures Unfold(a + b) == a + Unfold(b)
    decreases |a|
  {
    if a == [] {
      assert a + b == b;
    } else {
      var s := a + b;
      assert s[0] == a[0] && !FoldAt(s) && !FoldAt(a);
      assert s[1..] == a[1..] + b;
      UnfoldPlain(a[1..], b);
      NoReturnsUnchanged(a[1..]);
      NoReturnsUnchanged(a);
      UnfoldKeptHead(s, a, Unfold(b));
    }
  }

  /** A line break before a line that does not start with a space or a tab is kept. */
  lemma {:induction false} UnfoldBreak(t: string)
    requires t == [] || (t[0] != ' ' && t[0] != '\t')
    ensures Unfold(Crlf + t) == Crlf + Unfold(t)
  {
    var s, u := Crlf + t, "\n" + t;
    assert s[1..] == u && !FoldAt(s);
    UnfoldKeptFirst(s);
    assert u[1..] == t && !FoldAt(u);
    UnfoldKeptFirst(u);
    assert s[0] == '\r' && u[0] == '\n';
    var w := Unfold(t);
    assert ['\r'] + (['\n'] + w) == Crlf + w;
  }

  lemma {:induction false} UnfoldKeptFirst(s: string)
    requires s != [] && !FoldAt(s)
    ensures Unfold(s) == [s[0]] + Unfold(s[1..])
  {
  }

  /** A clean line, a line break and a text that does not start with white space unfold to themselves when the text does. */
  lemma {:induction false} UnfoldLineThen(l: string, t: string)
    requires CleanLine(l) && (t == [] || !IsSpace(t[0])) && Unfold(t) == t
    ensures Unfold(l + Crlf + t) == l + Crlf + t
  {
    UnfoldBreak(t);
    UnfoldPlain(l, Crlf + t);
    assert l + Crlf + t == l + (Crlf + t);
  }

  /** Clean lines joined with CRLF, with an empty last line, have nothing to unfold. */
  lemma {:induction false} UnfoldCleanLines(ls: seq<string>)
    requires AllClean(ls)
    ensures Unfold(JoinWith(ls + [""], Crlf)) == JoinWith(ls + [""], Crlf)
    decreases |ls|
  {
    if ls == [] {
      assert ls + [""] == [""];
    } else {
      var t := JoinWith(ls[1..] + [""], Crlf);
      JoinWithHead(ls, Crlf);
      AllCleanTail(ls);
      UnfoldCleanLines(ls[1..]);
      if ls[1..] != [] {
        JoinWithStarts(ls[1..] + [""], Crlf);
        assert t[0] == ls[1][0] && CleanLine(ls[1]);
      }
      assert CleanLine(ls[0]);
      UnfoldLineThen(ls[0], t);
    }
  }

  lemma {:induction false} DropReturnsConcat(a: string, b: string)
    ensures DropReturns(a + b) == DropReturns(a) + DropReturns(b)
    decreases |a|
  {
    if a == [] {
      assert a + b == b;
    } else {
      var h := if a[0] == '\r' then [] else [a[0]];
      assert (a + b)[0] == a[0] && (a + b)[1..] == a[1..] + b;
      assert DropReturns(a + b) == h + DropReturns(a[1..] + b);
      DropReturnsConcat(a[1..], b);
    }
  }

  /** Dropping the carriage returns of a line without any, a CRLF and a text. */
  lemma {:induction false} DropLineThen(l: string, t: string)
    requires '\r' !in l
    ensures DropReturns(l + Crlf + t) == l + "\n" + DropReturns(t)
  {
    assert l + Crlf + t == l + (Crlf + t);
    DropReturnsConcat(l, Crlf + t);
    NoReturnsUnchanged(l);
    DropReturnsConcat(Crlf, t);
    DropCrlf();
    var d := DropReturns(t);
    assert l + ("\n" + d) == l + "\n" + d;
  }

  lemma {:induction false} DropCrlf()
    ensures DropReturns(Crlf) == "\n"
  {
    var n := "\n";
    assert Crlf[0] == '\r' && Crlf[1..] == n;
    assert n[0] == '\n' && n[1..] == [];
    assert DropReturns(n) == ['\n'] + DropReturns([]);
  }

  /** Dropping the carriage returns of clean lines joined with CRLF joins them with line breaks. */
  lemma {:induction false} DropCleanLines(ls: seq<string>)
    requires AllClean(ls)
    ensures DropReturns(JoinWith(ls + [""], Crlf)) == JoinWith(ls + [""], "\n")
    decreases |ls|
  {
    if ls == [] {
      assert ls + [""] == [""];
    } else {
      JoinWithHead(ls, Crlf);
      JoinWithHead(ls, "\n");
      AllCleanTail(ls);
      DropCleanLines(ls[1..]);
      assert CleanLine(ls[0]);
      DropLineThen(ls[0], JoinWith(ls[1..] + [""], Crlf));
    }
  }

  /** Trimming clean lines and an empty last line keeps the lines and drops the empty one. */
  lemma {:induction false} TrimCleanLines(ls: seq<string>)
    requires AllClean(ls)
    ensures TrimParts(ls + [""]) == ls
    decreases |ls|
  {
    if ls == [] {
      assert ls + [""] == [""];
    } else {
      assert (ls + [""])[1..] == ls[1..] + [""];
      assert CleanLine(ls[0]);
      TrimUnchanged(ls[0]);
      AllCleanTail(ls);
      TrimCleanLines(ls[1..]);
      assert ls == [ls[0]] + ls[1..];
    }
  }

  /** The content lines of clean lines joined with CRLF and ended with one are those lines. */
  lemma {:induction false} ContentLinesOfClean(ls: seq<string>)
    requires AllClean(ls)
    ensures ContentLines(JoinWith(ls + [""], Crlf)) == ls
  {
    UnfoldCleanLines(ls);
    DropCleanLines(ls);
    assert forall i :: 0 <= i < |ls + [""]| ==> '\n' !in (ls + [""])[i];
    SplitJoinTrimmed(ls + [""], '\n');
    TrimCleanLines(ls);
  }

  lemma {:induction false} AllCleanConcat(a: seq<string>, b: seq<string>)
    requires AllClean(a) && AllClean(b)
    ensures AllClean(a + b)
  {
    forall i | 0 <= i < |a + b| ensures CleanLine((a + b)[i]) {
      if i >= |a| {
        assert (a + b)[i] == b[i - |a|];
      }
    }
  }

  // ---- The lines of the calendar ----

  lemma {:induction false} JoinConcat(x: seq<string>, y: seq<string>, sep: string)
    requires x != [] && y != []
    ensures JoinWith(x + y, sep) == JoinWith(x, sep) + sep + JoinWith(y, sep)
    decreases |x|
  {
    if |x| == 1 {
      assert (x + y)[0] == x[0] && (x + y)[1..] == y;
    } else {
      assert (x + y)[0] == x[0] && (x + y)[1..] == x[1..] + y;
      JoinConcat(x[1..], y, sep);
      assert x[0] + sep + (JoinWith(x[1..], sep) + sep + JoinWith(y, sep))
          == (x[0] + sep + JoinWith(x[1..], sep)) + sep + JoinWith(y, sep);
    }
  }

  /** The content lines of the events from position `k` on, `lines(item, k)` those of the `k`-th one. */
  function EventLines(items: seq<Appointment>, k: nat, lines: (Appointment, nat) -> seq<string>): seq<string>
    decreases |items|
  {
    if items == [] then [] else lines(items[0], k) + EventLines(items[1..], k + 1, lines)
  }

  /** Each event text is its content lines, at least one, joined with CRLF. */
  ghost predicate Writes(event: (Appointment, nat) -> string, lines: (Appointment, nat) -> seq<string>) {
    forall item, k :: lines(item, k) != [] && event(item, k) == JoinWith(lines(item, k), Crlf)
  }

  /** Joining the event texts is joining all their content lines. */
  lemma {:induction false} JoinEvents(items: seq<Appointment>, k: nat, event: (Appointment, nat) -> string,
                                      lines: (Appointment, nat) -> seq<string>, tail: seq<string>)
    requires tail != [] && Writes(event, lines)
    ensures JoinWith(EventTexts(items, k, event) + tail, Crlf) == JoinWith(EventLines(items, k, lines) + tail, Crlf)
    decreases |items|
  {
    if items == [] {
      assert EventTexts(items, k, event) + tail == tail == EventLines(items, k, lines) + tail;
    } else {
      var first := lines(items[0], k);
      var later := EventLines(items[1..], k + 1, lines) + tail;
      var rest := EventTexts(items[1..], k + 1, event) + tail;
      EventsCons(items, k, event, lines, tail);
      assert first != [] && event(items[0], k) == JoinWith(first, Crlf);
      JoinEvents(items[1..], k + 1, event, lines, tail);
      JoinStep(event(items[0], k), first, rest, later);
    }
  }

  /** The first event's text and lines come before those of the others. */
  lemma {:induction false} EventsCons(items: seq<Appointment>, k: nat, event: (Appointment, nat) -> string,
                                      lines: (Appointment, nat) -> seq<string>, tail: seq<string>)
    requires items != []
    ensures EventTexts(items, k, event) + tail == [event(items[0], k)] + (EventTexts(items[1..], k + 1, event) + tail)
    ensures EventLines(items, k, lines) + tail == lines(items[0], k) + (EventLines(items[1..], k + 1, lines) + tail)
  {
  }

  /** An event text in front of the rest is joined as its lines in front of the rest's lines. */
  lemma {:induction false} JoinStep(text: string, first: seq<string>, rest: seq<string>, later: seq<string>)
    requires first != [] && rest != [] && later != []
    requires text == JoinWith(first, Crlf) && JoinWith(rest, Crlf) == JoinWith(later, Crlf)
    ensures JoinWith([text] + rest, Crlf) == JoinWith(first + later, Crlf)
  {
    JoinConcat([text], rest, Crlf);
    JoinConcat(first, later, Crlf);
  }

  /** The text of the calendar is its header, the content lines of every event and its end, joined with CRLF. */
  lemma {:induction false} CalendarText(state: CalendarState, prodId: string, event: (Appointment, nat) -> string,
                     lines: (Appointment, nat) -> seq<string>)
    requires Writes(event, lines)
    ensures JoinWith(CalendarLines(state, prodId, event), Crlf)
         == JoinWith(CalendarHeader(prodId) + EventLines(state.appointments, 0, lines) + ["END:VCALENDAR"] + [""], Crlf)
  {
    var h, e := CalendarHeader(prodId), ["END:VCALENDAR", ""];
    var x := EventTexts(state.appointments, 0, event);
    var y := EventLines(state.appointments, 0, lines);
    assert CalendarLines(state, prodId, event) == h + (x + e);
    JoinConcat(h, x + e, Crlf);
    JoinEvents(state.appointments, 0, event, lines, e);
    JoinConcat(h, y + e, Crlf);
    assert h + y + ["END:VCALENDAR"] + [""] == h + (y + e);
  }

  // ---- Reading the calendar ----

  /** The appointments `make` makes of what the appointments from position `k` on write, `n` read before them. */
  function ReadAll(items: seq<Appointment>, k: nat, values: (Appointment, nat) -> EventValues,
                   make: (EventValues, nat) -> Appointment, n: nat): (r: seq<Appointment>)
    ensures |r| == |items|
    decreases |items|
  {
    if items == [] then [] else [make(values(items[0], k), n)] + ReadAll(items[1..], k + 1, values, make, n + 1)
  }

  lemma {:induction false} ReadAllAt(items: seq<Appointment>, k: nat, values: (Appointment, nat) -> EventValues,
                                     make: (EventValues, nat) -> Appointment, n: nat, i: nat)
    requires i < |items|
    ensures ReadAll(items, k, values, make, n)[i] == make(values(items[i], k + i), n + i)
    decreases i
  {
    if i > 0 {
      ReadAllAt(items[1..], k + 1, values, make, n + 1, i - 1);
    }
  }

  /** Reading the lines of an event, outside an event, adds `make` of its values. */
  ghost predicate ReadsAs(lines: (Appointment, nat) -> seq<string>, values: (Appointment, nat) -> EventValues,
                          make: (EventValues, nat) -> Appointment, build: (Event, nat) -> Appointment) {
    forall item, k, rest, apps {:trigger ReadLines(lines(item, k) + rest, Reader(None, apps), build)} ::
      ReadLines(lines(item, k) + rest, Reader(None, apps), build)
                                 == ReadLines(rest, Reader(None, apps + [make(values(item, k), |apps|)]), build)
  }

  /** Reading the content lines of the events adds one appointment per event, in order. */
  lemma {:induction false} ReadExportedEvents(items: seq<Appointment>, k: nat, lines: (Appointment, nat) -> seq<string>,
                                              values: (Appointment, nat) -> EventValues, rest: seq<string>, apps: seq<Appointment>,
                                              make: (EventValues, nat) -> Appointment, build: (Event, nat) -> Appointment)
    requires ReadsAs(lines, values, make, build)
    ensures ReadLines(EventLines(items, k, lines) + rest, Reader(None, apps), build)
         == ReadLines(rest, Reader(None, apps + ReadAll(items, k, values, make, |apps|)), build)
    decreases |items|
  {
    if items == [] {
      assert EventLines(items, k, lines) + rest == rest;
      assert apps + ReadAll(items, k, values, make, |apps|) == apps;
    } else {
      var more := apps + [make(values(items[0], k), |apps|)];
      ReadFirstEvent(items, k, lines, values, rest, apps, make, build);
      ReadExportedEvents(items[1..], k + 1, lines, values, rest, more, make, build);
      ReadAllFirst(items, k, values, make, apps);
    }
  }

  lemma {:induction false} ReadFirstEvent(items: seq<Appointment>, k: nat, lines: (Appointment, nat) -> seq<string>,
                       values: (Appointment, nat) -> EventValues, rest: seq<string>, apps: seq<Appointment>,
                       make: (EventValues, nat) -> Appointment, build: (Event, nat) -> Appointment)
    requires items != [] && ReadsAs(lines, values, make, build)
    ensures ReadLines(EventLines(items, k, lines) + rest, Reader(None, apps), build)
         == ReadLines(EventLines(items[1..], k + 1, lines) + rest, Reader(None, apps + [make(values(items[0], k), |apps|)]), build)
  {
    var first := lines(items[0], k);
    var later := EventLines(items[1..], k + 1, lines) + rest;
    assert EventLines(items, k, lines) == first + EventLines(items[1..], k + 1, lines);
    assert EventLines(items, k, lines) + rest == first + later;
  }

  lemma {:induction false} ReadAllFirst(items: seq<Appointment>, k: nat, values: (Appointment, nat) -> EventValues,
                     make: (EventValues, nat) -> Appointment, apps: seq<Appointment>)
    requires items != []
    ensures var more := apps + [make(values(items[0], k), |apps|)];
      more + ReadAll(items[1..], k + 1, values, make, |more|) == apps + ReadAll(items, k, values, make, |apps|)
  {
    var m := make(values(items[0], k), |apps|);
    var r := ReadAll(items[1..], k + 1, values, make, |apps| + 1);
    assert ReadAll(items, k, values, make, |apps|) == [m] + r;
    assert (apps + [m]) + r == apps + ([m] + r);
  }

  /** The content lines of what each appointment writes. */
  function ExportLines(values: (Appointment, nat) -> EventValues): (r: (Appointment, nat) -> seq<string>)
    ensures forall item, k :: r(item, k) == PropLines(EventProps(values(item, k)))
  {
    (item: Appointment, k: nat) => PropLines(EventProps(values(item, k)))
  }

  /** Every event has a start. */
  ghost predicate Dated(values: (Appointment, nat) -> EventValues) {
    forall item, k :: values(item, k).start != ""
  }

  /** `make` builds the appointment of the event read back from what an event writes. */
  ghost predicate Makes(make: (EventValues, nat) -> Appointment, build: (Event, nat) -> Appointment) {
    forall v, n :: make(v, n) == build(ReadBack(v), n)
  }

  /** An exported event with a start, read, adds `make` of its values. */
  lemma {:induction false} ExportedReadsAs(values: (Appointment, nat) -> EventValues, make: (EventValues, nat) -> Appointment,
                        build: (Event, nat) -> Appointment)
    requires Dated(values) && Makes(make, build)
    ensures ReadsAs(ExportLines(values), values, make, build)
  {
    forall item, k, rest, apps
      ensures ReadLines(ExportLines(values)(item, k) + rest, Reader(None, apps), build)
           == ReadLines(rest, Reader(None, apps + [make(values(item, k), |apps|)]), build)
    {
      var v := values(item, k);
      ReadExportedEvent(v, rest, Reader(None, apps), build);
      assert make(v, |apps|) == build(ReadBack(v), |apps|);
    }
  }

  /** No header line opens an event. */
  lemma {:induction false} HeaderOutside(prodId: string)
    ensures BeginEvent !in CalendarHeader(prodId) + ["END:VCALENDAR"]
  {
    var h := CalendarHeader(prodId);
    assert h[2][0] == 'P';
    assert |h[0]| != |BeginEvent| && |h[1]| != |BeginEvent| && |h[3]| != |BeginEvent| && |"END:VCALENDAR"| != |BeginEvent|;
  }

  /** The reader makes one appointment per event, in order. */
  lemma {:induction false} ReadCalendar(items: seq<Appointment>, prodId: string, lines: (Appointment, nat) -> seq<string>,
                     values: (Appointment, nat) -> EventValues, make: (EventValues, nat) -> Appointment,
                     build: (Event, nat) -> Appointment)
    requires ReadsAs(lines, values, make, build)
    ensures ReadLines(CalendarHeader(prodId) + EventLines(items, 0, lines) + ["END:VCALENDAR"], Reader(None, []), build).appointments
         == ReadAll(items, 0, values, make, 0)
  {
    var h, y, e := CalendarHeader(prodId), EventLines(items, 0, lines), ["END:VCALENDAR"];
    var all := ReadAll(items, 0, values, make, 0);
    assert h + y + e == h + (y + e);
    HeaderOutside(prodId);
    assert BeginEvent !in h && BeginEvent !in e;
    ReadLinesConcat(h, y + e, Reader(None, []), build);
    OutsideIgnored(h, Reader(None, []), build);
    ReadExportedEvents(items, 0, lines, values, e, [], make, build);
    assert [] + all == all;
    OutsideIgnored(e, Reader(None, all), build);
  }

  // ---- Texts that stay on their line ----

  /** A text that can end a content line as it is: no carriage return, and no white space at its end. */
  predicate TextSafe(t: string) {
    '\r' !in t && (t == [] || !IsSpace(t[|t| - 1]))
  }

  /** A written value: safe at the end of a line, and no line break in it. */
  predicate ValueSafe(x: string) {
    TextSafe(x) && '\n' !in x
  }

  lemma {:induction false} TextSafeConcat(a: string, b: string)
    requires TextSafe(a) && TextSafe(b)
    ensures TextSafe(a + b)
  {
    if b == [] {
      assert a + b == a;
    } else {
      assert (a + b)[|a + b| - 1] == b[|b| - 1];
    }
  }

  lemma {:induction false} ValueSafeConcat(a: string, b: string)
    requires ValueSafe(a) && ValueSafe(b)
    ensures ValueSafe(a + b)
  {
    TextSafeConcat(a, b);
  }

  /** Safe parts joined with a safe separator. */
  lemma {:induction false} JoinSafe(parts: seq<string>, sep: string)
    requires TextSafe(sep) && forall i :: 0 <= i < |parts| ==> TextSafe(parts[i])
    ensures TextSafe(JoinWith(parts, sep))
    decreases |parts|
  {
    if |parts| > 1 {
      assert forall i :: 0 <= i < |parts[1..]| ==> TextSafe(parts[1..][i]);
      JoinSafe(parts[1..], sep);
      TextSafeConcat(parts[0], sep);
      TextSafeConcat(parts[0] + sep, JoinWith(parts[1..], sep));
    } else if |parts| == 1 {
      assert TextSafe(parts[0]);
    }
  }

  lemma {:induction false} EscapeSomeNoReturn(s: string)
    requires '\r' !in s
    ensures '\r' !in EscapeSome(s, Escaped)
    decreases |s|
  {
    if s != [] {
      assert '\r' !in s[1..] && EscLetter(s[0]) != '\r';
      EscapeSomeNoReturn(s[1..]);
    }
  }

  /** The last character escaped is the last character, or its escape letter. */
  lemma {:induction false} EscapeSomeLast(s: string)
    requires s != []
    ensures var e, c := EscapeSome(s, Escaped), s[|s| - 1];
      e != [] && e[|e| - 1] == (if c in Escaped then EscLetter(c) else c)
  {
    var a, c := s[..|s| - 1], s[|s| - 1];
    assert s == a + [c];
    EscapeSomeConcat(a, [c], Escaped);
    assert [c][1..] == [];
    assert EscapeSome([c], Escaped) == (if c in Escaped then ['\\', EscLetter(c)] else [c]) + EscapeSome([], Escaped);
  }

  /** Escaping a safe text gives a safe value: the line break becomes `\n`, and no letter of an escape is white space. */
  lemma {:induction false} EscapeSafe(t: string)
    requires TextSafe(t)
    ensures ValueSafe(EscapeIcs(t))
  {
    EscapeIcsCharwise(t);
    EscapeIcsNoLineBreak(t);
    EscapeSomeNoReturn(t);
    if t != [] {
      EscapeSomeLast(t);
    } else {
      assert EscapeSome(t, Escaped) == [];
    }
  }

  lemma {:induction false} UpperSafe(t: string)
    requires TextSafe(t)
    ensures TextSafe(ToUpper(t))
  {
    var u := ToUpper(t);
    assert forall i :: 0 <= i < |u| ==> u[i] == UpperChar(t[i]) && u[i] != '\r';
  }

  lemma {:induction false} DigitsSafe(s: string)
    requires AllDigits(s)
    ensures ValueSafe(s)
  {
    assert forall i :: 0 <= i < |s| ==> s[i] != '\r' && s[i] != '\n' && !IsSpace(s[i]);
  }

  lemma {:induction false} IntTextSafe(i: int)
    ensures ValueSafe(IntToString(i))
  {
    DigitsSafe(NatToString(if i < 0 then -i else i));
    if i < 0 {
      ValueSafeConcat("-", NatToString(-i));
    }
  }

  /** `toICSDateTime` writes a safe value that is never empty. */
  lemma {:induction false} StampSafe(x: string)
    ensures ValueSafe(ToIcsDateTime(x)) && ToIcsDateTime(x) != ""
  {
    match ParseDateString(x)
    case None =>
      var n := NaNStamp;
      assert forall i :: 0 <= i < |n| ==> n[i] != '\r' && n[i] != '\n';
      assert n[|n| - 1] == 'Z';
    case Some(t) =>
      IcsStampSafe(t);
  }

  lemma {:induction false} IcsStampSafe(t: Instant)
    ensures ValueSafe(IcsStamp(t)) && IcsStamp(t) != ""
  {
    var y, mo, d := IntToString(t.year), PadNat(t.month, 2), PadNat(t.day, 2);
    var h, mi, sec := PadNat(t.hour, 2), PadNat(t.minute, 2), PadNat(t.second, 2);
    IntTextSafe(t.year);
    DigitsSafe(mo); DigitsSafe(d); DigitsSafe(h); DigitsSafe(mi); DigitsSafe(sec);
    ValueSafeConcat(sec, "Z");
    ValueSafeConcat(mi, sec + "Z");
    ValueSafeConcat(h, mi + (sec + "Z"));
    ValueSafeConcat("T", h + (mi + (sec + "Z")));
    ValueSafeConcat(d, "T" + (h + (mi + (sec + "Z"))));
    ValueSafeConcat(mo, d + ("T" + (h + (mi + (sec + "Z")))));
    ValueSafeConcat(y, mo + (d + ("T" + (h + (mi + (sec + "Z"))))));
  }

  // ---- Clean event lines ----

  /** Every line of a property with a safe value is clean: its name starts it and its value ends it. */
  lemma {:induction false} PropLineClean(n: Name, x: string)
    requires ValueSafe(x)
    ensures CleanLine(PropLine(n, x))
  {
    NameTextPlain(n);
    var name := NameText(n);
    assert forall i :: 0 <= i < |name| ==> name[i] != '\r' && name[i] != '\n' && !IsSpace(name[i]);
    ValueSafeConcat(name, ":");
    ValueSafeConcat(name + ":", x);
    assert PropLine(n, x)[0] == name[0];
  }

  predicate PropsSafe(ps: seq<(Name, string)>) {
    forall i :: 0 <= i < |ps| ==> ValueSafe(ps[i].1)
  }

  lemma {:induction false} PropsSafeConcat(a: seq<(Name, string)>, b: seq<(Name, string)>)
    requires PropsSafe(a) && PropsSafe(b)
    ensures PropsSafe(a + b)
  {
    forall i | 0 <= i < |a + b| ensures ValueSafe((a + b)[i].1) {
      if i >= |a| {
        assert (a + b)[i] == b[i - |a|];
      }
    }
  }

  lemma {:induction false} PropLinesClean(ps: seq<(Name, string)>)
    requires PropsSafe(ps)
    ensures AllClean(PropLines(ps))
  {
    forall i | 0 <= i < |PropLines(ps)| ensures CleanLine(PropLines(ps)[i]) {
      PropLinesAt(ps, i);
      PropLineClean(ps[i].0, ps[i].1);
    }
  }

  predicate SlotSafe(s: Slot) {
    match s
    case One(_, x) => ValueSafe(x)
    case Maybe(_, x) => x.Some? ==> ValueSafe(x.value)
    case Many(_, xs) => forall i :: 0 <= i < |xs| ==> ValueSafe(xs[i])
  }

  lemma {:induction false} RepeatedSafe(n: Name, xs: seq<string>)
    requires forall i :: 0 <= i < |xs| ==> ValueSafe(xs[i])
    ensures PropsSafe(Repeated(n, xs))
    decreases |xs|
  {
    if xs != [] {
      assert forall i :: 0 <= i < |xs[1..]| ==> ValueSafe(xs[1..][i]);
      RepeatedSafe(n, xs[1..]);
      assert PropsSafe([(n, xs[0])]);
      PropsSafeConcat([(n, xs[0])], Repeated(n, xs[1..]));
    }
  }

  lemma {:induction false} SlotPropsSafe(s: Slot)
    requires SlotSafe(s)
    ensures PropsSafe(SlotProps(s))
  {
    if s.Many? {
      RepeatedSafe(s.name, s.values);
    }
  }

  lemma {:induction false} ExpandSafe(slots: seq<Slot>)
    requires forall i :: 0 <= i < |slots| ==> SlotSafe(slots[i])
    ensures PropsSafe(Expand(slots))
    decreases |slots|
  {
    if slots != [] {
      SlotPropsSafe(slots[0]);
      assert forall i :: 0 <= i < |slots[1..]| ==> SlotSafe(slots[1..][i]);
      ExpandSafe(slots[1..]);
      PropsSafeConcat(SlotProps(slots[0]), Expand(slots[1..]));
    }
  }

  /** The values of an event, each safe. */
  predicate ValuesSafe(v: EventValues) {
    && ValueSafe(v.uid) && ValueSafe(v.stamp) && ValueSafe(v.start) && (v.end.Some? ==> ValueSafe(v.end.value))
    && ValueSafe(v.timezone) && ValueSafe(v.allDay) && ValueSafe(v.summary) && ValueSafe(v.description)
    && (v.location.Some? ==> ValueSafe(v.location.value)) && (v.url.Some? ==> ValueSafe(v.url.value))
    && ValueSafe(v.status) && (forall i :: 0 <= i < |v.attendees| ==> ValueSafe(v.attendees[i]))
    && ValueSafe(v.priority) && (v.rrule.Some? ==> ValueSafe(v.rrule.value))
  }

  lemma {:induction false} SlotSafeOf(v: EventValues, n: Name)
    requires ValuesSafe(v)
    ensures SlotSafe(EventSlot(v, n))
  {
    assert ValueSafe("VEVENT") by {
      var e := "VEVENT";
      assert forall i :: 0 <= i < |e| ==> e[i] != '\r' && e[i] != '\n';
    }
  }

  /** The content lines of an event with safe values are clean. */
  lemma {:induction false} EventLinesClean(v: EventValues)
    requires ValuesSafe(v)
    ensures AllClean(PropLines(EventProps(v)))
  {
    var slots := EventSlots(v);
    forall i | 0 <= i < |slots| ensures SlotSafe(slots[i]) {
      SlotSafeOf(v, EventNames[i]);
    }
    ExpandSafe(slots);
    PropLinesClean(EventProps(v));
  }

  // ---- Appointments that survive the text ----

  /**
   * An appointment whose texts come through the importer's handling of lines: the fields
   * of the description block fit on their lines, no text holds a carriage return, and no
   * text that can end a content line ends with white space.
   */
  predicate IcsSafe(item: Appointment) {
    && OneLineFields(item)
    && TextSafe(item.id) && TextSafe(item.title) && TextSafe(item.timezone)
    && TextSafe(item.location) && TextSafe(item.url) && TextSafe(item.status)
    && (forall i :: 0 <= i < |item.attendees| ==> TextSafe(item.attendees[i]))
    && '\r' !in item.description && '\r' !in item.category && '\r' !in item.calendarId
    && (forall i :: 0 <= i < |item.tags| ==> '\r' !in item.tags[i])
    && (forall i :: 0 <= i < |item.contact| ==> '\r' !in item.contact[i])
  }

  lemma {:induction false} LiteralsSafe()
    ensures TextSafe("UTC") && TextSafe("Untitled Appointment") && TextSafe("confirmed") && TextSafe(",")
    ensures TextSafe("general") && TextSafe("default") && TextSafe("true") && TextSafe("false")
    ensures ValueSafe("TRUE") && ValueSafe("FALSE") && TextSafe(KeyName(Attendees))
  {
    DefaultsSafe();
    FlagsSafe();
  }

  /** The default texts of the importer stay on their line. */
  lemma {:induction false} DefaultsSafe()
    ensures TextSafe("UTC") && TextSafe("Untitled Appointment") && TextSafe("confirmed") && TextSafe(",")
    ensures TextSafe("general") && TextSafe("default")
  {
    var ts := ["UTC", "Untitled Appointment", "confirmed", ",", "general", "default"];
    forall j, i | 0 <= j < |ts| && 0 <= i < |ts[j]| ensures ts[j][i] != '\r' && ts[j][i] != '\n' {
    }
    assert ts[0] == "UTC" && ts[1] == "Untitled Appointment" && ts[2] == "confirmed" && ts[3] == ",";
    assert ts[4] == "general" && ts[5] == "default";
  }

  /** The flag texts and the attendees key stay on their line. */
  lemma {:induction false} FlagsSafe()
    ensures TextSafe("true") && TextSafe("false")
    ensures ValueSafe("TRUE") && ValueSafe("FALSE") && TextSafe(KeyName(Attendees))
  {
    var ts := ["true", "false", "TRUE", "FALSE", KeyName(Attendees)];
    forall j, i | 0 <= j < |ts| && 0 <= i < |ts[j]| ensures ts[j][i] != '\r' && ts[j][i] != '\n' {
    }
    assert ts[0] == "true" && ts[1] == "false";
    assert ts[2] == "TRUE" && ts[3] == "FALSE" && ts[4] == KeyName(Attendees);
  }

  lemma {:induction false} RuleSafe(recurrence: string)
    ensures RecurrenceToRRule(recurrence).Some? ==> ValueSafe(RecurrenceToRRule(recurrence).value)
  {
    var rs := ["FREQ=DAILY", "FREQ=WEEKLY", "FREQ=MONTHLY", "FREQ=YEARLY"];
    forall j, i | 0 <= j < |rs| && 0 <= i < |rs[j]| ensures rs[j][i] != '\r' && rs[j][i] != '\n' {
    }
    assert rs[0] == "FREQ=DAILY" && rs[1] == "FREQ=WEEKLY" && rs[2] == "FREQ=MONTHLY" && rs[3] == "FREQ=YEARLY";
  }

  lemma {:induction false} KeyNameNoReturn(k: Key)
    ensures '\r' !in KeyName(k)
  {
    var key := KeyName(k);
    assert forall j :: 0 <= j < |key| ==> key[j] == ':' || 'A' <= key[j] <= 'Z';
  }

  lemma {:induction false} LinesOfNoReturn(pairs: seq<(Key, string)>)
    requires forall i :: 0 <= i < |pairs| ==> '\r' !in pairs[i].1
    ensures forall i :: 0 <= i < |LinesOf(pairs)| ==> '\r' !in LinesOf(pairs)[i]
    decreases |pairs|
  {
    if pairs != [] {
      KeyNameNoReturn(pairs[0].0);
      LinesOfNoReturn(pairs[1..]);
      assert forall i :: 1 <= i < |LinesOf(pairs)| ==> LinesOf(pairs)[i] == LinesOf(pairs[1..])[i - 1];
    }
  }

  lemma {:induction false} LinesOfLast(pairs: seq<(Key, string)>)
    requires pairs != []
    ensures var l := pairs[|pairs| - 1]; LinesOf(pairs)[|pairs| - 1] == KeyName(l.0) + l.1
    decreases |pairs|
  {
    if |pairs| > 1 {
      LinesOfLast(pairs[1..]);
      assert pairs[1..][|pairs| - 2] == pairs[|pairs| - 1];
    }
  }

  /** The description block of a safe appointment is safe: its last line is the attendees'. */
  lemma {:induction false} BlockSafe(item: Appointment)
    requires IcsSafe(item)
    ensures TextSafe(DescriptionBlock(item))
  {
    BlockNoReturn(item);
    BlockEnd(item);
  }

  lemma {:induction false} BlockNoReturn(item: Appointment)
    requires IcsSafe(item)
    ensures '\r' !in DescriptionBlock(item)
  {
    var pairs := DescriptionPairs(item);
    LiteralsSafe();
    JoinWithKeepsOut(item.tags, ",", '\r');
    JoinWithKeepsOut(item.contact, ",", '\r');
    JoinWithKeepsOut(item.attendees, ",", '\r');
    if item.reminderMinutes.Some? {
      NumTextNoLineBreak(item.reminderMinutes.value);
    }
    assert forall i :: 0 <= i < |pairs| ==> '\r' !in pairs[i].1;
    LinesOfNoReturn(pairs);
    JoinWithKeepsOut(DescriptionLines(item), "\n", '\r');
  }

  /** The block ends with its attendees' line, which ends with no white space. */
  lemma {:induction false} BlockEnd(item: Appointment)
    requires IcsSafe(item)
    ensures var block := DescriptionBlock(item); block != [] && !IsSpace(block[|block| - 1])
  {
    var pairs := DescriptionPairs(item);
    var lines := DescriptionLines(item);
    var attendees := JoinWith(item.attendees, ",");
    LiteralsSafe();
    JoinSafe(item.attendees, ",");
    LinesOfLast(pairs);
    var last := lines[11];
    assert last == KeyName(Attendees) + attendees;
    TextSafeConcat(KeyName(Attendees), attendees);
    assert lines == lines[..11] + [last];
    JoinConcat(lines[..11], [last], "\n");
    var block := DescriptionBlock(item);
    assert block == JoinWith(lines[..11], "\n") + "\n" + last;
    assert block[|block| - 1] == last[|last| - 1];
  }

  lemma {:induction false} EscapeAllSafe(xs: seq<string>)
    requires forall i :: 0 <= i < |xs| ==> TextSafe(xs[i])
    ensures forall i :: 0 <= i < |EscapeAll(xs)| ==> ValueSafe(EscapeAll(xs)[i])
    decreases |xs|
  {
    if xs != [] {
      EscapeSafe(xs[0]);
      assert forall i :: 0 <= i < |xs[1..]| ==> TextSafe(xs[1..][i]);
      EscapeAllSafe(xs[1..]);
      assert forall i :: 1 <= i < |xs| ==> EscapeAll(xs)[i] == EscapeAll(xs[1..])[i - 1];
    }
  }

  /** The values exported for a safe appointment, with a safe uid and safe date-times, are safe. */
  lemma {:induction false} ValuesOfSafe(item: Appointment, uid: string, stamp: string, start: string, end: string)
    requires IcsSafe(item) && TextSafe(uid) && ValueSafe(stamp) && ValueSafe(start) && ValueSafe(end)
    ensures ValuesSafe(EventValuesOf(item, uid, stamp, start, end))
  {
    EscapeSafe(uid);
    TextsSafe(item);
    ListsSafe(item);
  }

  lemma {:induction false} TextsSafe(item: Appointment)
    requires IcsSafe(item)
    ensures ValueSafe(EscapeIcs(OrText(item.timezone, "UTC"))) && ValueSafe(EscapeIcs(OrText(item.title, "Untitled Appointment")))
    ensures ValueSafe(EscapeIcs(item.location)) && ValueSafe(EscapeIcs(item.url))
    ensures ValueSafe(EscapeIcs(ToUpper(OrText(item.status, "confirmed"))))
    ensures ValueSafe(if item.allDay then "TRUE" else "FALSE")
  {
    LiteralsSafe();
    EscapeSafe(OrText(item.timezone, "UTC"));
    EscapeSafe(OrText(item.title, "Untitled Appointment"));
    EscapeSafe(item.location);
    EscapeSafe(item.url);
    UpperSafe(OrText(item.status, "confirmed"));
    EscapeSafe(ToUpper(OrText(item.status, "confirmed")));
  }

  lemma {:induction false} ListsSafe(item: Appointment)
    requires IcsSafe(item)
    ensures ValueSafe(EscapeIcs(DescriptionBlock(item)))
    ensures forall i :: 0 <= i < |EscapeAll(item.attendees)| ==> ValueSafe(EscapeAll(item.attendees)[i])
    ensures ValueSafe(IntToString(ClampPriority(item.priority)))
    ensures RecurrenceToRRule(item.recurrence).Some? ==> ValueSafe(RecurrenceToRRule(item.recurrence).value)
  {
    BlockSafe(item);
    EscapeSafe(DescriptionBlock(item));
    EscapeAllSafe(item.attendees);
    IntTextSafe(ClampPriority(item.priority));
    RuleSafe(item.recurrence);
  }

  // ---- The whole calendar ----

  /** What the `k`-th appointment writes: its id or else `ids(k)`, `now` for `DTSTAMP`, and its start and end. */
  function ExportValues(now: Instant, ids: nat -> string): (r: (Appointment, nat) -> EventValues)
    ensures forall item, k :: r(item, k) == EventValuesOf(item, OrText(item.id, ids(k)), ToIcsDateTime(ToIsoString(now)),
                                                          ToIcsDateTime(item.date), ToIcsDateTime(OrOptText(item.endDate, "")))
  {
    (item: Appointment, k: nat) => EventValuesOf(item, OrText(item.id, ids(k)), ToIcsDateTime(ToIsoString(now)),
                                                 ToIcsDateTime(item.date), ToIcsDateTime(OrOptText(item.endDate, "")))
  }

  /** The appointment the importer makes of what an event writes, `n` appointments read before it. */
  function MakeAppointment(how: Reading, nowText: string, uuids: nat -> string): (r: (EventValues, nat) -> Appointment)
    ensures forall v, n :: r(v, n) == EventAppointment(how, ReadBack(v), nowText, uuids(n))
  {
    (v: EventValues, n: nat) => EventAppointment(how, ReadBack(v), nowText, uuids(n))
  }

  lemma {:induction false} ExporterWrites(now: Instant, ids: nat -> string)
    ensures Writes(Exporter(now, ids), ExportLines(ExportValues(now, ids)))
  {
    forall item, k ensures ExportLines(ExportValues(now, ids))(item, k) != [] {
      ExportedLines(ExportValues(now, ids)(item, k));
    }
  }

  lemma {:induction false} ExportDated(now: Instant, ids: nat -> string)
    ensures Dated(ExportValues(now, ids))
  {
    forall item, k ensures ExportValues(now, ids)(item, k).start != "" {
      StampSafe(item.date);
    }
  }

  /** The lines of the events of safe appointments are clean. */
  lemma {:induction false} EventLinesAllClean(items: seq<Appointment>, k: nat, lines: (Appointment, nat) -> seq<string>)
    requires forall item, j :: item in items ==> AllClean(lines(item, j))
    ensures AllClean(EventLines(items, k, lines))
    decreases |items|
  {
    if items != [] {
      assert AllClean(lines(items[0], k));
      EventLinesAllClean(items[1..], k + 1, lines);
      AllCleanConcat(lines(items[0], k), EventLines(items[1..], k + 1, lines));
    }
  }

  lemma {:induction false} ExportLinesClean(items: seq<Appointment>, now: Instant, ids: nat -> string)
    requires forall k :: TextSafe(ids(k))
    requires forall item :: item in items ==> IcsSafe(item)
    ensures forall item, j :: item in items ==> AllClean(ExportLines(ExportValues(now, ids))(item, j))
  {
    forall item, j | item in items ensures AllClean(ExportLines(ExportValues(now, ids))(item, j)) {
      var uid := OrText(item.id, ids(j));
      StampSafe(ToIsoString(now));
      StampSafe(item.date);
      StampSafe(OrOptText(item.endDate, ""));
      ValuesOfSafe(item, uid, ToIcsDateTime(ToIsoString(now)), ToIcsDateTime(item.date), ToIcsDateTime(OrOptText(item.endDate, "")));
      EventLinesClean(ExportValues(now, ids)(item, j));
    }
  }

  /** A text of letters, digits and a few marks, none of them white space or a line break. */
  predicate Plain(l: string) {
    forall i :: 0 <= i < |l| ==> 'A' <= l[i] <= 'Z' || 'a' <= l[i] <= 'z' || '0' <= l[i] <= '9' || l[i] in ":./-"
  }

  lemma {:induction false} PlainClean(l: string)
    requires l != [] && Plain(l)
    ensures CleanLine(l)
  {
    assert forall i :: 0 <= i < |l| ==> l[i] != '\r' && l[i] != '\n';
  }

  lemma {:induction false} ProdIdClean(prodId: string)
    requires ValueSafe(prodId)
    ensures CleanLine("PRODID:" + OrText(prodId, DefaultProdId))
  {
    var d := DefaultProdId;
    assert forall i :: 0 <= i < |d| ==> d[i] != '\r' && d[i] != '\n';
    assert d[|d| - 1] == 'N';
    var p := "PRODID:";
    assert Plain(p);
    PlainClean(p);
    ValueSafeConcat(p, OrText(prodId, d));
    assert (p + OrText(prodId, d))[0] == 'P';
  }

  lemma {:induction false} HeaderClean(prodId: string)
    requires ValueSafe(prodId)
    ensures AllClean(CalendarHeader(prodId)) && AllClean(["END:VCALENDAR"])
  {
    FixedLinesClean();
    ProdIdClean(prodId);
  }

  lemma {:induction false} FixedLinesClean()
    ensures CleanLine("BEGIN:VCALENDAR") && CleanLine("VERSION:2.0")
    ensures CleanLine("CALSCALE:GREGORIAN") && CleanLine("END:VCALENDAR")
  {
    CalendarLinesClean();
    VersionLinesClean();
  }

  /** The lines that open and close the calendar are clean. */
  lemma {:induction false} CalendarLinesClean()
    ensures CleanLine("BEGIN:VCALENDAR") && CleanLine("END:VCALENDAR")
  {
    assert Plain("BEGIN:VCALENDAR");
    PlainClean("BEGIN:VCALENDAR");
    assert Plain("END:VCALENDAR");
    PlainClean("END:VCALENDAR");
  }

  /** The version and calendar-scale lines are clean. */
  lemma {:induction false} VersionLinesClean()
    ensures CleanLine("VERSION:2.0") && CleanLine("CALSCALE:GREGORIAN")
  {
    assert Plain("VERSION:2.0");
    PlainClean("VERSION:2.0");
    assert Plain("CALSCALE:GREGORIAN");
    PlainClean("CALSCALE:GREGORIAN");
  }

  /** The content lines of an exported calendar of safe appointments are exactly the lines the exporter joined. */
  lemma {:induction false} ExportedContentLines(state: CalendarState, prodId: string, now: Instant, ids: nat -> string)
    requires ValueSafe(prodId) && forall k :: TextSafe(ids(k))
    requires forall item :: item in state.appointments ==> IcsSafe(item)
    ensures ContentLines(StateToIcs(state, prodId, now, ids))
         == CalendarHeader(prodId) + EventLines(state.appointments, 0, ExportLines(ExportValues(now, ids))) + ["END:VCALENDAR"]
  {
    var h, y := CalendarHeader(prodId), EventLines(state.appointments, 0, ExportLines(ExportValues(now, ids)));
    ExporterWrites(now, ids);
    CalendarText(state, prodId, Exporter(now, ids), ExportLines(ExportValues(now, ids)));
    HeaderClean(prodId);
    ExportLinesClean(state.appointments, now, ids);
    EventLinesAllClean(state.appointments, 0, ExportLines(ExportValues(now, ids)));
    AllCleanConcat(h, y);
    AllCleanConcat(h + y, ["END:VCALENDAR"]);
    ContentLinesOfClean(h + y + ["END:VCALENDAR"]);
  }

  /** Reading the calendar's lines gives one appointment per appointment, in order: `make` of what it wrote. */
  lemma {:induction false} CalendarRead(items: seq<Appointment>, prodId: string, values: (Appointment, nat) -> EventValues,
                     make: (EventValues, nat) -> Appointment, build: (Event, nat) -> Appointment)
    requires Dated(values) && Makes(make, build)
    ensures var r := ReadLines(CalendarHeader(prodId) + EventLines(items, 0, ExportLines(values)) + ["END:VCALENDAR"],
                               Reader(None, []), build);
      && |r.appointments| == |items|
      && forall i :: 0 <= i < |items| ==> r.appointments[i] == make(values(items[i], i), i)
  {
    ExportedReadsAs(values, make, build);
    ReadCalendar(items, prodId, ExportLines(values), values, make, build);
    ReadAllEach(items, values, make);
  }

  lemma {:induction false} ReadAllEach(items: seq<Appointment>, values: (Appointment, nat) -> EventValues, make: (EventValues, nat) -> Appointment)
    ensures forall i :: 0 <= i < |items| ==> ReadAll(items, 0, values, make, 0)[i] == make(values(items[i], i), i)
  {
    forall i | 0 <= i < |items| ensures ReadAll(items, 0, values, make, 0)[i] == make(values(items[i], i), i) {
      ReadAllAt(items, 0, values, make, 0, i);
    }
  }

  /** Reading an exported calendar's lines gives one appointment per appointment, in order. */
  lemma {:induction false} ExportedLinesRead(how: Reading, items: seq<Appointment>, prodId: string, now: Instant, ids: nat -> string,
                          nowText: string, uuids: nat -> string)
    ensures var r := ReadLines(CalendarHeader(prodId) + EventLines(items, 0, ExportLines(ExportValues(now, ids))) + ["END:VCALENDAR"],
                               Reader(None, []), Builder(how, nowText, uuids));
      && |r.appointments| == |items|
      && forall i :: 0 <= i < |items| ==>
           r.appointments[i] == MakeAppointment(how, nowText, uuids)(ExportValues(now, ids)(items[i], i), i)
  {
    ExportDated(now, ids);
    CalendarRead(items, prodId, ExportValues(now, ids), MakeAppointment(how, nowText, uuids), Builder(how, nowText, uuids));
  }

  /**
   * `parseStateFromICS` of `stateToICS`: the state read has one appointment per
   * appointment exported, in order, each made of the event read back from what that
   * appointment wrote, under either reading of the escapes.
   */
  lemma {:induction false} ExportedStateReadsBack(how: Reading, state: CalendarState, prodId: string, now: Instant, ids: nat -> string,
                               nowText: string, uuids: nat -> string)
    requires ValueSafe(prodId) && forall k :: TextSafe(ids(k))
    requires forall item :: item in state.appointments ==> IcsSafe(item)
    ensures var r := IcsState(how, StateToIcs(state, prodId, now, ids), nowText, uuids);
      && r == CalendarState(r.appointments, "month", "priority", nowText)
      && |r.appointments| == |state.appointments|
      && forall i :: 0 <= i < |state.appointments| ==>
           r.appointments[i] == EventAppointment(how, ReadBack(ExportValues(now, ids)(state.appointments[i], i)), nowText, uuids(i))
  {
    ExportedContentLines(state, prodId, now, ids);
    ExportedLinesRead(how, state.appointments, prodId, now, ids, nowText, uuids);
  }

  /**
   * Under the intended unescaping, the `i`-th appointment read back from the whole text is
   * `Imported` of the `i`-th exported one, so that each result about `Imported` holds of
   * the state `parseStateFromICS` returns.
   */
  lemma {:induction false} ExportedStateImports(state: CalendarState, prodId: string, now: Instant, ids: nat -> string,
                             nowText: string, uuids: nat -> string)
    requires ValueSafe(prodId) && forall k :: TextSafe(ids(k))
    requires forall item :: item in state.appointments ==> IcsSafe(item)
    ensures var r := IcsState(Intended, StateToIcs(state, prodId, now, ids), nowText, uuids);
      && |r.appointments| == |state.appointments|
      && forall i :: 0 <= i < |state.appointments| ==> var a := state.appointments[i];
           r.appointments[i] == Imported(a, OrText(a.id, ids(i)), ToIcsDateTime(ToIsoString(now)), ToIcsDateTime(a.date),
                                         ToIcsDateTime(OrOptText(a.endDate, "")), nowText, uuids(i))
  {
    ExportedStateReadsBack(Intended, state, prodId, now, ids, nowText, uuids);
  }

  /**
   * The whole calendar, exported and imported under the intended unescaping: every
   * appointment comes back in its place with its identifier (or the uuid drawn for it),
   * its title (or the default), its priority clamped to 1..10, its place, link and
   * attendees, its all-day flag, its zone (or `UTC`) and its trimmed description.
   */
  lemma {:induction false} ExportedStateFields(state: CalendarState, prodId: string, now: Instant, ids: nat -> string,
                            nowText: string, uuids: nat -> string)
    requires ValueSafe(prodId) && forall k :: TextSafe(ids(k))
    requires forall item :: item in state.appointments ==> IcsSafe(item)
    ensures var r := IcsState(Intended, StateToIcs(state, prodId, now, ids), nowText, uuids);
      && |r.appointments| == |state.appointments|
      && forall i :: 0 <= i < |state.appointments| ==>
           KeptFields(state.appointments[i], r.appointments[i], OrText(state.appointments[i].id, ids(i)), uuids(i))
  {
    var r := IcsState(Intended, StateToIcs(state, prodId, now, ids), nowText, uuids);
    var stamp := ToIcsDateTime(ToIsoString(now));
    ExportedStateImports(state, prodId, now, ids, nowText, uuids);
    forall i | 0 <= i < |state.appointments|
      ensures KeptFields(state.appointments[i], r.appointments[i], OrText(state.appointments[i].id, ids(i)), uuids(i))
    {
      var a := state.appointments[i];
      assert IcsSafe(a);
      ImportedFields(a, OrText(a.id, ids(i)), stamp, ToIcsDateTime(a.date), ToIcsDateTime(OrOptText(a.endDate, "")), nowText, uuids(i));
    }
  }

  /**
   * What `b`, read back, keeps of `a`, exported with the uid `uid`: the identifier (or
   * `uuid` when the uid is empty), the title (or the default), the priority clamped to
   * 1..10, the place, link and attendees, the all-day flag, the zone (or `UTC`) and the
   * trimmed description.
   */
  predicate KeptFields(a: Appointment, b: Appointment, uid: string, uuid: string) {
    && b.id == OrText(uid, uuid)
    && b.title == OrText(a.title, "Untitled Appointment")
    && b.priority == ClampPriority(a.priority)
    && b.location == a.location && b.url == a.url && b.attendees == a.attendees
    && b.allDay == a.allDay && b.timezone == OrText(a.timezone, "UTC")
    && b.description == Trim(a.description)
  }

  lemma {:induction false} ImportedFields(a: Appointment, uid: string, stamp: string, start: string, end: string,
                                          nowText: string, uuid: string)
    requires OneLineFields(a)
    ensures KeptFields(a, Imported(a, uid, stamp, start, end, nowText, uuid), uid, uuid)
  {
    ImportedIdentity(a, uid, stamp, start, end, nowText, uuid);
    ImportedPlace(a, uid, stamp, start, end, nowText, uuid);
    ImportedFlags(a, uid, stamp, start, end, nowText, uuid);
    ImportedDetails(a, uid, stamp, start, end, nowText, uuid);
  }
}
