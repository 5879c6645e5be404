/**
 * The calendar calculator engine: a list of templates, each with input fields and a
 * schedule calculation. A calculation normalizes the raw input field by field, validates
 * it, runs the template, and turns the items it returns into appointments with defaults.
 */
module CalculatorEngine {
  import opened Wrappers
  import opened JsText
  import opened CivilTime
  import opened DateStrings

  // ---- Values ----

  /** A raw form value: missing (`undefined` or `null`), a text or a number. */
  datatype RawValue = RawMissing | RawText(text: string) | RawNum(num: JsNum)

  /** A normalized input value: `null`, a finite number or a text. */
  datatype InputValue = NullInput | NumInput(n: int) | TextInput(s: string)

  predicate RawTruthy(v: RawValue) {
    match v
    case RawMissing => false
    case RawText(s) => s != ""
    case RawNum(n) => Truthy(n)
  }

  /** `String(v)`. */
  function RawString(v: RawValue): string {
    match v
    case RawMissing => ""
    case RawText(s) => s
    case RawNum(n) => NumText(n)
  }

  /** `Number(v)`. */
  function RawNumber(v: RawValue): JsNum {
    match v
    case RawMissing => NaN
    case RawText(s) => NumberOf(s)
    case RawNum(n) => n
  }

  predicate ValueTruthy(v: InputValue) {
    match v
    case NullInput => false
    case NumInput(n) => n != 0
    case TextInput(s) => s != ""
  }

  /** `value === '' || value == null`. */
  predicate IsEmpty(v: InputValue) {
    v == NullInput || v == TextInput("")
  }

  /** `String(v)` for any value other than `null`. */
  function ValueText(v: InputValue): string {
    match v
    case NullInput => "null"
    case NumInput(n) => IntToString(n)
    case TextInput(s) => s
  }

  /** `Number(v)`; `Number(null)` is 0. */
  function ValueNumber(v: InputValue): JsNum {
    match v
    case NullInput => Num(0)
    case NumInput(n) => Num(n)
    case TextInput(s) => NumberOf(s)
  }

  /** The largest time value a `Date` holds (ECMA-262 TimeClip). */
  const MaxTime: int := 8640000000000000

  /** `new Date(time)` for a time value in range. */
  function FromTimeValue(time: int): Instant {
    MakeInstant(1970, 0, 1, time)
  }

  /** `parseDate(value)`: `null` for a falsy value or an invalid date, else the date. */
  function ParseValueDate(v: InputValue): (r: Option<Instant>)
    ensures !ValueTruthy(v) ==> r.None?
  {
    match v
    case NullInput => None
    case NumInput(n) => if n != 0 && -MaxTime <= n <= MaxTime then Some(FromTimeValue(n)) else None
    case TextInput(s) => if s == "" then None else ParseDateString(s)
  }

  /** `input[name]`; a name the input lacks reads `undefined`, which every check here treats as `null`. */
  function ValueAt(input: map<string, InputValue>, name: string): InputValue {
    if name in input then input[name] else NullInput
  }

  // ---- Fields ----

  /** The type of a field, from its `type` text; any type the engine does not check is kept by name. */
  datatype FieldKind = NumberKind | DateKind | SelectKind | OtherKind(typeName: string)

  /** The kind a field's `type` text names. */
  function KindOf(typeName: string): (r: FieldKind)
    ensures r.OtherKind? <==> typeName != "number" && typeName != "date" && typeName != "select"
    ensures r.OtherKind? ==> r.typeName == typeName
  {
    if typeName == "number" then NumberKind
    else if typeName == "date" then DateKind
    else if typeName == "select" then SelectKind
    else OtherKind(typeName)
  }

  /** An option of a select field. */
  datatype FieldOption = FieldOption(value: InputValue, caption: string)

  /**
   * An input field: `min` and `max` are `None` unless they are finite numbers, and an
   * absent placeholder or default value is empty text.
   */
  datatype Field = Field(
    name: string,
    caption: string,
    kind: FieldKind,
    required: bool,
    placeholder: string,
    defaultValue: string,
    min: Option<int>,
    max: Option<int>,
    options: seq<FieldOption>)

  /**
   * `normalizeFieldValue(field, rawValue)`: a number field holds a finite number or `null`;
   * every other field holds a text (a date or any other field the raw text or `''`, a
   * select field the raw text or its default).
   */
  function NormalizeFieldValue(field: Field, raw: RawValue): (r: InputValue)
    ensures field.kind == NumberKind ==> (r.NumInput? <==> !(raw.RawMissing? || raw == RawText("")) && RawNumber(raw).Num?)
    ensures field.kind == NumberKind && r.NumInput? ==> RawNumber(raw) == Num(r.n)
    ensures field.kind != NumberKind ==> r.TextInput?
    ensures (field.kind == DateKind || field.kind == SelectKind) && RawTruthy(raw) ==> r == TextInput(RawString(raw))
    ensures field.kind == DateKind && !RawTruthy(raw) ==> r == TextInput("")
  {
    if field.kind == NumberKind then
      if raw.RawMissing? || raw == RawText("") then NullInput
      else match RawNumber(raw)
        case Num(v) => NumInput(v)
        case NaN => NullInput
    else if field.kind == DateKind then TextInput(if RawTruthy(raw) then RawString(raw) else "")
    else if field.kind == SelectKind then TextInput(if RawTruthy(raw) then RawString(raw) else field.defaultValue)
    else TextInput(if raw.RawMissing? then "" else RawString(raw))
  }

  /** A normalized value handed back as raw input. */
  function AsRaw(v: InputValue): RawValue {
    match v
    case NullInput => RawMissing
    case NumInput(n) => RawNum(Num(n))
    case TextInput(s) => RawText(s)
  }

  /** Normalizing a normalized value again changes nothing. */
  lemma NormalizeIdempotent(field: Field, raw: RawValue)
    ensures NormalizeFieldValue(field, AsRaw(NormalizeFieldValue(field, raw))) == NormalizeFieldValue(field, raw)
  {
  }

  // ---- Validation ----

  /** What is wrong with a field's value. */
  datatype Problem = Required | NotANumber | BelowMin(min: int) | AboveMax(max: int) | BadDate

  /** `value < bound` for a nonempty value: a text is compared by its number, and NaN is never less. */
  predicate Below(v: InputValue, bound: int) {
    match ValueNumber(v)
    case Num(x) => x < bound
    case NaN => false
  }

  predicate Above(v: InputValue, bound: int) {
    match ValueNumber(v)
    case Num(x) => x > bound
    case NaN => false
  }

  /** The checks `validateInput` makes of one field, in order. */
  function FieldProblems(f: Field, value: InputValue): seq<Problem> {
    if f.required && IsEmpty(value) then [Required]
    else
      (if f.kind == NumberKind && !IsEmpty(value) then
        (if value.NumInput? then [] else [NotANumber])
        + (if f.min.Some? && Below(value, f.min.value) then [BelowMin(f.min.value)] else [])
        + (if f.max.Some? && Above(value, f.max.value) then [AboveMax(f.max.value)] else [])
      else [])
      + (if f.kind == DateKind && ValueTruthy(value) && ParseValueDate(value).None? then [BadDate] else [])
  }

  /** The message for a problem with the field captioned `caption`: the caption, then what is wrong, then a full stop. */
  function Message(caption: string, p: Problem): string {
    match p
    case Required => caption + " is required."
    case NotANumber => caption + " must be a valid number."
    case BelowMin(min) => caption + " must be at least " + IntToString(min) + "."
    case AboveMax(max) => caption + " must be at most " + IntToString(max) + "."
    case BadDate => caption + " must be a valid date."
  }

  /** One message per problem, in order: the `i`-th is the message for the `i`-th problem. */
  function Messages(caption: string, ps: seq<Problem>): (r: seq<string>)
    ensures |r| == |ps| && forall i :: 0 <= i < |ps| ==> r[i] == Message(caption, ps[i])
  {
    if ps == [] then [] else [Message(caption, ps[0])] + Messages(caption, ps[1..])
  }

  /** Every message starts with the field's caption and a space, and ends with a full stop. */
  lemma MessageShape(caption: string, p: Problem)
    ensures var m := Message(caption, p);
      |m| > |caption| + 1 && m[..|caption| + 1] == caption + " " && m[|m| - 1] == '.'
  {
  }

  /** The errors of one field. */
  function FieldErrors(f: Field, input: map<string, InputValue>): (r: seq<string>)
    ensures |r| == |FieldProblems(f, ValueAt(input, f.name))|
  {
    Messages(f.caption, FieldProblems(f, ValueAt(input, f.name)))
  }

  /** The lists `f` gives for the elements, one after the other. */
  function ConcatMap<A, B>(xs: seq<A>, f: A -> seq<B>): seq<B>
    decreases |xs|
  {
    if xs == [] then [] else ConcatMap(xs[..|xs| - 1], f) + f(xs[|xs| - 1])
  }

  /** The concatenation is empty exactly when every list is. */
  lemma {:induction false} ConcatMapEmpty<A, B>(xs: seq<A>, f: A -> seq<B>)
    ensures ConcatMap(xs, f) == [] <==> forall i :: 0 <= i < |xs| ==> f(xs[i]) == []
    decreases |xs|
  {
    if xs != [] {
      var k := |xs| - 1;
      ConcatMapEmpty(xs[..k], f);
      assert forall i :: 0 <= i < k ==> xs[..k][i] == xs[i];
    }
  }

  /** The errors `validateInput` collects, field by field. */
  function Errors(fields: seq<Field>, input: map<string, InputValue>): seq<string> {
    ConcatMap(fields, ErrorsOf(input))
  }

  function ErrorsOf(input: map<string, InputValue>): (r: Field -> seq<string>)
    ensures forall f :: r(f) == FieldErrors(f, input)
  {
    (f: Field) => FieldErrors(f, input)
  }

  /** One more element: its list goes at the end. */
  lemma ConcatMapSnoc<A, B>(xs: seq<A>, i: nat, f: A -> seq<B>)
    requires i < |xs|
    ensures ConcatMap(xs[..i + 1], f) == ConcatMap(xs[..i], f) + f(xs[i])
  {
    assert xs[..i + 1][..i] == xs[..i];
  }

  /** One more field: its messages go at the end. */
  lemma ErrorsSnoc(fields: seq<Field>, i: nat, input: map<string, InputValue>)
    requires i < |fields|
    ensures Errors(fields[..i + 1], input)
      == Errors(fields[..i], input) + Messages(fields[i].caption, FieldProblems(fields[i], ValueAt(input, fields[i].name)))
  {
    ConcatMapSnoc(fields, i, ErrorsOf(input));
  }

  /** The checks of one field in the loop of `validateInput`. */
  method CheckField(f: Field, value: InputValue) returns (ps: seq<Problem>)
    ensures ps == FieldProblems(f, value)
  {
    if f.required && IsEmpty(value) {
      return [Required];
    }
    ps := [];
    if f.kind == NumberKind && !IsEmpty(value) {
      if !value.NumInput? {
        ps := ps + [NotANumber];
      }
      if f.min.Some? && Below(value, f.min.value) {
        ps := ps + [BelowMin(f.min.value)];
      }
      if f.max.Some? && Above(value, f.max.value) {
        ps := ps + [AboveMax(f.max.value)];
      }
    }
    if f.kind == DateKind && ValueTruthy(value) && ParseValueDate(value).None? {
      ps := ps + [BadDate];
    }
  }

  /** `validateInput(template, input)`. */
  method ValidateInput(fields: seq<Field>, input: map<string, InputValue>) returns (errors: seq<string>)
    ensures errors == Errors(fields, input)
  {
    errors := [];
    var i := 0;
    while i < |fields|
      invariant 0 <= i <= |fields|
      invariant errors == Errors(fields[..i], input)
    {
      var ps := CheckField(fields[i], ValueAt(input, fields[i].name));
      ErrorsSnoc(fields, i, input);
      errors := errors + Messages(fields[i].caption, ps);
      i := i + 1;
    }
    assert fields[..|fields|] == fields;
  }

  /** A required field left empty gets exactly one error, and none of the other checks runs for it. */
  lemma RequiredOnly(f: Field, value: InputValue)
    requires f.required && IsEmpty(value)
    ensures FieldProblems(f, value) == [Required]
  {
  }

  /**
   * A number field's value below its minimum gets the "at least" error and one above its
   * maximum the "at most" error, and nothing else.
   */
  lemma NumberBounds(f: Field, n: int)
    requires f.kind == NumberKind
    ensures FieldProblems(f, NumInput(n)) ==
      (if f.min.Some? && n < f.min.value then [BelowMin(f.min.value)] else [])
      + (if f.max.Some? && n > f.max.value then [AboveMax(f.max.value)] else [])
  {
  }

  /** A date field holding a text that is not a date gets the date error, and only then. */
  lemma DateCheck(f: Field, s: string)
    requires f.kind == DateKind && s != ""
    ensures FieldProblems(f, TextInput(s)) == if ParseDateString(s).None? then [BadDate] else []
  {
    assert !IsEmpty(TextInput(s)) && ValueTruthy(TextInput(s));
    assert ParseValueDate(TextInput(s)) == ParseDateString(s);
  }

  /** A value that `normalizeFieldValue` produced for its own field never gets the "valid number" error. */
  lemma NoNotANumber(f: Field, raw: RawValue)
    ensures NotANumber !in FieldProblems(f, NormalizeFieldValue(f, raw))
  {
  }

  /** No errors at all exactly when no field has a problem. */
  lemma ErrorsEmpty(fields: seq<Field>, input: map<string, InputValue>)
    ensures Errors(fields, input) == [] <==> forall i :: 0 <= i < |fields| ==> FieldErrors(fields[i], input) == []
  {
    ConcatMapEmpty(fields, ErrorsOf(input));
  }

  // ---- The input ----

  /** `rawInput[name]`. */
  function RawAt(raw: map<string, RawValue>, name: string): RawValue {
    if name in raw then raw[name] else RawMissing
  }

  /** The input `calculate` builds: each field's raw value normalized, a later field of the same name overwriting an earlier one. */
  function InputOf(fields: seq<Field>, raw: map<string, RawValue>): map<string, InputValue>
    decreases |fields|
  {
    if fields == [] then map[]
    else
      var f := fields[|fields| - 1];
      InputOf(fields[..|fields| - 1], raw)[f.name := NormalizeFieldValue(f, RawAt(raw, f.name))]
  }

  /** The loop in `calculate` that fills the input. */
  method BuildInput(fields: seq<Field>, raw: map<string, RawValue>) returns (input: map<string, InputValue>)
    ensures input == InputOf(fields, raw)
  {
    input := map[];
    var i := 0;
    while i < |fields|
      invariant 0 <= i <= |fields|
      invariant input == InputOf(fields[..i], raw)
    {
      assert fields[..i + 1][..i] == fields[..i];
      input := input[fields[i].name := NormalizeFieldValue(fields[i], RawAt(raw, fields[i].name))];
      i := i + 1;
    }
    assert fields[..|fields|] == fields;
  }

  /** The input holds a value for every field's name, and nothing else. */
  lemma {:induction false} InputKeys(fields: seq<Field>, raw: map<string, RawValue>, name: string)
    ensures name in InputOf(fields, raw) <==> exists i :: 0 <= i < |fields| && fields[i].name == name
    decreases |fields|
  {
    if fields != [] {
      var k := |fields| - 1;
      InputKeys(fields[..k], raw, name);
      if exists i :: 0 <= i < k && fields[..k][i].name == name {
        var i :| 0 <= i < k && fields[..k][i].name == name;
        assert fields[i].name == name;
      }
      if exists i :: 0 <= i < |fields| && fields[i].name == name {
        var i :| 0 <= i < |fields| && fields[i].name == name;
        if i < k {
          assert fields[..k][i].name == name;
        }
      }
    }
  }

  /** A field that no later field shares its name with holds its own normalized value. */
  lemma {:induction false} InputAt(fields: seq<Field>, raw: map<string, RawValue>, i: nat)
    requires i < |fields|
    requires forall j :: i < j < |fields| ==> fields[j].name != fields[i].name
    ensures ValueAt(InputOf(fields, raw), fields[i].name) == NormalizeFieldValue(fields[i], RawAt(raw, fields[i].name))
    decreases |fields|
  {
    var k := |fields| - 1;
    if i < k {
      InputAt(fields[..k], raw, i);
    }
  }

  /** With distinct names, no field of the built input gets the "valid number" error. */
  lemma NoNotANumberInInput(fields: seq<Field>, raw: map<string, RawValue>, i: nat)
    requires i < |fields|
    requires forall j :: i < j < |fields| ==> fields[j].name != fields[i].name
    ensures NotANumber !in FieldProblems(fields[i], ValueAt(InputOf(fields, raw), fields[i].name))
  {
    InputAt(fields, raw, i);
    NoNotANumber(fields[i], RawAt(raw, fields[i].name));
  }

  // ---- Templates and their results ----

  /** A date an item may carry: none, a `Date` (`None` when it is invalid), or a text. */
  datatype ItemDate = NoDate | DateObject(at: Option<Instant>) | DateText(text: string)

  /**
   * An item a template's calculation returns. A missing text is empty text, a list that is
   * not an array is `None`, and `priority` is `Number(item.priority)` (NaN when it is absent).
   */
  datatype CalcItem = CalcItem(
    date: ItemDate,
    endDate: ItemDate,
    title: string,
    description: string,
    category: string,
    recurrence: string,
    status: string,
    calendarId: string,
    timezone: string,
    allDay: bool,
    tags: Option<seq<string>>,
    attendees: Option<seq<string>>,
    contact: Option<seq<string>>,
    priority: JsNum,
    reminderMinutes: Option<int>)

  /** What a template's calculation does: throws (with its message, `''` for none), returns a non-array, or returns a list (`None` for a `null` entry). */
  datatype CalcOutcome = Threw(message: string) | NotAList | Returned(items: seq<Option<CalcItem>>)

  /** A template: its id, its fields and its calculation over the normalized input. */
  datatype Template = Template(id: string, fields: seq<Field>, calculate: map<string, InputValue> -> CalcOutcome)

  /** An appointment the engine hands back. */
  datatype Scheduled = Scheduled(
    date: string,
    endDate: Option<string>,
    title: string,
    description: string,
    category: string,
    recurrence: string,
    status: string,
    calendarId: string,
    timezone: string,
    allDay: bool,
    tags: seq<string>,
    attendees: seq<string>,
    contact: seq<string>,
    priority: int,
    reminderMinutes: Option<int>)

  /** The result of `calculate`. */
  datatype CalcResult = CalcResult(ok: bool, errors: seq<string>, appointments: seq<Scheduled>)

  /** Where the template with this id is kept: the `Map` built from the list keeps the last one with it. */
  function TemplateIndex(templates: seq<Template>, id: string): (r: Option<nat>)
    ensures r.Some? ==> (r.value < |templates| && templates[r.value].id == id
      && forall j :: r.value < j < |templates| ==> templates[j].id != id)
    ensures r.None? ==> forall j :: 0 <= j < |templates| ==> templates[j].id != id
    decreases |templates|
  {
    if templates == [] then None
    else if templates[|templates| - 1].id == id then Some(|templates| - 1)
    else TemplateIndex(templates[..|templates| - 1], id)
  }

  /** `getTemplate(id)`: the last template with that id, or `null`. */
  function GetTemplate(templates: seq<Template>, id: string): (r: Option<Template>)
    ensures r.Some? ==> r.value.id == id
    ensures r.None? <==> forall j :: 0 <= j < |templates| ==> templates[j].id != id
  {
    match TemplateIndex(templates, id)
    case Some(i) => Some(templates[i])
    case None => None
  }

  /** `getFields(id)`: that template's fields, or none for an unknown id. */
  function GetFields(templates: seq<Template>, id: string): (r: seq<Field>)
    ensures GetTemplate(templates, id).None? ==> r == []
  {
    match GetTemplate(templates, id)
    case Some(t) => t.fields
    case None => []
  }

  /** The message of the `RangeError` that `toISOString` throws for an invalid date. */
  const InvalidTimeValue: string := "Invalid time value"

  /** `toIso(value)`: the ISO text of the date, or none when `toISOString` throws. */
  function IsoOf(d: ItemDate): (r: Option<string>)
    ensures r.Some? ==> exists t: Instant :: r.value == ToIsoString(t)
    ensures d.NoDate? ==> r.None?
    ensures d.DateObject? ==> (r.Some? <==> d.at.Some?)
    ensures d.DateObject? && d.at.Some? ==> r == Some(ToIsoString(d.at.value))
    ensures d.DateText? ==> (r.Some? <==> ParseDateString(d.text).Some?)
    ensures d.DateText? && ParseDateString(d.text).Some? ==> r == Some(ToIsoString(ParseDateString(d.text).value))
  {
    match d
    case NoDate => None
    case DateObject(at) => if at.Some? then Some(ToIsoString(at.value)) else None
    case DateText(s) => match ParseDateString(s) case Some(t) => Some(ToIsoString(t)) case None => None
  }

  /**
   * A date that holds an instant, as a `Date` or as a text `new Date` reads, is written as
   * the ISO text of that instant, which reads back as the instant itself.
   */
  lemma IsoOfReadsBack(d: ItemDate, t: Instant)
    requires (d.DateObject? && d.at == Some(t)) || (d.DateText? && ParseDateString(d.text) == Some(t))
    requires -1000000 < t.year < 1000000
    ensures IsoOf(d) == Some(ToIsoString(t))
    ensures ParseDateString(IsoOf(d).value) == Some(t)
  {
    ParseToIsoString(t);
  }

  /** `x || fallback` on texts. */
  function OrDefault(x: string, fallback: string): (r: string)
    ensures r == x || r == fallback
    ensures x != "" ==> r == x
    ensures r == "" ==> x == "" && fallback == ""
  {
    if x != "" then x else fallback
  }

  predicate DateTruthy(d: ItemDate) {
    match d
    case NoDate => false
    case DateObject(_) => true
    case DateText(s) => s != ""
  }

  /** `item && item.date`. */
  predicate Dated(item: Option<CalcItem>) {
    item.Some? && DateTruthy(item.value.date)
  }

  /** The item has a date. */
  predicate HasDate(item: CalcItem) {
    DateTruthy(item.date)
  }

  /** The values of the entries that are there and pass `keep`, in order. */
  function Kept<T>(xs: seq<Option<T>>, keep: T -> bool): (r: seq<T>)
    ensures |r| <= |xs|
    decreases |xs|
  {
    if xs == [] then []
    else (if xs[0].Some? && keep(xs[0].value) then [xs[0].value] else []) + Kept(xs[1..], keep)
  }

  /** Each position moved one place on. */
  function Shifted(pos: seq<nat>): (r: seq<nat>)
    ensures |r| == |pos| && forall i :: 0 <= i < |pos| ==> r[i] == pos[i] + 1
  {
    seq(|pos|, i requires 0 <= i < |pos| => pos[i] + 1)
  }

  /** The positions of the entries that are there and pass `keep`, in order. */
  function KeptIndex<T>(xs: seq<Option<T>>, keep: T -> bool): (pos: seq<nat>)
    ensures |pos| == |Kept(xs, keep)|
    decreases |xs|
  {
    if xs == [] then []
    else (if xs[0].Some? && keep(xs[0].value) then [0] else []) + Shifted(KeptIndex(xs[1..], keep))
  }

  /** The `i`-th kept value is the value at the `i`-th kept position. */
  lemma {:induction false} KeptIndexAt<T>(xs: seq<Option<T>>, keep: T -> bool, i: nat)
    requires i < |Kept(xs, keep)|
    ensures KeptIndex(xs, keep)[i] < |xs| && xs[KeptIndex(xs, keep)[i]] == Some(Kept(xs, keep)[i])
    decreases |xs|
  {
    var passes := xs[0].Some? && keep(xs[0].value);
    var head: seq<nat> := if passes then [0] else [];
    var kept := if passes then [xs[0].value] else [];
    var pos, rest := KeptIndex(xs[1..], keep), Kept(xs[1..], keep);
    assert KeptIndex(xs, keep) == head + Shifted(pos);
    assert Kept(xs, keep) == kept + rest;
    if i >= |head| {
      var j := i - |head|;
      assert KeptIndex(xs, keep)[i] == pos[j] + 1 && Kept(xs, keep)[i] == rest[j];
      KeptIndexAt(xs[1..], keep, j);
      assert xs[1..][pos[j]] == xs[pos[j] + 1];
    }
  }

  /** The positions ascend strictly. */
  predicate Ascending(pos: seq<nat>) {
    forall i, j :: 0 <= i < j < |pos| ==> pos[i] < pos[j]
  }

  /** The kept positions ascend strictly. */
  lemma {:induction false} KeptIndexAscending<T>(xs: seq<Option<T>>, keep: T -> bool)
    ensures Ascending(KeptIndex(xs, keep))
    decreases |xs|
  {
    if xs != [] {
      KeptIndexAscending(xs[1..], keep);
      var rest := Shifted(KeptIndex(xs[1..], keep));
      ShiftedAscending(KeptIndex(xs[1..], keep));
      var head: seq<nat> := if xs[0].Some? && keep(xs[0].value) then [0] else [];
      assert head + rest == KeptIndex(xs, keep);
      PrependAscending(head, rest);
    }
  }

  /** Moving every position one place on keeps them ascending, and none of them is 0. */
  lemma ShiftedAscending(pos: seq<nat>)
    requires Ascending(pos)
    ensures Ascending(Shifted(pos)) && forall i :: 0 <= i < |pos| ==> Shifted(pos)[i] > 0
  {
  }

  /** Position 0, or nothing, in front of ascending positions that are all past 0. */
  lemma PrependAscending(head: seq<nat>, rest: seq<nat>)
    requires head == [] || head == [0]
    requires Ascending(rest) && forall i :: 0 <= i < |rest| ==> rest[i] > 0
    ensures Ascending(head + rest)
  {
    var pos := head + rest;
    forall i, j | 0 <= i < j < |pos|
      ensures pos[i] < pos[j]
    {
      if i >= |head| {
        assert pos[i] == rest[i - |head|] && pos[j] == rest[j - |head|];
      } else {
        assert pos[j] == rest[j - 1];
      }
    }
  }

  /** Every position whose entry passes is kept. */
  lemma {:induction false} KeptIndexCovers<T>(xs: seq<Option<T>>, keep: T -> bool, k: nat)
    requires k < |xs| && xs[k].Some? && keep(xs[k].value)
    ensures k in KeptIndex(xs, keep)
    decreases |xs|
  {
    var head := if xs[0].Some? && keep(xs[0].value) then [0] else [];
    var pos := KeptIndex(xs, keep);
    if k == 0 {
      assert pos[0] == 0;
    } else {
      assert xs[1..][k - 1] == xs[k];
      KeptIndexCovers(xs[1..], keep, k - 1);
      var rest := KeptIndex(xs[1..], keep);
      var i :| 0 <= i < |rest| && rest[i] == k - 1;
      assert pos[|head| + i] == k;
    }
  }

  /**
   * The kept values are the passing entries in input order: `pos` lists the positions they
   * come from, strictly ascending, and it holds every position whose entry passes.
   */
  lemma KeptPositions<T>(xs: seq<Option<T>>, keep: T -> bool) returns (pos: seq<nat>)
    ensures |pos| == |Kept(xs, keep)|
    ensures forall i :: 0 <= i < |pos| ==> pos[i] < |xs| && xs[pos[i]] == Some(Kept(xs, keep)[i])
    ensures Ascending(pos)
    ensures forall k :: 0 <= k < |xs| && xs[k].Some? && keep(xs[k].value) ==> k in pos
  {
    pos := KeptIndex(xs, keep);
    forall i | 0 <= i < |pos|
      ensures pos[i] < |xs| && xs[pos[i]] == Some(Kept(xs, keep)[i])
    {
      KeptIndexAt(xs, keep, i);
    }
    KeptIndexAscending(xs, keep);
    forall k | 0 <= k < |xs| && xs[k].Some? && keep(xs[k].value)
      ensures k in pos
    {
      KeptIndexCovers(xs, keep, k);
    }
  }

  /** Each kept value passes and comes from an entry, and every passing entry's value is kept. */
  lemma KeptMembers<T>(xs: seq<Option<T>>, keep: T -> bool)
    ensures var r := Kept(xs, keep);
      && (forall i :: 0 <= i < |r| ==> keep(r[i]) && Some(r[i]) in xs)
      && (forall k :: 0 <= k < |xs| && xs[k].Some? && keep(xs[k].value) ==> xs[k].value in r)
  {
    var r := Kept(xs, keep);
    var pos := KeptPositions(xs, keep);
    forall i | 0 <= i < |r|
      ensures keep(r[i]) && Some(r[i]) in xs
    {
      KeptPass(xs, keep, i);
      assert xs[pos[i]] == Some(r[i]);
    }
    forall k | 0 <= k < |xs| && xs[k].Some? && keep(xs[k].value)
      ensures xs[k].value in r
    {
      var i :| 0 <= i < |pos| && pos[i] == k;
      assert Some(r[i]) == xs[k];
    }
  }

  lemma {:induction false} KeptPass<T>(xs: seq<Option<T>>, keep: T -> bool, i: nat)
    requires i < |Kept(xs, keep)|
    ensures keep(Kept(xs, keep)[i])
    decreases |xs|
  {
    var head := if xs[0].Some? && keep(xs[0].value) then [xs[0].value] else [];
    if i >= |head| {
      KeptPass(xs[1..], keep, i - |head|);
    }
  }

  /** The items kept: those with a date. */
  function DatedItems(items: seq<Option<CalcItem>>): (r: seq<CalcItem>)
    ensures |r| <= |items|
    ensures forall i :: 0 <= i < |r| ==> DateTruthy(r[i].date) && Some(r[i]) in items
    ensures forall k :: 0 <= k < |items| && Dated(items[k]) ==> items[k].value in r
  {
    KeptMembers(items, HasDate);
    Kept(items, HasDate)
  }

  /**
   * The items kept are the dated entries in input order: `pos` lists the positions they come
   * from, strictly ascending, and it holds every position whose entry is dated.
   */
  lemma DatedPositions(items: seq<Option<CalcItem>>) returns (pos: seq<nat>)
    ensures |pos| == |DatedItems(items)|
    ensures forall i :: 0 <= i < |pos| ==> pos[i] < |items| && items[pos[i]] == Some(DatedItems(items)[i])
    ensures Ascending(pos)
    ensures forall k :: 0 <= k < |items| && Dated(items[k]) ==> k in pos
  {
    pos := KeptPositions(items, HasDate);
  }

  /**
   * The appointment an item becomes, or none when one of its dates cannot be written:
   * recurrence `none`, status `confirmed`, calendar `health` and the host's time zone
   * (`UTC` when it has none) as defaults, lists that are not arrays empty, and priority 5
   * when it is not a number.
   */
  function Finish(item: CalcItem, hostZone: string): Option<Scheduled> {
    var date := IsoOf(item.date);
    var endDate := if DateTruthy(item.endDate) then IsoOf(item.endDate) else Some("");
    if date.None? || endDate.None? then None
    else Some(Scheduled(
      date.value,
      if DateTruthy(item.endDate) then Some(endDate.value) else None,
      item.title, item.description, item.category,
      OrDefault(item.recurrence, "none"),
      OrDefault(item.status, "confirmed"),
      OrDefault(item.calendarId, "health"),
      OrDefault(item.timezone, OrDefault(hostZone, "UTC")),
      item.allDay,
      if item.tags.Some? then item.tags.value else [],
      if item.attendees.Some? then item.attendees.value else [],
      if item.contact.Some? then item.contact.value else [],
      if item.priority.Num? then item.priority.value else 5,
      item.reminderMinutes))
  }

  /** The list mapped by `f` when `f` gives a value for each element, else none. */
  function AllSome<A, B>(xs: seq<A>, f: A -> Option<B>): (r: Option<seq<B>>)
    ensures r.Some? ==> |r.value| == |xs|
    ensures r.Some? <==> forall i :: 0 <= i < |xs| ==> f(xs[i]).Some?
    ensures r.Some? ==> forall i :: 0 <= i < |xs| ==> f(xs[i]) == Some(r.value[i])
  {
    if xs == [] then Some([])
    else
      var rest := AllSome(xs[1..], f);
      assert forall i :: 1 <= i < |xs| ==> xs[i] == xs[1..][i - 1];
      if f(xs[0]).Some? && rest.Some? then Some([f(xs[0]).value] + rest.value) else None
  }

  /** All items finished, or none when one of them throws. */
  function FinishAll(items: seq<CalcItem>, hostZone: string): Option<seq<Scheduled>> {
    AllSome(items, (item: CalcItem) => Finish(item, hostZone))
  }

  /** The result when something goes wrong. */
  function Failed(errors: seq<string>): CalcResult {
    CalcResult(false, errors, [])
  }

  /** What `calculate` makes of the template's outcome once the input is valid. */
  function Outcome(outcome: CalcOutcome, hostZone: string): CalcResult {
    match outcome
    case Threw(message) => Failed([if message != "" then message else "Unable to calculate schedule."])
    case NotAList => CalcResult(true, [], [])
    case Returned(items) =>
      match FinishAll(DatedItems(items), hostZone)
      case Some(appointments) => CalcResult(true, [], appointments)
      case None => Failed([InvalidTimeValue])
  }

  /**
   * `calculate(templateId, rawInput)`, with `hostZone` the zone the host reports. An unknown
   * template, an invalid input and a throwing calculation each give `ok: false` and no
   * appointments.
   */
  function Calculation(templates: seq<Template>, templateId: string, raw: map<string, RawValue>, hostZone: string): CalcResult {
    match GetTemplate(templates, templateId)
    case None => Failed(["Calculator template not found."])
    case Some(t) =>
      var input := InputOf(t.fields, raw);
      var errors := Errors(t.fields, input);
      if errors != [] then Failed(errors) else Outcome(t.calculate(input), hostZone)
  }

  /** `calculate`, as the engine runs it: the input built and validated by their loops. */
  method Calculate(templates: seq<Template>, templateId: string, raw: map<string, RawValue>, hostZone: string) returns (r: CalcResult)
    ensures r == Calculation(templates, templateId, raw, hostZone)
  {
    var template := GetTemplate(templates, templateId);
    if template.None? {
      return Failed(["Calculator template not found."]);
    }
    var input := BuildInput(template.value.fields, raw);
    var errors := ValidateInput(template.value.fields, input);
    if |errors| > 0 {
      return Failed(errors);
    }
    r := Outcome(template.value.calculate(input), hostZone);
  }

  /** An unknown template gives the one "not found" error. */
  lemma CalculationNotFound(templates: seq<Template>, templateId: string, raw: map<string, RawValue>, hostZone: string)
    requires forall j :: 0 <= j < |templates| ==> templates[j].id != templateId
    ensures Calculation(templates, templateId, raw, hostZone) == CalcResult(false, ["Calculator template not found."], [])
  {
  }

  /** An invalid input gives exactly the validation errors. */
  lemma CalculationInvalid(templates: seq<Template>, templateId: string, raw: map<string, RawValue>, hostZone: string)
    requires GetTemplate(templates, templateId).Some?
    requires var t := GetTemplate(templates, templateId).value; Errors(t.fields, InputOf(t.fields, raw)) != []
    ensures var t := GetTemplate(templates, templateId).value;
      Calculation(templates, templateId, raw, hostZone) == CalcResult(false, Errors(t.fields, InputOf(t.fields, raw)), [])
  {
  }

  /** A failed calculation has no appointments and at least one error; a throw gives exactly one. */
  lemma CalculationFailure(templates: seq<Template>, templateId: string, raw: map<string, RawValue>, hostZone: string)
    ensures var r := Calculation(templates, templateId, raw, hostZone);
      !r.ok ==> r.appointments == [] && r.errors != []
    ensures GetTemplate(templates, templateId).Some? ==>
      var t := GetTemplate(templates, templateId).value;
      var input := InputOf(t.fields, raw);
      Errors(t.fields, input) == [] && t.calculate(input).Threw? ==>
        |Calculation(templates, templateId, raw, hostZone).errors| == 1
  {
  }

  /**
   * On success every item with a date becomes one appointment, in order, and the items
   * without one are dropped.
   */
  lemma CalculationSuccess(templates: seq<Template>, templateId: string, raw: map<string, RawValue>, hostZone: string, items: seq<Option<CalcItem>>)
    requires GetTemplate(templates, templateId).Some?
    requires var t := GetTemplate(templates, templateId).value;
      var input := InputOf(t.fields, raw);
      Errors(t.fields, input) == [] && t.calculate(input) == Returned(items)
    ensures var r := Calculation(templates, templateId, raw, hostZone);
      r.ok ==>
        && |r.appointments| == |DatedItems(items)|
        && forall i :: 0 <= i < |DatedItems(items)| ==> Finish(DatedItems(items)[i], hostZone) == Some(r.appointments[i])
  {
  }

  /**
   * An appointment has a recurrence, status, calendar and zone (the defaults when the item
   * has none), and keeps the item's title, its priority when it is a number (else 5), and
   * its date.
   */
  lemma FinishDefaults(item: CalcItem, hostZone: string)
    requires Finish(item, hostZone).Some?
    ensures var s := Finish(item, hostZone).value;
      && s.recurrence == OrDefault(item.recurrence, "none")
      && s.status == OrDefault(item.status, "confirmed")
      && s.calendarId == OrDefault(item.calendarId, "health")
      && s.timezone == OrDefault(item.timezone, OrDefault(hostZone, "UTC"))
      && s.timezone != ""
      && s.title == item.title
      && s.priority == (if item.priority.Num? then item.priority.value else 5)
      && (item.date.DateObject? ==> s.date == ToIsoString(item.date.at.value))
      && (s.endDate.Some? <==> DateTruthy(item.endDate))
  {
  }

  /** A `Date` item keeps its instant: the date written reads back as it (for years of up to six digits). */
  lemma FinishedDateReadsBack(item: CalcItem, hostZone: string, t: Instant)
    requires item.date == DateObject(Some(t)) && -1000000 < t.year < 1000000
    requires Finish(item, hostZone).Some?
    ensures ParseDateString(Finish(item, hostZone).value.date) == Some(t)
  {
    ParseToIsoString(t);
  }

  /** An item whose date is an invalid `Date` makes the whole calculation fail with the `RangeError`'s message. */
  lemma InvalidDateFails(items: seq<Option<CalcItem>>, hostZone: string, i: nat)
    requires i < |DatedItems(items)| && DatedItems(items)[i].date == DateObject(None)
    ensures Outcome(Returned(items), hostZone) == CalcResult(false, [InvalidTimeValue], [])
  {
    assert Finish(DatedItems(items)[i], hostZone).None?;
  }
}
