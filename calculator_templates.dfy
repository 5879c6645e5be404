/**
 * The pieces a calculator template is built from: `{key}` placeholders filled from
 * variables, conditions over the input, dates derived from the input in order, and the
 * anchor date a schedule starts from.
 */
module CalculatorTemplates {
  import opened Wrappers
  import opened JsText
  import opened CivilTime
  import opened DateStrings
  import opened CalculatorEngine

  // ---- Placeholders ----

  /** The index in `s` of its first `}`, if any. */
  function CloseAt(s: string): (r: Option<nat>)
    ensures r.Some? ==> r.value < |s| && s[r.value] == '}' && '}' !in s[..r.value]
    ensures r.None? ==> '}' !in s
  {
    if s == [] then None
    else if s[0] == '}' then Some(0)
    else match CloseAt(s[1..])
      case Some(k) =>
        assert s[..k + 1] == [s[0]] + s[1..][..k];
        Some(k + 1)
      case None => None
  }

  /** What a placeholder becomes: `String(value)`, or `''` for a missing or `null` variable. */
  function VarText(vars: map<string, InputValue>, key: string): string {
    if key in vars && vars[key] != NullInput then ValueText(vars[key]) else ""
  }

  /**
   * `s.replace(/\{([^}]+)\}/g, …)`: each `{` followed by at least one character and then
   * the first `}` after it is replaced, with the text between them trimmed as the key;
   * a `{` with no such `}` stays as it is. Once no `}` is left nothing more can match.
   */
  function Fill(s: string, vars: map<string, InputValue>): string
    decreases |s|
  {
    if s == [] then ""
    else if s[0] == '{' then
      match CloseAt(s[1..])
      case Some(k) =>
        if k == 0 then "{" + Fill(s[1..], vars)
        else VarText(vars, Trim(s[1..k + 1])) + Fill(s[k + 2..], vars)
      case None => s
    else [s[0]] + Fill(s[1..], vars)
  }

  /** `fillTemplate(templateString, variables)`; an absent template is empty text. */
  function FillTemplate(template: string, vars: map<string, InputValue>): string {
    if template == "" then "" else Fill(template, vars)
  }

  /** Text without `{` passes through unchanged, and the filling goes on after it. */
  lemma {:induction false} FillPlain(a: string, b: string, vars: map<string, InputValue>)
    requires '{' !in a
    ensures Fill(a + b, vars) == a + Fill(b, vars)
    decreases |a|
  {
    if a != [] {
      assert (a + b)[0] == a[0];
      assert (a + b)[1..] == a[1..] + b;
      FillPlain(a[1..], b, vars);
      assert a == [a[0]] + a[1..];
    } else {
      assert a + b == b;
    }
  }

  /** A template without placeholders is kept as it is. */
  lemma FillNoBraces(s: string, vars: map<string, InputValue>)
    requires '{' !in s
    ensures FillTemplate(s, vars) == s
  {
    FillPlain(s, "", vars);
    assert s + "" == s;
  }

  lemma {:induction false} CloseAtJoin(a: string, b: string)
    requires '}' !in a
    ensures CloseAt(a + "}" + b) == Some(|a|)
    decreases |a|
  {
    if a == [] {
      assert (a + "}" + b)[0] == '}';
    } else {
      assert (a + "}" + b)[0] == a[0];
      assert (a + "}" + b)[1..] == a[1..] + "}" + b;
      CloseAtJoin(a[1..], b);
    }
  }

  /** `{key}` is replaced by the variable the trimmed key names, and the filling goes on after it. */
  lemma FillKey(key: string, rest: string, vars: map<string, InputValue>)
    requires key != "" && '}' !in key
    ensures Fill("{" + key + "}" + rest, vars) == VarText(vars, Trim(key)) + Fill(rest, vars)
  {
    var s := "{" + key + "}" + rest;
    assert s[1..] == key + "}" + rest;
    CloseAtJoin(key, rest);
    assert s[1..|key| + 1] == key;
    assert s[|key| + 2..] == rest;
    FillClosed(s, vars, |key|);
  }

  /** A `{` closed `k > 0` characters on: the trimmed text between is looked up. */
  lemma FillClosed(s: string, vars: map<string, InputValue>, k: nat)
    requires s != [] && s[0] == '{' && CloseAt(s[1..]) == Some(k) && k > 0
    ensures Fill(s, vars) == VarText(vars, Trim(s[1..k + 1])) + Fill(s[k + 2..], vars)
  {
  }

  /** A missing or `null` variable fills in as empty text. */
  lemma FillMissing(key: string, rest: string, vars: map<string, InputValue>)
    requires key != "" && '}' !in key
    requires Trim(key) !in vars || vars[Trim(key)] == NullInput
    ensures Fill("{" + key + "}" + rest, vars) == Fill(rest, vars)
  {
    FillKey(key, rest, vars);
  }

  // ---- Fields and their options ----

  /** A field as a template file declares it; absent texts are empty and a non-number bound is `None`. */
  datatype RawField = RawField(
    name: string,
    caption: string,
    typeName: string,
    required: bool,
    placeholder: string,
    defaultValue: string,
    min: Option<int>,
    max: Option<int>,
    options: Option<seq<FieldOption>>)

  /**
   * `normalizeField(field)`: the type defaults to `text`, the placeholder to `''` (the empty
   * text already stands for an absent one) and the options to none.
   */
  function NormalizeField(f: RawField): (r: Field)
    ensures r.name == f.name && r.caption == f.caption && r.required == f.required
    ensures r.placeholder == f.placeholder
    ensures r.defaultValue == f.defaultValue && r.min == f.min && r.max == f.max
    ensures r.kind == KindOf(if f.typeName == "" then "text" else f.typeName)
    ensures r.options == if f.options.Some? then f.options.value else []
  {
    Field(f.name, f.caption, KindOf(if f.typeName == "" then "text" else f.typeName),
          f.required, f.placeholder, f.defaultValue, f.min, f.max, if f.options.Some? then f.options.value else [])
  }

  /** `input[name]`: `None` for `undefined`. */
  function Lookup(input: map<string, InputValue>, name: string): (r: Option<InputValue>)
    ensures r.Some? <==> name in input
  {
    if name in input then Some(input[name]) else None
  }

  /** The first field with the name. */
  function FindField(fields: seq<RawField>, name: string): (r: Option<nat>)
    ensures r.Some? ==> (r.value < |fields| && fields[r.value].name == name
      && forall j :: 0 <= j < r.value ==> fields[j].name != name)
    ensures r.None? ==> forall j :: 0 <= j < |fields| ==> fields[j].name != name
  {
    if fields == [] then None
    else if fields[0].name == name then Some(0)
    else match FindField(fields[1..], name)
      case Some(k) =>
        assert forall j :: 1 <= j < k + 1 ==> fields[j] == fields[1..][j - 1];
        Some(k + 1)
      case None =>
        assert forall j :: 1 <= j < |fields| ==> fields[j] == fields[1..][j - 1];
        None
  }

  /** The first option whose value is (strictly) the value; `undefined` equals none. */
  function FindOption(options: seq<FieldOption>, value: Option<InputValue>): (r: Option<nat>)
    ensures r.Some? ==> (r.value < |options| && Some(options[r.value].value) == value
      && forall j :: 0 <= j < r.value ==> Some(options[j].value) != value)
    ensures r.None? ==> forall j :: 0 <= j < |options| ==> Some(options[j].value) != value
  {
    if options == [] then None
    else if Some(options[0].value) == value then Some(0)
    else match FindOption(options[1..], value)
      case Some(k) =>
        assert forall j :: 1 <= j < k + 1 ==> options[j] == options[1..][j - 1];
        Some(k + 1)
      case None =>
        assert forall j :: 1 <= j < |options| ==> options[j] == options[1..][j - 1];
        None
  }

  /** The option `getFieldOptionLabel` finds: of the first field with the name, the first option with the value. */
  function MatchingOption(fields: seq<RawField>, fieldName: string, value: Option<InputValue>): Option<FieldOption> {
    match FindField(fields, fieldName)
    case None => None
    case Some(i) =>
      if fields[i].options.None? then None
      else match FindOption(fields[i].options.value, value)
        case Some(j) => Some(fields[i].options.value[j])
        case None => None
  }

  /** `getFieldOptionLabel(fields, fieldName, value)`: that option's label, else the value itself, else `''`. */
  function OptionLabel(fields: seq<RawField>, fieldName: string, value: Option<InputValue>): (r: InputValue)
    ensures var o := MatchingOption(fields, fieldName, value);
      o.Some? && o.value.caption != "" ==> r == TextInput(o.value.caption)
    ensures var o := MatchingOption(fields, fieldName, value);
      !(o.Some? && o.value.caption != "") ==> r == if value.Some? && ValueTruthy(value.value) then value.value else TextInput("")
  {
    var o := MatchingOption(fields, fieldName, value);
    if o.Some? && o.value.caption != "" then TextInput(o.value.caption)
    else if value.Some? && ValueTruthy(value.value) then value.value
    else TextInput("")
  }

  /** A matching option's value is the value looked up, so an `undefined` value never has a label. */
  lemma MatchingOptionValue(fields: seq<RawField>, fieldName: string, value: Option<InputValue>)
    ensures MatchingOption(fields, fieldName, value).Some? ==> Some(MatchingOption(fields, fieldName, value).value.value) == value
    ensures value.None? ==> OptionLabel(fields, fieldName, value) == TextInput("")
  {
  }

  // ---- Conditions ----

  /** A date check a condition may name by its `kind`. */
  datatype DateCheck = MissingDate | OlderThanAnchor | NoCheck

  function DateCheckOf(kind: string): (r: DateCheck)
    ensures r == MissingDate <==> kind == "missingDate"
    ensures r == OlderThanAnchor <==> kind == "dateOlderThanDaysBeforeAnchor"
  {
    if kind == "missingDate" then MissingDate
    else if kind == "dateOlderThanDaysBeforeAnchor" then OlderThanAnchor
    else NoCheck
  }

  /**
   * A condition of a template event. `field` is `''` when it is absent (a `null` condition
   * behaves the same); a list that is not an array is `None`, and `equals` and `notEquals`
   * are `None` when the condition does not have them; `days` is `Number(condition.days)`.
   */
  datatype Condition = Condition(
    field: string,
    inList: Option<seq<InputValue>>,
    notIn: Option<seq<InputValue>>,
    equals: Option<InputValue>,
    notEquals: Option<InputValue>,
    check: DateCheck,
    anchor: string,
    days: JsNum)

  /** The dates derived so far, by name: each an ISO text or `null` (`None`). */
  type Derived = map<string, Option<string>>

  /** `derivedDates[name]`: `None` for `undefined`. */
  function DerivedValue(derived: Derived, name: string): (r: Option<InputValue>)
    ensures name !in derived ==> r.None?
  {
    if name !in derived then None
    else match derived[name]
      case Some(s) => Some(TextInput(s))
      case None => Some(NullInput)
  }

  /** `parseDate(value)` for a value that may be `undefined`. */
  function ParseOptDate(v: Option<InputValue>): (r: Option<Instant>)
    ensures v.None? ==> r.None?
  {
    if v.None? then None else ParseValueDate(v.value)
  }

  /** `Number(x) || fallback`: the number unless it is 0 or NaN. */
  function NumOr(x: JsNum, fallback: int): (r: int)
    ensures Truthy(x) ==> r == x.value
    ensures !Truthy(x) ==> r == fallback
  {
    if x.Num? && x.value != 0 then x.value else fallback
  }

  /** `Math.abs(n)`. */
  function Abs(n: int): (r: int)
    ensures r >= 0 && (r == n || r == -n)
  {
    if n < 0 then -n else n
  }

  /** The `dateOlderThanDaysBeforeAnchor` check. */
  predicate OlderThan(date: Option<Instant>, anchor: Option<Instant>, days: int) {
    if anchor.None? then false
    else if date.None? then true
    else TimeValue(date.value) < TimeValue(AddDays(anchor.value, -Abs(days)))
  }

  /** One condition, its tests taken in order, the first that applies deciding. */
  predicate Holds(c: Condition, input: map<string, InputValue>, derived: Derived) {
    if c.field == "" then true
    else
      var value := Lookup(input, c.field);
      if c.inList.Some? then value.Some? && value.value in c.inList.value
      else if c.notIn.Some? then !(value.Some? && value.value in c.notIn.value)
      else if c.equals.Some? then value == c.equals
      else if c.notEquals.Some? then value != c.notEquals
      else if c.check == MissingDate then ParseOptDate(value).None?
      else if c.check == OlderThanAnchor then
        OlderThan(ParseOptDate(value), ParseOptDate(DerivedValue(derived, c.anchor)), NumOr(c.days, 0))
      else true
  }

  /** `evaluateConditions(conditions, input, derivedDates)`. */
  predicate AllHold(conditions: seq<Condition>, input: map<string, InputValue>, derived: Derived) {
    forall i :: 0 <= i < |conditions| ==> Holds(conditions[i], input, derived)
  }

  /** A condition without a field holds; an `in` list holds exactly for a value it lists, and `notIn` is its negation. */
  lemma ConditionLists(c: Condition, input: map<string, InputValue>, derived: Derived)
    ensures c.field == "" ==> Holds(c, input, derived)
    ensures c.field != "" && c.inList.Some? ==>
      (Holds(c, input, derived) <==> c.field in input && input[c.field] in c.inList.value)
    ensures c.field != "" && c.inList.None? && c.notIn.Some? ==>
      (Holds(c, input, derived) <==> !(c.field in input && input[c.field] in c.notIn.value))
  {
  }

  /** `equals` and `notEquals` compare strictly, and only when no list test came first; a field the input lacks equals nothing. */
  lemma ConditionEquals(c: Condition, input: map<string, InputValue>, derived: Derived)
    requires c.field != "" && c.inList.None? && c.notIn.None?
    ensures c.equals.Some? ==> (Holds(c, input, derived) <==> c.field in input && input[c.field] == c.equals.value)
    ensures c.equals.None? && c.notEquals.Some? ==>
      (Holds(c, input, derived) <==> !(c.field in input && input[c.field] == c.notEquals.value))
  {
  }

  /**
   * `dateOlderThanDaysBeforeAnchor` is false without an anchor date, true without a date,
   * and otherwise says the date is more than `|days|` days before the anchor.
   */
  lemma OlderThanMeaning(date: Option<Instant>, anchor: Option<Instant>, days: int)
    ensures anchor.None? ==> !OlderThan(date, anchor, days)
    ensures anchor.Some? && date.None? ==> OlderThan(date, anchor, days)
    ensures anchor.Some? && date.Some? ==>
      (OlderThan(date, anchor, days) <==> TimeValue(date.value) < TimeValue(anchor.value) - Abs(days) * MsPerDay)
  {
  }

  /** `missingDate` holds exactly when the value is not a date (a missing value included). */
  lemma MissingDateMeaning(c: Condition, input: map<string, InputValue>, derived: Derived)
    requires c.field != "" && c.inList.None? && c.notIn.None? && c.equals.None? && c.notEquals.None?
    requires c.check == MissingDate
    ensures Holds(c, input, derived) <==> (c.field !in input || ParseValueDate(input[c.field]).None?)
  {
  }

  // ---- Derived dates ----

  /**
   * A derived date: its name, where its base comes from (a field, an earlier derived date,
   * or an age in years counted back from now; `''` when absent), and the shifts applied to it
   * (`None` unless a finite number).
   */
  datatype Definition = Definition(
    name: string,
    fromField: string,
    fromDerived: string,
    ageField: string,
    addDays: Option<int>,
    addWeeks: Option<int>,
    addMonths: Option<int>)

  /**
   * `Math.round(-ageYears * 365.25)` for a whole number of years: `Math.round(x)` is
   * `floor(x + 1/2)`, and `-a * 365.25 + 1/2` is `(2 - 1461 * a) / 4`.
   */
  function AgeOffset(a: nat): (r: int)
    ensures 4 * r <= 2 - 1461 * a < 4 * r + 4
  {
    (2 - 1461 * a) / 4
  }

  /** An age counts back: no later than now, and at most 366 days a year earlier. */
  lemma AgeOffsetBounds(a: nat)
    ensures -366 * a <= AgeOffset(a) <= 0
  {
  }

  /** `Number(input[name])`; `Number(undefined)` is NaN. */
  function NumberAt(input: map<string, InputValue>, name: string): JsNum {
    if name in input then ValueNumber(input[name]) else NaN
  }

  /** The base date of a definition: the field's date, else the earlier derived date, else now less the age. */
  function Base(d: Definition, input: map<string, InputValue>, derived: Derived, now: Instant): Option<Instant> {
    var fromField := if d.fromField != "" then ParseOptDate(Lookup(input, d.fromField)) else None;
    var fromDerived := if fromField.None? && d.fromDerived != "" then ParseOptDate(DerivedValue(derived, d.fromDerived)) else fromField;
    if fromDerived.None? && d.ageField != "" then
      match NumberAt(input, d.ageField)
      case Num(a) => if a >= 0 then Some(AddDays(now, AgeOffset(a))) else None
      case NaN => None
    else fromDerived
  }

  /** The base shifted by the days, then the weeks, then the months a definition names. */
  function Shifted(base: Instant, d: Definition): Instant {
    var t1 := if d.addDays.Some? then AddDays(base, d.addDays.value) else base;
    var t2 := if d.addWeeks.Some? then AddDays(t1, d.addWeeks.value * 7) else t1;
    if d.addMonths.Some? then AddMonths(t2, d.addMonths.value) else t2
  }

  /** The value a definition gives its name: the shifted base as ISO text, or `null` without a base. */
  function Resolve(d: Definition, input: map<string, InputValue>, derived: Derived, now: Instant): (r: Option<string>)
    ensures r.None? <==> Base(d, input, derived, now).None?
  {
    match Base(d, input, derived, now)
    case Some(b) => Some(ToIsoString(Shifted(b, d)))
    case None => None
  }

  /** The definitions taken in order, each given its value by `resolve` over the ones before it. */
  function Fold(defs: seq<Definition>, resolve: (Definition, Derived) -> Option<string>): Derived
    decreases |defs|
  {
    if defs == [] then map[]
    else
      var before := Fold(defs[..|defs| - 1], resolve);
      var d := defs[|defs| - 1];
      before[d.name := resolve(d, before)]
  }

  function Resolver(input: map<string, InputValue>, now: Instant): (r: (Definition, Derived) -> Option<string>)
    ensures forall d, derived :: r(d, derived) == Resolve(d, input, derived, now)
  {
    (d: Definition, derived: Derived) => Resolve(d, input, derived, now)
  }

  /** `resolveDerivedDates(templateData, input)`: the definitions taken in order, each able to read the ones before it. */
  function DerivedOf(defs: seq<Definition>, input: map<string, InputValue>, now: Instant): Derived {
    Fold(defs, Resolver(input, now))
  }

  /** The loop that fills `derived`. */
  method ResolveDerivedDates(defs: seq<Definition>, input: map<string, InputValue>, now: Instant) returns (derived: Derived)
    ensures derived == DerivedOf(defs, input, now)
  {
    ghost var resolve := Resolver(input, now);
    derived := map[];
    var i := 0;
    while i < |defs|
      invariant 0 <= i <= |defs|
      invariant derived == Fold(defs[..i], resolve)
    {
      assert defs[..i + 1][..i] == defs[..i];
      var d := defs[i];
      var value := Resolve(d, input, derived, now);
      derived := derived[d.name := value];
      i := i + 1;
    }
    assert defs[..|defs|] == defs;
  }

  /** The derived dates are named exactly by the definitions. */
  lemma {:induction false} FoldNames(defs: seq<Definition>, resolve: (Definition, Derived) -> Option<string>, name: string)
    ensures name in Fold(defs, resolve) <==> exists i :: 0 <= i < |defs| && defs[i].name == name
    decreases |defs|
  {
    if defs != [] {
      var k := |defs| - 1;
      FoldNames(defs[..k], resolve, name);
      if exists i :: 0 <= i < k && defs[..k][i].name == name {
        var i :| 0 <= i < k && defs[..k][i].name == name;
        assert defs[i].name == name;
      }
      if exists i :: 0 <= i < |defs| && defs[i].name == name {
        var i :| 0 <= i < |defs| && defs[i].name == name;
        if i < k {
          assert defs[..k][i].name == name;
        }
      }
    }
  }

  lemma DerivedNames(defs: seq<Definition>, input: map<string, InputValue>, now: Instant, name: string)
    ensures name in DerivedOf(defs, input, now) <==> exists i :: 0 <= i < |defs| && defs[i].name == name
  {
    FoldNames(defs, Resolver(input, now), name);
  }

  /** Later definitions do not touch another name. */
  lemma {:induction false} FoldLater(defs: seq<Definition>, resolve: (Definition, Derived) -> Option<string>, n: nat, name: string)
    requires n <= |defs|
    requires forall j :: n <= j < |defs| ==> defs[j].name != name
    ensures DerivedValue(Fold(defs, resolve), name) == DerivedValue(Fold(defs[..n], resolve), name)
    decreases |defs|
  {
    if n < |defs| {
      var k := |defs| - 1;
      assert defs[..k][..n] == defs[..n];
      FoldLater(defs[..k], resolve, n, name);
    } else {
      assert defs[..n] == defs;
    }
  }

  /**
   * A definition whose name no later definition reuses gives its name the value it resolves
   * to over the dates derived before it.
   */
  lemma DerivedAt(defs: seq<Definition>, input: map<string, InputValue>, now: Instant, i: nat)
    requires i < |defs|
    requires forall j :: i < j < |defs| ==> defs[j].name != defs[i].name
    ensures DerivedValue(DerivedOf(defs, input, now), defs[i].name) ==
      DerivedValue(map[defs[i].name := Resolve(defs[i], input, DerivedOf(defs[..i], input, now), now)], defs[i].name)
  {
    var resolve := Resolver(input, now);
    FoldAt(defs, resolve, i);
    assert resolve(defs[i], Fold(defs[..i], resolve)) == Resolve(defs[i], input, DerivedOf(defs[..i], input, now), now);
  }

  /** `DerivedAt` for any way of resolving a definition. */
  lemma FoldAt(defs: seq<Definition>, resolve: (Definition, Derived) -> Option<string>, i: nat)
    requires i < |defs|
    requires forall j :: i < j < |defs| ==> defs[j].name != defs[i].name
    ensures DerivedValue(Fold(defs, resolve), defs[i].name) ==
      DerivedValue(map[defs[i].name := resolve(defs[i], Fold(defs[..i], resolve))], defs[i].name)
  {
    FoldLater(defs, resolve, i + 1, defs[i].name);
    assert defs[..i + 1][..i] == defs[..i];
  }

  /** A definition whose field holds a date takes it as its base, whatever else it names. */
  lemma BaseFromField(d: Definition, input: map<string, InputValue>, derived: Derived, now: Instant)
    requires d.fromField != "" && ParseOptDate(Lookup(input, d.fromField)).Some?
    ensures Base(d, input, derived, now) == ParseOptDate(Lookup(input, d.fromField))
  {
  }

  /** With no base among field and earlier dates, an age of `a >= 0` years gives now less `a` years of 365.25 days, rounded. */
  lemma BaseFromAge(d: Definition, input: map<string, InputValue>, derived: Derived, now: Instant, a: nat)
    requires d.fromField == "" && d.fromDerived == "" && d.ageField != ""
    requires NumberAt(input, d.ageField) == Num(a)
    ensures Base(d, input, derived, now).Some?
    ensures TimeValue(Base(d, input, derived, now).value) == TimeValue(now) + AgeOffset(a) * MsPerDay
  {
  }

  // ---- Anchors ----

  /** `resolveAnchorDate(anchor, input, derivedDates)`: the input's date of that name, else the derived one. */
  function AnchorDate(anchor: string, input: map<string, InputValue>, derived: Derived): (r: Option<Instant>)
    ensures anchor == "" ==> r.None?
    ensures anchor != "" && ParseOptDate(Lookup(input, anchor)).Some? ==> r == ParseOptDate(Lookup(input, anchor))
    ensures anchor != "" && ParseOptDate(Lookup(input, anchor)).None? ==> r == ParseOptDate(DerivedValue(derived, anchor))
  {
    if anchor == "" then None
    else
      var fromInput := ParseOptDate(Lookup(input, anchor));
      if fromInput.Some? then fromInput else ParseOptDate(DerivedValue(derived, anchor))
  }
}
