/**
 * The part of zod's object schemas the server's validators use: a shape maps each key to a
 * field check and a presence mode; `pick`, `omit`, `partial` and `extend` build new shapes;
 * parsing an input checks every key of the shape, strips unknown keys and reports the keys
 * that failed. The `email` and `uuid` formats are parameters.
 */
module Schema {
  import opened Wrappers
  import Text

  /** An input value as the validators see it. */
  datatype Value = Str(s: string) | Date(t: int) | Obj(fields: map<string, Value>) | Other

  /** zod's built-in string formats, left abstract. */
  datatype Formats = Formats(isEmail: string -> bool, isUuid: string -> bool)

  datatype Check =
    | Uuid                                    // z.uuid()
    | EmailThenTrim                           // z.email().trim(): the format is tested before trimming
    | TrimmedString(min: nat, max: nat, allowed: Option<set<char>>)
                                              // z.string().trim().min().max(), and .regex(/^[allowed]+$/) when given
    | MinString(min: nat)                     // z.string().min()
    | AnyString                               // z.string()
    | DateValue                               // z.date()
    | Enum(names: set<string>)                // z.enum()

  /** Whether a key must be present, may be absent, or takes a default when absent. */
  datatype Mode = Required | Optional | Default(value: Value)

  datatype Field = Field(check: Check, mode: Mode)

  /** A key of a shape: a plain field, or a nested object schema. */
  datatype Entry = Leaf(field: Field) | Object(inner: map<string, Field>, objectMode: Mode) {
    function Mode(): Mode {
      match this
      case Leaf(f) => f.mode
      case Object(_, m) => m
    }
  }

  type Shape = map<string, Entry>

  /** What parsing one key gave. */
  datatype Outcome = Present(value: Value) | Missing | Issue

  /** Trimming, then the length bounds and the character class as the trimmed string sees them. */
  predicate TrimmedStringOk(s: string, min: nat, max: nat, allowed: Option<set<char>>) {
    var t := Text.Trim(s);
    && min <= |t| <= max
    && (allowed.Some? ==> |t| > 0 && forall i :: 0 <= i < |t| ==> t[i] in allowed.value)
  }

  /** Parsing a present value with one check: its output value, or None for an issue. */
  function ParseCheck(fm: Formats, c: Check, v: Value): (r: Option<Value>)
    ensures r.Some? ==> v.Str? || v.Date?
    ensures r.Some? && c.TrimmedString? ==> v.Str? && r.value == Str(Text.Trim(v.s))
  {
    match c
    case Uuid => if v.Str? && fm.isUuid(v.s) then Some(v) else None
    case EmailThenTrim => if v.Str? && fm.isEmail(v.s) then Some(Str(Text.Trim(v.s))) else None
    case TrimmedString(min, max, allowed) =>
      if v.Str? && TrimmedStringOk(v.s, min, max, allowed) then Some(Str(Text.Trim(v.s))) else None
    case MinString(min) => if v.Str? && |v.s| >= min then Some(v) else None
    case AnyString => if v.Str? then Some(v) else None
    case DateValue => if v.Date? then Some(v) else None
    case Enum(names) => if v.Str? && v.s in names then Some(v) else None
  }

  /** A key the input does not hold: an issue if required, absent if optional, the default otherwise. */
  function AbsentOutcome(m: Mode): Outcome {
    match m
    case Required => Issue
    case Optional => Missing
    case Default(d) => Present(d)
  }

  function FieldOutcome(fm: Formats, f: Field, input: map<string, Value>, k: string): (o: Outcome)
    ensures k !in input ==> o == AbsentOutcome(f.mode)
  {
    if k in input then
      match ParseCheck(fm, f.check, input[k])
      case Some(w) => Present(w)
      case None => Issue
    else AbsentOutcome(f.mode)
  }

  /** The keys of an object of plain fields that did not parse. */
  function FieldIssues(fm: Formats, fields: map<string, Field>, input: map<string, Value>): set<string> {
    set k | k in fields && FieldOutcome(fm, fields[k], input, k).Issue?
  }

  /** Parsing an object of plain fields. */
  function ParseFields(fm: Formats, fields: map<string, Field>, input: map<string, Value>): (r: Result<map<string, Value>, set<string>>)
    ensures r.Success? <==> forall k :: k in fields ==> !FieldOutcome(fm, fields[k], input, k).Issue?
    ensures r.Success? ==> forall k :: k in r.value <==> k in fields && FieldOutcome(fm, fields[k], input, k).Present?
  {
    var bad := FieldIssues(fm, fields, input);
    assert forall k :: k in fields && FieldOutcome(fm, fields[k], input, k).Issue? ==> k in bad;
    if bad != {} then Failure(bad)
    else Success(map k | k in fields && FieldOutcome(fm, fields[k], input, k).Present? :: FieldOutcome(fm, fields[k], input, k).value)
  }

  function EntryOutcome(fm: Formats, e: Entry, input: map<string, Value>, k: string): (o: Outcome)
    ensures k !in input ==> o == AbsentOutcome(e.Mode())
  {
    match e
    case Leaf(f) => FieldOutcome(fm, f, input, k)
    case Object(inner, mode) =>
      if k in input then
        if input[k].Obj? then
          match ParseFields(fm, inner, input[k].fields)
          case Success(out) => Present(Obj(out))
          case Failure(_) => Issue
        else Issue
      else AbsentOutcome(mode)
  }

  /** The keys of a shape that did not parse. */
  function Issues(fm: Formats, shape: Shape, input: map<string, Value>): set<string> {
    set k | k in shape && EntryOutcome(fm, shape[k], input, k).Issue?
  }

  /**
   * `schema.parse(input)`: fails with the keys that did not parse, or gives the parsed values of
   * exactly the shape's keys that are present or defaulted; keys outside the shape are dropped.
   */
  function Parse(fm: Formats, shape: Shape, input: map<string, Value>): (r: Result<map<string, Value>, set<string>>)
    ensures r.Failure? ==> r.error != {} && r.error <= shape.Keys
    ensures r.Success? <==> forall k :: k in shape ==> !EntryOutcome(fm, shape[k], input, k).Issue?
    ensures r.Success? ==> forall k :: k in r.value <==> k in shape && EntryOutcome(fm, shape[k], input, k).Present?
    ensures r.Success? ==> forall k :: k in r.value ==> r.value[k] == EntryOutcome(fm, shape[k], input, k).value
  {
    var bad := Issues(fm, shape, input);
    assert forall k :: k in shape && EntryOutcome(fm, shape[k], input, k).Issue? ==> k in bad;
    if bad != {} then Failure(bad)
    else Success(map k | k in shape && EntryOutcome(fm, shape[k], input, k).Present? :: EntryOutcome(fm, shape[k], input, k).value)
  }

  /** A successful parse holds every required key of the shape, and every key with a default. */
  lemma ParseHasRequiredKeys(fm: Formats, shape: Shape, input: map<string, Value>, k: string)
    requires Parse(fm, shape, input).Success? && k in shape && !shape[k].Mode().Optional?
    ensures k in Parse(fm, shape, input).value
  {
    var o := EntryOutcome(fm, shape[k], input, k);
    assert !o.Issue?;
    if k !in input {
      assert o == AbsentOutcome(shape[k].Mode());
    } else {
      match shape[k]
      case Leaf(f) =>
        assert o.Present?;
      case Object(inner, mode) =>
        assert o.Present?;
    }
  }

  /** A successful parse holds nothing but keys of the shape. */
  lemma ParseStrips(fm: Formats, shape: Shape, input: map<string, Value>)
    requires Parse(fm, shape, input).Success?
    ensures Parse(fm, shape, input).value.Keys <= shape.Keys
  {
  }

  /** `.pick({...})`. */
  function Pick<V>(shape: map<string, V>, keys: set<string>): (r: map<string, V>)
    ensures r.Keys == shape.Keys * keys
    ensures forall k :: k in r ==> r[k] == shape[k]
  {
    map k | k in shape && k in keys :: shape[k]
  }

  /** `.omit({...})`. */
  function Omit<V>(shape: map<string, V>, keys: set<string>): (r: map<string, V>)
    ensures r.Keys == shape.Keys - keys
    ensures forall k :: k in r ==> r[k] == shape[k]
  {
    map k | k in shape && k !in keys :: shape[k]
  }

  /** `.extend(other)`: the union of the keys, `other`'s entry winning where both have one. */
  function Extend<V>(shape: map<string, V>, other: map<string, V>): (r: map<string, V>)
    ensures r.Keys == shape.Keys + other.Keys
    ensures forall k :: k in other ==> r[k] == other[k]
    ensures forall k :: k in shape && k !in other ==> r[k] == shape[k]
  {
    shape + other
  }

  function WithMode(e: Entry, m: Mode): (r: Entry)
    ensures r.Mode() == m
  {
    match e
    case Leaf(f) => Leaf(f.(mode := m))
    case Object(inner, _) => Object(inner, m)
  }

  /** `.partial()`: the same keys and checks, every key optional. */
  function Partial(shape: Shape): (r: Shape)
    ensures r.Keys == shape.Keys
    ensures forall k :: k in r ==> r[k].Mode() == Optional
  {
    map k | k in shape :: WithMode(shape[k], Optional)
  }

  /** A shape's nested object as a shape of its own: `UserSelectSchema` used as the value of a key. */
  function Fields(shape: Shape): (r: map<string, Field>)
    ensures forall k :: k in r <==> k in shape && shape[k].Leaf?
  {
    map k | k in shape && shape[k].Leaf? :: shape[k].field
  }

  function Req(c: Check): Entry {
    Leaf(Field(c, Required))
  }
}
