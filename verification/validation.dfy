/**
 The part of Zod that the modelled schemas use. A schema is a `Kind`;
 `Parse` either rejects a value (a `ZodError`, here `None`) or returns it
 normalised the way `schema.parse` does: keys an object schema does not
 declare are stripped, and a missing key that has a `.default(...)` is
 filled with the default, which is itself checked against the field's kind.
 */
module Validation {
  import opened Values

  /** How an object key may be missing: `.optional()`, `.default(v)`, or
      neither (the key is required). */
  datatype Presence = Required | Optional | Default(value: Value)

  datatype Kind =
    | AnyString                         // z.string()
    | ExactLength(len: nat)             // z.string().length(n)
    | LengthBetween(shortest: nat, longest: nat) // z.string().min(a).max(b)
    | Uuid                              // z.string().uuid()
    | Email                             // z.string().email()
    | Number(min: Option<real>)         // z.number(), optionally .min(m)
    | Integer(min: Option<real>)        // z.number().int(), optionally .min(m)
    | Boolean                           // z.boolean()
    | OneOf(options: seq<string>)       // z.enum([...])
    | Timestamp                         // z.date()
    | ListOf(item: Kind)                // z.array(item)
    | Shape(fields: map<string, Spec>)  // z.object({...})

  datatype Spec = Spec(kind: Kind, presence: Presence)

  predicate IsHexDigit(c: char) {
    ('0' <= c <= '9') || ('a' <= c <= 'f') || ('A' <= c <= 'F')
  }

  /** Zod's UUID format: 8-4-4-4-12 hexadecimal digits separated by hyphens. */
  predicate IsUuid(s: string) {
    |s| == 36 &&
    forall i | 0 <= i < 36 ::
      if i == 8 || i == 13 || i == 18 || i == 23 then s[i] == '-' else IsHexDigit(s[i])
  }

  predicate AtLeast(n: real, min: Option<real>) {
    min.Some? ==> n >= min.value
  }

  /** The values a schema accepts. A declared key that is absent is
      accepted when it is optional, or when its default is accepted. */
  predicate Valid(k: Kind, v: Value)
    decreases k
  {
    match k
    case AnyString => v.Str?
    case ExactLength(n) => v.Str? && |v.s| == n
    case LengthBetween(lo, hi) => v.Str? && lo <= |v.s| <= hi
    case Uuid => v.Str? && IsUuid(v.s)
    case Email => v.Str?
    case Number(min) => v.Num? && AtLeast(v.n, min)
    case Integer(min) => v.Num? && IsInteger(v.n) && AtLeast(v.n, min)
    case Boolean => v.Bool?
    case OneOf(options) => v.Str? && v.s in options
    case Timestamp => v.Date?
    case ListOf(item) => v.Arr? && forall i | 0 <= i < |v.items| :: Valid(item, v.items[i])
    case Shape(fields) =>
      v.Obj? &&
      forall name | name in fields ::
        if name in v.fields then Valid(fields[name].kind, v.fields[name])
        else match fields[name].presence
          case Required => false
          case Optional => true
          case Default(d) => Valid(fields[name].kind, d)
  }

  /** Whether the normalised object carries `name`: it was given, or it has a default. */
  predicate Kept(spec: Spec, given: map<string, Value>, name: string) {
    name in given || spec.presence.Default?
  }

  /** The output of a successful parse. */
  function Normalize(k: Kind, v: Value): Value
    requires Valid(k, v)
    decreases k
  {
    match k
    case ListOf(item) =>
      Arr(seq(|v.items|, i requires 0 <= i < |v.items| => Normalize(item, v.items[i])))
    case Shape(fields) =>
      Obj(map name | name in fields && Kept(fields[name], v.fields, name) ::
            if name in v.fields then Normalize(fields[name].kind, v.fields[name])
            else Normalize(fields[name].kind, fields[name].presence.value))
    case _ => v
  }

  /** `schema.parse(v)`: `None` stands for the thrown `ZodError`. */
  function Parse(k: Kind, v: Value): (r: Option<Value>)
    ensures r.Some? <==> Valid(k, v)
    ensures r.Some? ==> Valid(k, r.value)
    ensures r.Some? ==> Normalize(k, r.value) == r.value
  {
    if Valid(k, v) then
      NormalizeValid(k, v);
      NormalizeIdempotent(k, v);
      Some(Normalize(k, v))
    else None
  }

  /** Parsing is idempotent: the output of a parse parses to itself. */
  lemma ParseIdempotent(k: Kind, v: Value)
    requires Parse(k, v).Some?
    ensures Parse(k, Parse(k, v).value) == Parse(k, v)
  {
  }

  /** What a parse returns is itself accepted by the schema. */
  lemma {:induction false} NormalizeValid(k: Kind, v: Value)
    requires Valid(k, v)
    ensures Valid(k, Normalize(k, v))
    decreases k
  {
    match k
    case ListOf(item) =>
      var out := Normalize(k, v);
      forall i | 0 <= i < |out.items|
        ensures Valid(item, out.items[i])
      {
        NormalizeValid(item, v.items[i]);
      }
    case Shape(fields) =>
      var out := Normalize(k, v);
      forall name | name in fields
        ensures if name in out.fields then Valid(fields[name].kind, out.fields[name])
                else match fields[name].presence
                  case Required => false
                  case Optional => true
                  case Default(d) => Valid(fields[name].kind, d)
      {
        var spec := fields[name];
        if name in v.fields {
          NormalizeValid(spec.kind, v.fields[name]);
        } else if spec.presence.Default? {
          NormalizeValid(spec.kind, spec.presence.value);
        }
      }
    case _ =>
  }

  /** Parsing what a parse returned gives the same value back. */
  lemma {:induction false} NormalizeIdempotent(k: Kind, v: Value)
    requires Valid(k, v)
    ensures Valid(k, Normalize(k, v)) && Normalize(k, Normalize(k, v)) == Normalize(k, v)
    decreases k
  {
    NormalizeValid(k, v);
    var out := Normalize(k, v);
    match k
    case ListOf(item) =>
      var again := Normalize(k, out);
      assert |again.items| == |out.items|;
      forall i | 0 <= i < |out.items|
        ensures again.items[i] == out.items[i]
      {
        NormalizeIdempotent(item, v.items[i]);
      }
    case Shape(fields) =>
      var again := Normalize(k, out);
      assert again.fields.Keys == out.fields.Keys;
      forall name | name in out.fields
        ensures again.fields[name] == out.fields[name]
      {
        var spec := fields[name];
        if name in v.fields {
          NormalizeIdempotent(spec.kind, v.fields[name]);
        } else {
          NormalizeIdempotent(spec.kind, spec.presence.value);
        }
      }
    case _ =>
  }

  // ---------------------------------------------------------------------
  // Facts about object schemas, used by the concrete schemas
  // ---------------------------------------------------------------------

  /** The normalised fields of a successfully parsed object. */
  function Parsed(fields: map<string, Spec>, v: Value): map<string, Value>
    requires Valid(Shape(fields), v)
  {
    Normalize(Shape(fields), v).fields
  }

  /** A parsed object has exactly the declared keys that were given or
      defaulted, each holding a value of its field's kind. */
  lemma ParsedShape(fields: map<string, Spec>, v: Value, name: string)
    requires Valid(Shape(fields), v)
    ensures name in Parsed(fields, v) <==> name in fields && Kept(fields[name], v.fields, name)
    ensures name in Parsed(fields, v) ==> Valid(fields[name].kind, Parsed(fields, v)[name])
  {
    NormalizeValid(Shape(fields), v);
  }

  /** A declared key that was given keeps its (normalised) value. */
  lemma GivenField(fields: map<string, Spec>, v: Value, name: string)
    requires Valid(Shape(fields), v)
    requires name in fields && name in v.fields
    ensures name in Parsed(fields, v)
    ensures Parsed(fields, v)[name] == Normalize(fields[name].kind, v.fields[name])
  {
  }

  /** A missing key with a default holds the default after parsing. */
  lemma DefaultedField(fields: map<string, Spec>, v: Value, name: string)
    requires Valid(Shape(fields), v)
    requires name in fields && fields[name].presence.Default? && name !in v.fields
    ensures name in Parsed(fields, v)
    ensures Parsed(fields, v)[name] == Normalize(fields[name].kind, fields[name].presence.value)
  {
  }

  /** A missing required key makes the parse fail. */
  lemma MissingRequiredFails(fields: map<string, Spec>, v: Value, name: string)
    requires name in fields && fields[name].presence.Required?
    requires v.Obj? ==> name !in v.fields
    ensures Parse(Shape(fields), v).None?
  {
  }

  /** Only objects pass an object schema. */
  lemma NonObjectFails(fields: map<string, Spec>, v: Value)
    requires !v.Obj?
    ensures Parse(Shape(fields), v).None?
  {
  }
}
