/**
 * JSON Type Definition (RFC 8927): the schema forms the user model uses and
 * the validation semantics of RFC 8927 section 3.3 for them.
 *
 * Covered forms: "type" (RFC 8927 section 3.3.3, every type except "timestamp"),
 * "enum" (RFC 8927 section 3.3.4) and "properties"/"optionalProperties" (RFC 8927 section 3.3.6),
 * each with the "nullable" flag of RFC 8927 section 3.3. The validator only answers
 * accepted/rejected; the error indicators of RFC 8927 section 3.2 are not produced.
 */
module Jtd {
  import opened Json

  datatype TypeName =
    | BooleanType | StringType | Float32 | Float64
    | Int8 | Uint8 | Int16 | Uint16 | Int32 | Uint32

  datatype Schema =
    | TypeForm(typ: TypeName, nullable: bool)
    | EnumForm(values: seq<string>, nullable: bool)
    | PropertiesForm(required: seq<Property>, optional: seq<Property>, additional: bool, nullable: bool)

  /** One member of "properties" or "optionalProperties". */
  datatype Property = Property(key: string, schema: Schema)

  /** The member names a list of properties declares. */
  function Keys(props: seq<Property>): set<string> {
    set i | 0 <= i < |props| :: props[i].key
  }

  predicate IntegerIn(v: Json, lo: int, hi: int) {
    v.JInt? && lo <= v.n <= hi
  }

  /** RFC 8927 section 3.3.3: what each type name accepts. Integer types want a number
      with zero fractional part inside the type's range. */
  predicate AcceptsType(t: TypeName, v: Json) {
    match t
    case BooleanType => v.JBool?
    case StringType => v.JString?
    case Float32 => v.JInt? || v.JFraction?
    case Float64 => v.JInt? || v.JFraction?
    case Int8 => IntegerIn(v, -128, 127)
    case Uint8 => IntegerIn(v, 0, 255)
    case Int16 => IntegerIn(v, -32768, 32767)
    case Uint16 => IntegerIn(v, 0, 65535)
    case Int32 => IntegerIn(v, -2147483648, 2147483647)
    case Uint32 => IntegerIn(v, 0, 4294967295)
  }

  /** RFC 8927 section 2 (syntax): a properties form may not name the same key twice,
      neither within nor across "properties" and "optionalProperties"; an enum
      is non-empty and has no repeated value. */
  predicate WellFormed(s: Schema)
    decreases s
  {
    match s
    case TypeForm(_, _) => true
    case EnumForm(values, _) =>
      |values| > 0 && forall i, j | 0 <= i < j < |values| :: values[i] != values[j]
    case PropertiesForm(required, optional, _, _) =>
      var all := required + optional;
      && (forall i, j | 0 <= i < j < |all| :: all[i].key != all[j].key)
      && (forall i | 0 <= i < |required| :: WellFormed(required[i].schema))
      && (forall i | 0 <= i < |optional| :: WellFormed(optional[i].schema))
  }

  /** RFC 8927 section 3.3: does instance `v` satisfy schema `s`? A null instance is
      accepted exactly when the schema is nullable; otherwise the form decides. */
  predicate Valid(s: Schema, v: Json)
    ensures v.JNull? ==> (Valid(s, v) <==> s.nullable)
    decreases s
  {
    (s.nullable && v.JNull?) ||
    match s
    case TypeForm(t, _) => AcceptsType(t, v)
    case EnumForm(values, _) => v.JString? && v.s in values
    case PropertiesForm(required, optional, additional, _) =>
      && v.JObject?
      && (forall i | 0 <= i < |required| ::
            required[i].key in v.members && Valid(required[i].schema, v.members[required[i].key]))
      && (forall i | 0 <= i < |optional| ::
            optional[i].key in v.members ==> Valid(optional[i].schema, v.members[optional[i].key]))
      && (additional || forall k | k in v.members :: k in Keys(required) || k in Keys(optional))
  }

  /** The "properties" members, checked one after another. */
  predicate RequiredHold(props: seq<Property>, m: map<string, Json>)
    decreases props
  {
    props == [] ||
    (props[0].key in m && Valid(props[0].schema, m[props[0].key]) && RequiredHold(props[1..], m))
  }

  /** The "optionalProperties" members, checked one after another. */
  predicate OptionalHold(props: seq<Property>, m: map<string, Json>)
    decreases props
  {
    props == [] ||
    ((props[0].key in m ==> Valid(props[0].schema, m[props[0].key])) && OptionalHold(props[1..], m))
  }

  lemma {:induction false} RequiredHoldMeans(props: seq<Property>, m: map<string, Json>)
    ensures RequiredHold(props, m) <==>
      forall i | 0 <= i < |props| :: props[i].key in m && Valid(props[i].schema, m[props[i].key])
    decreases props
  {
    if props != [] {
      RequiredHoldMeans(props[1..], m);
      assert forall i | 1 <= i < |props| :: props[i] == props[1..][i - 1];
    }
  }

  lemma {:induction false} OptionalHoldMeans(props: seq<Property>, m: map<string, Json>)
    ensures OptionalHold(props, m) <==>
      forall i | 0 <= i < |props| :: props[i].key in m ==> Valid(props[i].schema, m[props[i].key])
    decreases props
  {
    if props != [] {
      OptionalHoldMeans(props[1..], m);
      assert forall i | 1 <= i < |props| :: props[i] == props[1..][i - 1];
    }
  }

  /** The properties form, stated member by member. */
  lemma PropertiesValid(s: Schema, v: Json)
    requires s.PropertiesForm? && !s.nullable
    ensures Valid(s, v) <==>
      && v.JObject?
      && RequiredHold(s.required, v.members)
      && OptionalHold(s.optional, v.members)
      && (s.additional || v.members.Keys <= Keys(s.required) + Keys(s.optional))
  {
    if v.JObject? {
      RequiredHoldMeans(s.required, v.members);
      OptionalHoldMeans(s.optional, v.members);
    }
  }
}
