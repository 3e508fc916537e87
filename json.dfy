/**
 * JavaScript values as they travel through the policy converters, the truthiness
 * test the converters apply to them, and `JSON.stringify` / `JSON.parse` as a codec
 * whose laws are stated once, in `Lawful`.
 */
module JsonValues {
  import opened Wrappers

  /** A finite decimal number `mantissa × 10^exponent`. */
  datatype Decimal = Decimal(mantissa: int, exponent: int)

  /**
   * The one way of writing each number: zero is `0 × 10^0`, and any other
   * mantissa has no trailing zero digit.
   */
  predicate Canonical(d: Decimal) {
    if d.mantissa == 0 then d.exponent == 0 else d.mantissa % 10 != 0
  }

  /** A JSON number, each value written in exactly one way. */
  type Number = d: Decimal | Canonical(d) witness Decimal(0, 0)

  /** A JSON value. Object members keep their insertion order. */
  datatype Json =
    | JNull
    | JBool(b: bool)
    | JNum(num: Number)
    | JStr(str: string)
    | JArr(items: seq<Json>)
    | JObj(members: seq<(string, Json)>)

  /** JavaScript truthiness of a value (`if (x)`); NaN is not modelled. */
  predicate Truthy(v: Json) {
    match v
    case JNull => false
    case JBool(b) => b
    case JNum(d) => d.mantissa != 0
    case JStr(s) => s != ""
    case JArr(_) => true
    case JObj(_) => true
  }

  /** An optional property that passes `if (policy.x)`: defined and truthy. */
  predicate Present(o: Option<Json>) {
    o.Some? && Truthy(o.value)
  }

  /** An optional string property that passes `if (x)`: defined and not empty. */
  predicate TextPresent(o: Option<string>) {
    o.Some? && o.value != ""
  }

  /** `s.startsWith(c)` for a one-character prefix. */
  predicate StartsWith(s: string, c: char) {
    |s| > 0 && s[0] == c
  }

  /**
   * `JSON.stringify` and `JSON.parse`. Both are foreign to the repository; `parse`
   * answers `None` where the JavaScript function throws.
   */
  datatype JsonCodec = JsonCodec(stringify: Json -> string, parse: string -> Option<Json>)

  /**
   * The laws the converters rely on: parsing a stringified value gives the value
   * back, the empty text does not parse (`JSON.parse("")` throws), an object's
   * text starts with '{', an array's text starts with '[', and no other value's
   * text starts with either (JSON writes `null`, `true`, `false`, numbers and
   * quoted strings). `ExampleCodec.CodecIsLawful` shows the laws can all hold.
   */
  ghost predicate Lawful(codec: JsonCodec) {
    && (forall v: Json :: codec.parse(codec.stringify(v)) == Some(v))
    && codec.parse("") == None
    && (forall ms: seq<(string, Json)> :: StartsWith(codec.stringify(JObj(ms)), '{'))
    && (forall vs: seq<Json> :: StartsWith(codec.stringify(JArr(vs)), '['))
    && (forall v: Json :: !v.JArr? && !v.JObj? ==>
          !StartsWith(codec.stringify(v), '[') && !StartsWith(codec.stringify(v), '{'))
  }

  /** Under the laws, every value's JSON text is non-empty and parses back to the value. */
  lemma StringifyInvertible(codec: JsonCodec, v: Json)
    requires Lawful(codec)
    ensures codec.stringify(v) != "" && codec.parse(codec.stringify(v)) == Some(v)
  {
    assert codec.parse(codec.stringify(v)) == Some(v);
  }
}
