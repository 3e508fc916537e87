/**
 * The pieces of the platform libraries the components lean on: the errors they
 * throw, the argument guards (`Guards` and `Is`), `Array.prototype.map`, and the
 * request and answer of an entity-storage query.
 */
module Core {
  import opened Wrappers
  import opened JsonValues
  import opened Odrl

  /** The errors the components throw. */
  datatype Error =
    | GuardError(property: string)                          // a `Guards.*` check failed for this argument
    | GeneralError(message: string, policyId: string)       // `GeneralError` with the id in its properties
    | NotFoundError(message: string, id: Option<string>)    // `NotFoundError`, with or without the id
    | ValidationError                                       // JSON-LD validation reported failures

  /** `Is.empty`: the argument is `undefined` or `null`. */
  predicate IsEmpty(v: Option<Json>) {
    v.None? || v.value.JNull?
  }

  /** `Is.object`: a non-null, non-array object. */
  predicate IsObject(v: Json) {
    v.JObj?
  }

  /** `Is.number`. */
  predicate IsNumber(v: Json) {
    v.JNum?
  }

  /**
   * `Is.integer`: a number with no fractional part. For a canonical decimal
   * that is exactly a non-negative exponent (see `NegativeExponentIsFractional`).
   */
  predicate IsInteger(v: Json) {
    v.JNum? && v.num.exponent >= 0
  }

  /** `10^k`. */
  function Pow10(k: nat): (p: nat)
    ensures p >= 1
  {
    if k == 0 then 1 else 10 * Pow10(k - 1)
  }

  /** A multiple of `10^k`, for `k >= 1`, is a multiple of 10. */
  lemma MultipleOfPow10(m: int, k: nat)
    requires k >= 1 && m % Pow10(k) == 0
    ensures m % 10 == 0
  {
    var q := m / Pow10(k);
    assert m == Pow10(k) * q;
    assert m == 10 * (Pow10(k - 1) * q);
  }

  /**
   * A canonical decimal with a negative exponent `-k` is not a whole number:
   * its mantissa is no multiple of `10^k`.
   */
  lemma NegativeExponentIsFractional(d: Number)
    requires d.exponent < 0
    ensures d.mantissa % Pow10(-d.exponent) != 0
  {
    if d.mantissa % Pow10(-d.exponent) == 0 {
      MultipleOfPow10(d.mantissa, -d.exponent);
    }
  }

  /** `Is.stringValue` on an optional string: defined and not empty. */
  predicate IsStringValue(s: Option<string>) {
    s.Some? && s.value != ""
  }

  /** An entity table whose every entry sits under its own primary key `key(entity)`. */
  ghost predicate KeyedBy<E>(entities: map<string, E>, key: E -> string) {
    forall id :: id in entities ==> key(entities[id]) == id
  }

  /** `Array.prototype.map`: one image per element, in the same order. */
  function MapSeq<A, B>(f: A -> B, s: seq<A>): (r: seq<B>)
    ensures |r| == |s|
    ensures forall i :: 0 <= i < |s| ==> r[i] == f(s[i])
  {
    if s == [] then [] else [f(s[0])] + MapSeq(f, s[1..])
  }

  /** The arguments a component forwards to the entity storage's `query`. */
  datatype QueryRequest = QueryRequest(
    conditions: Option<Json>,
    cursor: Option<string>,
    pageSize: Number,
    userIdentity: Option<string>,
    nodeIdentity: Option<string>)

  /** What the entity storage's `query` answers: one page of entities. */
  datatype Page<E> = Page(entities: seq<E>, cursor: Option<string>)

  /** What a component's `query` answers. */
  datatype QueryResponse = QueryResponse(cursor: Option<string>, policies: seq<Policy>)
}
