/**
 * The storage converters of the rights-management-pap package: every structured
 * property of a policy is stored as JSON text, and the decoder parses a stored
 * text back only when its first character makes it look like JSON, keeping the
 * stored value whenever parsing fails.
 */
module PapConverters {
  import opened Wrappers
  import opened JsonValues
  import opened Odrl
  import opened Core

  /** A storage property declared `string | string[]` (profile and target). */
  datatype StoredText = Text(text: string) | TextList(items: seq<string>)

  /** The storage entity of this package: "@context" and every structured property are text. */
  datatype StoragePolicy = StoragePolicy(
    uid: string,
    context: string,
    policyType: string,
    profile: Option<StoredText>,
    assigner: Option<string>,
    assignee: Option<string>,
    target: Option<StoredText>,
    action: Option<string>,
    conflict: Option<string>,
    permission: Option<string>,
    prohibition: Option<string>,
    obligation: Option<string>)

  /** The first characters that make the decoder try `JSON.parse` on profile, target and action. */
  const ArrayOrObject: set<char> := {'[', '{'}

  /** The first character that makes the decoder try `JSON.parse` on assigner and assignee. */
  const ObjectOnly: set<char> := {'{'}

  /** The decoder's test `s.startsWith(c)` for some `c` among `openers`. */
  predicate LooksLikeJson(s: string, openers: set<char>) {
    |s| > 0 && s[0] in openers
  }

  /** `if (storagePolicy.profile)` on a `string | string[]` property: an array is always truthy. */
  predicate StoredTextPresent(o: Option<StoredText>) {
    o.Some? && (o.value.Text? ==> o.value.text != "")
  }

  /** A stored text property handed back as it is. */
  function RawValue(t: StoredText): Json {
    match t
    case Text(s) => JStr(s)
    case TextList(items) => JArr(MapSeq((s: string) => JStr(s), items))
  }

  // ---------------------------------------------------------------- encoding

  /** The text stored for a profile, assigner, assignee, target or action value. */
  function EncodeValue(v: Json, codec: JsonCodec): string {
    if v.JStr? then v.str else codec.stringify(v)
  }

  /** A profile, assigner, assignee, target or action property as the encoder stores it. */
  function EncodeProperty(o: Option<Json>, codec: JsonCodec): (r: Option<string>)
    ensures !Present(o) ==> r == None
    ensures Present(o) && o.value.JStr? ==> r == Some(o.value.str)
    ensures Present(o) && !o.value.JStr? ==> r == Some(codec.stringify(o.value))
  {
    if Present(o) then Some(EncodeValue(o.value, codec)) else None
  }

  /** A permission, prohibition or obligation property as the encoder stores it. */
  function EncodeRules(o: Option<Json>, codec: JsonCodec): Option<string> {
    if Present(o) then Some(codec.stringify(o.value)) else None
  }

  /** Wraps an encoded text as a `string | string[]` storage property. */
  function AsText(o: Option<string>): (r: Option<StoredText>)
    ensures r.Some? <==> o.Some?
    ensures o.Some? ==> r.value == Text(o.value)
  {
    match o
    case None => None
    case Some(s) => Some(Text(s))
  }

  /** `convertToStoragePolicy` (odrlPolicyConverters.ts, lines 17-66). */
  function ToStorage(policy: Policy, codec: JsonCodec): (s: StoragePolicy)
    ensures s.uid == policy.uid && s.policyType == policy.policyType
    ensures s.context == codec.stringify(policy.context)
    ensures s.profile == AsText(EncodeProperty(policy.profile, codec))
    ensures s.target == AsText(EncodeProperty(policy.target, codec))
    ensures s.assigner == EncodeProperty(policy.assigner, codec)
    ensures s.assignee == EncodeProperty(policy.assignee, codec)
    ensures s.action == EncodeProperty(policy.action, codec)
    ensures s.conflict == (if TextPresent(policy.conflict) then policy.conflict else None)
    ensures Present(policy.permission) ==> s.permission == Some(codec.stringify(policy.permission.value))
    ensures Present(policy.prohibition) ==> s.prohibition == Some(codec.stringify(policy.prohibition.value))
    ensures Present(policy.obligation) ==> s.obligation == Some(codec.stringify(policy.obligation.value))
    ensures !Present(policy.permission) ==> s.permission == None
    ensures !Present(policy.prohibition) ==> s.prohibition == None
    ensures !Present(policy.obligation) ==> s.obligation == None
  {
    StoragePolicy(
      policy.uid,
      codec.stringify(policy.context),
      policy.policyType,
      AsText(EncodeProperty(policy.profile, codec)),
      EncodeProperty(policy.assigner, codec),
      EncodeProperty(policy.assignee, codec),
      AsText(EncodeProperty(policy.target, codec)),
      EncodeProperty(policy.action, codec),
      if TextPresent(policy.conflict) then policy.conflict else None,
      EncodeRules(policy.permission, codec),
      EncodeRules(policy.prohibition, codec),
      EncodeRules(policy.obligation, codec))
  }

  // ---------------------------------------------------------------- decoding

  /**
   * A stored string decoded: parsed when it looks like JSON and parses, and
   * otherwise (including a failed parse) handed back as the string it is.
   */
  function DecodeString(s: string, openers: set<char>, codec: JsonCodec): (v: Json)
    ensures v != JStr(s) ==> LooksLikeJson(s, openers) && codec.parse(s) == Some(v)
    ensures LooksLikeJson(s, openers) && codec.parse(s).Some? ==> v == codec.parse(s).value
  {
    if LooksLikeJson(s, openers) && codec.parse(s).Some? then codec.parse(s).value else JStr(s)
  }

  /**
   * A stored profile or target decoded. For an array, the first element is the
   * text tested and parsed; an empty array makes `startsWith` throw, which also
   * keeps the stored value.
   */
  function DecodeText(t: StoredText, codec: JsonCodec): (v: Json)
    ensures t.Text? ==> v == DecodeString(t.text, ArrayOrObject, codec)
    ensures t.TextList? && |t.items| > 0 && LooksLikeJson(t.items[0], ArrayOrObject) && codec.parse(t.items[0]).Some? ==>
      v == codec.parse(t.items[0]).value
    ensures v != RawValue(t) ==>
      |ProbeItems(t)| > 0 && LooksLikeJson(ProbeItems(t)[0], ArrayOrObject) && codec.parse(ProbeItems(t)[0]) == Some(v)
  {
    match t
    case Text(s) => DecodeString(s, ArrayOrObject, codec)
    case TextList(items) =>
      if |items| > 0 && LooksLikeJson(items[0], ArrayOrObject) && codec.parse(items[0]).Some?
      then codec.parse(items[0]).value
      else RawValue(t)
  }

  /**
   * A stored list whose first text looks like JSON and parses decodes as that
   * first text alone would: every later text of the list is dropped.
   */
  lemma ListKeepsOnlyFirstItem(first: string, others: seq<string>, codec: JsonCodec)
    requires LooksLikeJson(first, ArrayOrObject) && codec.parse(first).Some?
    ensures DecodeText(TextList([first] + others), codec) == DecodeText(Text(first), codec)
    ensures DecodeText(TextList([first] + others), codec) == codec.parse(first).value
  {
    assert ([first] + others)[0] == first;
  }

  /** The texts a stored profile or target holds: one for a string, all elements for an array. */
  function ProbeItems(t: StoredText): seq<string> {
    match t
    case Text(s) => [s]
    case TextList(items) => items
  }

  /** A stored assigner, assignee or action decoded, when the stored string is set. */
  function DecodeProperty(o: Option<string>, openers: set<char>, codec: JsonCodec): (r: Option<Json>)
    ensures r.Some? <==> TextPresent(o)
    ensures r.Some? ==> r.value == DecodeString(o.value, openers, codec)
  {
    if TextPresent(o) then Some(DecodeString(o.value, openers, codec)) else None
  }

  /** A stored profile or target decoded, when the stored property is set. */
  function DecodeTextProperty(o: Option<StoredText>, codec: JsonCodec): (r: Option<Json>)
    ensures r.Some? <==> StoredTextPresent(o)
    ensures r.Some? ==> r.value == DecodeText(o.value, codec)
  {
    if StoredTextPresent(o) then Some(DecodeText(o.value, codec)) else None
  }

  /** A stored rule list decoded; a failed parse leaves the property undefined. */
  function DecodeRules(o: Option<string>, codec: JsonCodec): (r: Option<Json>)
    ensures r.Some? ==> TextPresent(o) && codec.parse(o.value) == r
    ensures TextPresent(o) ==> r == codec.parse(o.value)
  {
    if TextPresent(o) then codec.parse(o.value) else None
  }

  /** The decoded "@context": the parsed text, or `OdrlContexts.Context` when parsing fails. */
  function DecodeContext(s: string, codec: JsonCodec): (c: Json)
    ensures codec.parse(s).Some? ==> c == codec.parse(s).value
    ensures codec.parse(s).None? ==> c == DefaultContext
  {
    match codec.parse(s)
    case Some(v) => v
    case None => DefaultContext
  }

  /** `convertFromStoragePolicy` (odrlPolicyConverters.ts, lines 73-200). */
  function FromStorage(s: StoragePolicy, codec: JsonCodec): (p: Policy)
    // the record starts from exactly the stored uid and type
    ensures p.uid == s.uid && p.policyType == s.policyType
    ensures p.context == DecodeContext(s.context, codec)
    // no property appears unless it was set in storage
    ensures p.profile.Some? <==> StoredTextPresent(s.profile)
    ensures p.target.Some? <==> StoredTextPresent(s.target)
    ensures p.assigner.Some? <==> TextPresent(s.assigner)
    ensures p.assignee.Some? <==> TextPresent(s.assignee)
    ensures p.action.Some? <==> TextPresent(s.action)
    ensures p.conflict.Some? <==> TextPresent(s.conflict)
    ensures p.permission.Some? ==> TextPresent(s.permission)
    ensures p.prohibition.Some? ==> TextPresent(s.prohibition)
    ensures p.obligation.Some? ==> TextPresent(s.obligation)
    // what each set property becomes
    ensures p.profile.Some? ==> p.profile.value == DecodeText(s.profile.value, codec)
    ensures p.target.Some? ==> p.target.value == DecodeText(s.target.value, codec)
    ensures p.assigner.Some? ==> p.assigner.value == DecodeString(s.assigner.value, ObjectOnly, codec)
    ensures p.assignee.Some? ==> p.assignee.value == DecodeString(s.assignee.value, ObjectOnly, codec)
    ensures p.action.Some? ==> p.action.value == DecodeString(s.action.value, ArrayOrObject, codec)
    ensures p.conflict.Some? ==> p.conflict == s.conflict
    ensures p.permission == DecodeRules(s.permission, codec)
    ensures p.prohibition == DecodeRules(s.prohibition, codec)
    ensures p.obligation == DecodeRules(s.obligation, codec)
  {
    Policy(
      DecodeContext(s.context, codec),
      s.policyType,
      s.uid,
      DecodeTextProperty(s.profile, codec),
      DecodeProperty(s.assigner, ObjectOnly, codec),
      DecodeProperty(s.assignee, ObjectOnly, codec),
      DecodeTextProperty(s.target, codec),
      DecodeProperty(s.action, ArrayOrObject, codec),
      if TextPresent(s.conflict) then s.conflict else None,
      DecodeRules(s.permission, codec),
      DecodeRules(s.prohibition, codec),
      DecodeRules(s.obligation, codec))
  }

  // ---------------------------------------------------------------- round trip

  /**
   * A profile, assigner, assignee, target or action value the round trip
   * carries through unchanged: absent, a non-empty string the decoder will not
   * try to parse, or an array or object whose JSON text the decoder does parse.
   */
  predicate Preserved(o: Option<Json>, openers: set<char>) {
    match o
    case None => true
    case Some(v) =>
      match v
      case JStr(s) => s != "" && !LooksLikeJson(s, openers)
      case JArr(_) => '[' in openers
      case JObj(_) => '{' in openers
      case _ => false
  }

  /** A policy whose optional properties are each absent or truthy, in a form the decoder restores. */
  predicate Encodable(p: Policy) {
    && Preserved(p.profile, ArrayOrObject)
    && Preserved(p.target, ArrayOrObject)
    && Preserved(p.action, ArrayOrObject)
    && Preserved(p.assigner, ObjectOnly)
    && Preserved(p.assignee, ObjectOnly)
    && (p.conflict.Some? ==> p.conflict.value != "")
    && (p.permission.Some? ==> Truthy(p.permission.value))
    && (p.prohibition.Some? ==> Truthy(p.prohibition.value))
    && (p.obligation.Some? ==> Truthy(p.obligation.value))
  }

  /** One property through `EncodeProperty` and the decoder comes back unchanged. */
  lemma PropertyRoundTrip(o: Option<Json>, openers: set<char>, codec: JsonCodec)
    requires Lawful(codec)
    requires openers == ArrayOrObject || openers == ObjectOnly
    requires Preserved(o, openers)
    ensures DecodeProperty(EncodeProperty(o, codec), openers, codec) == o
    ensures openers == ArrayOrObject ==> DecodeTextProperty(AsText(EncodeProperty(o, codec)), codec) == o
  {
    if o.Some? {
      var v := o.value;
      match v
      case JStr(s) =>
      case JArr(items) =>
        assert StartsWith(codec.stringify(JArr(items)), '[');
        assert codec.parse(codec.stringify(v)) == Some(v);
      case JObj(members) =>
        assert StartsWith(codec.stringify(JObj(members)), '{');
        assert codec.parse(codec.stringify(v)) == Some(v);
    }
  }

  /** A rule list through the encoder and the decoder comes back unchanged. */
  lemma RulesRoundTrip(o: Option<Json>, codec: JsonCodec)
    requires Lawful(codec)
    requires o.Some? ==> Truthy(o.value)
    ensures DecodeRules(EncodeRules(o, codec), codec) == o
  {
    if o.Some? {
      StringifyInvertible(codec, o.value);
    }
  }

  /**
   * Round trip: a policy whose optional properties are absent or truthy and
   * whose string properties do not look like JSON is restored exactly.
   */
  lemma RoundTrip(p: Policy, codec: JsonCodec)
    requires Lawful(codec)
    requires Encodable(p)
    ensures FromStorage(ToStorage(p, codec), codec) == p
  {
    assert codec.parse(codec.stringify(p.context)) == Some(p.context);
    PropertyRoundTrip(p.profile, ArrayOrObject, codec);
    PropertyRoundTrip(p.target, ArrayOrObject, codec);
    PropertyRoundTrip(p.action, ArrayOrObject, codec);
    PropertyRoundTrip(p.assigner, ObjectOnly, codec);
    PropertyRoundTrip(p.assignee, ObjectOnly, codec);
    RulesRoundTrip(p.permission, codec);
    RulesRoundTrip(p.prohibition, codec);
    RulesRoundTrip(p.obligation, codec);
  }

  /**
   * Whatever the policy, the round trip keeps uid, "@type" and "@context",
   * keeps every present rule list, and drops every optional property that is
   * absent or falsy.
   */
  lemma RoundTripKeepsIdentityAndRules(p: Policy, codec: JsonCodec)
    requires Lawful(codec)
    ensures var q := FromStorage(ToStorage(p, codec), codec);
      && q.uid == p.uid && q.policyType == p.policyType && q.context == p.context
      && (Present(p.permission) ==> q.permission == p.permission)
      && (Present(p.prohibition) ==> q.prohibition == p.prohibition)
      && (Present(p.obligation) ==> q.obligation == p.obligation)
      && (!Present(p.profile) ==> q.profile == None)
      && (!Present(p.target) ==> q.target == None)
      && (!Present(p.assigner) ==> q.assigner == None)
      && (!Present(p.assignee) ==> q.assignee == None)
      && (!Present(p.action) ==> q.action == None)
      && (!TextPresent(p.conflict) ==> q.conflict == None)
      && (!Present(p.permission) ==> q.permission == None)
      && (!Present(p.prohibition) ==> q.prohibition == None)
      && (!Present(p.obligation) ==> q.obligation == None)
  {
    assert codec.parse(codec.stringify(p.context)) == Some(p.context);
    if Present(p.permission) {
      StringifyInvertible(codec, p.permission.value);
    }
    if Present(p.prohibition) {
      StringifyInvertible(codec, p.prohibition.value);
    }
    if Present(p.obligation) {
      StringifyInvertible(codec, p.obligation.value);
    }
  }

  /**
   * What the round trip loses even under the laws: a truthy number or boolean
   * profile, target, action, assigner or assignee comes back as its JSON text
   * (that text does not start with '[' or '{', so the decoder does not parse
   * it), and an array assigner or assignee comes back as its JSON text too
   * (the decoder parses those two only when they start with '{').
   */
  lemma ScalarAndArrayLosses(p: Policy, codec: JsonCodec)
    requires Lawful(codec)
    ensures var q := FromStorage(ToStorage(p, codec), codec);
      && (Present(p.profile) && (p.profile.value.JNum? || p.profile.value.JBool?) ==>
            q.profile == Some(JStr(codec.stringify(p.profile.value))))
      && (Present(p.target) && (p.target.value.JNum? || p.target.value.JBool?) ==>
            q.target == Some(JStr(codec.stringify(p.target.value))))
      && (Present(p.action) && (p.action.value.JNum? || p.action.value.JBool?) ==>
            q.action == Some(JStr(codec.stringify(p.action.value))))
      && (Present(p.assigner) && !p.assigner.value.JStr? && !p.assigner.value.JObj? ==>
            q.assigner == Some(JStr(codec.stringify(p.assigner.value))))
      && (Present(p.assignee) && !p.assignee.value.JStr? && !p.assignee.value.JObj? ==>
            q.assignee == Some(JStr(codec.stringify(p.assignee.value))))
  {
    TextPropertyLoss(p.profile, codec);
    TextPropertyLoss(p.target, codec);
    PropertyLoss(p.action, ArrayOrObject, codec);
    PropertyLoss(p.assigner, ObjectOnly, codec);
    PropertyLoss(p.assignee, ObjectOnly, codec);
  }

  /** A present non-string value whose JSON text the decoder does not test comes back as that text. */
  lemma PropertyLoss(o: Option<Json>, openers: set<char>, codec: JsonCodec)
    requires Lawful(codec)
    requires openers == ArrayOrObject || openers == ObjectOnly
    ensures Present(o) && !o.value.JStr? && !o.value.JObj? && (o.value.JArr? ==> openers == ObjectOnly) ==>
      DecodeProperty(EncodeProperty(o, codec), openers, codec) == Some(JStr(codec.stringify(o.value)))
  {
    if Present(o) && !o.value.JStr? && !o.value.JObj? && (o.value.JArr? ==> openers == ObjectOnly) {
      var v := o.value;
      StringifyInvertible(codec, v);
      if v.JArr? {
        assert StartsWith(codec.stringify(JArr(v.items)), '[');
      } else {
        assert !StartsWith(codec.stringify(v), '[') && !StartsWith(codec.stringify(v), '{');
      }
    }
  }

  /** The same for a profile or target, stored as a single text. */
  lemma TextPropertyLoss(o: Option<Json>, codec: JsonCodec)
    requires Lawful(codec)
    ensures Present(o) && (o.value.JNum? || o.value.JBool?) ==>
      DecodeTextProperty(AsText(EncodeProperty(o, codec)), codec) == Some(JStr(codec.stringify(o.value)))
  {
    if Present(o) && (o.value.JNum? || o.value.JBool?) {
      PropertyLoss(o, ArrayOrObject, codec);
    }
  }
}

