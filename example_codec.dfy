/**
 * A concrete codec that meets every law of `JsonValues.Lawful`, so the laws the
 * converters' round trips assume are consistent. Its text is not JSON text: it
 * writes a tag character, then lengths in unary, then the parts; only the
 * object and array tags coincide with the JSON ones.
 */
module ExampleCodec {
  import opened Wrappers
  import opened JsonValues
  import opened Odrl
  import PapConverters

  // ---------------------------------------------------------------- writing

  /** `k` written as `k` ones and a full stop. */
  function Unary(k: nat): string {
    if k == 0 then "." else "1" + Unary(k - 1)
  }

  /** An integer: its sign, then its magnitude in unary. */
  function IntText(i: int): string {
    if i < 0 then "-" + Unary(-i) else "+" + Unary(i)
  }

  /** A string: its length in unary, then its characters. */
  function Text(s: string): string {
    Unary(|s|) + s
  }

  function Serialize(v: Json): string
    decreases v
  {
    match v
    case JNull => "n"
    case JBool(b) => if b then "t" else "f"
    case JNum(d) => "d" + IntText(d.mantissa) + IntText(d.exponent)
    case JStr(s) => "s" + Text(s)
    case JArr(items) => "[" + Unary(|items|) + SerializeItems(items)
    case JObj(members) => "{" + Unary(|members|) + SerializeMembers(members)
  }

  function SerializeItems(items: seq<Json>): string
    decreases items
  {
    if items == [] then "" else Serialize(items[0]) + SerializeItems(items[1..])
  }

  function SerializeMembers(members: seq<(string, Json)>): string
    decreases members
  {
    if members == [] then ""
    else
      var member := members[0];
      assert member in members && member.1 < member;
      Text(member.0) + Serialize(member.1) + SerializeMembers(members[1..])
  }

  // ---------------------------------------------------------------- reading

  /** Reads a unary number off the front of `s`; answers it and what follows. */
  function ParseUnary(s: string): (r: Option<(nat, string)>)
    ensures r.Some? ==> |r.value.1| < |s|
  {
    if |s| == 0 then None
    else if s[0] == '.' then Some((0, s[1..]))
    else if s[0] == '1' then
      match ParseUnary(s[1..])
      case None => None
      case Some((k, rest)) => Some((k + 1, rest))
    else None
  }

  function ParseInt(s: string): (r: Option<(int, string)>)
    ensures r.Some? ==> |r.value.1| < |s|
  {
    if |s| == 0 || (s[0] != '-' && s[0] != '+') then None
    else
      match ParseUnary(s[1..])
      case None => None
      case Some((k, rest)) => Some((if s[0] == '-' then -(k as int) else k as int, rest))
  }

  function ParseText(s: string): (r: Option<(string, string)>)
    ensures r.Some? ==> |r.value.1| < |s|
  {
    match ParseUnary(s)
    case None => None
    case Some((k, rest)) => if k <= |rest| then Some((rest[..k], rest[k..])) else None
  }

  /** Reads one value off the front of `s`, dispatching on its tag character. */
  function ParseValue(s: string): (r: Option<(Json, string)>)
    ensures r.Some? ==> |r.value.1| < |s|
    decreases |s|, 0, 0
  {
    if |s| == 0 then None
    else
      match s[0]
      case 'n' => Some((JNull, s[1..]))
      case 't' => Some((JBool(true), s[1..]))
      case 'f' => Some((JBool(false), s[1..]))
      case 'd' => ParseNumber(s[1..])
      case 's' => ParseString(s[1..])
      case '[' => ParseArray(s[1..])
      case '{' => ParseObject(s[1..])
      case _ => None
  }

  function ParseNumber(s: string): (r: Option<(Json, string)>)
    ensures r.Some? ==> |r.value.1| < |s|
  {
    match ParseInt(s)
    case None => None
    case Some((m, rest)) =>
      match ParseInt(rest)
      case None => None
      case Some((e, rest')) =>
        if Canonical(Decimal(m, e)) then Some((JNum(Decimal(m, e)), rest')) else None
  }

  function ParseString(s: string): (r: Option<(Json, string)>)
    ensures r.Some? ==> |r.value.1| < |s|
  {
    match ParseText(s)
    case None => None
    case Some((str, rest)) => Some((JStr(str), rest))
  }

  function ParseArray(s: string): (r: Option<(Json, string)>)
    ensures r.Some? ==> |r.value.1| < |s|
    decreases |s|, 2, 0
  {
    match ParseUnary(s)
    case None => None
    case Some((k, rest)) =>
      match ParseItems(rest, k)
      case None => None
      case Some((items, rest')) => Some((JArr(items), rest'))
  }

  function ParseObject(s: string): (r: Option<(Json, string)>)
    ensures r.Some? ==> |r.value.1| < |s|
    decreases |s|, 2, 0
  {
    match ParseUnary(s)
    case None => None
    case Some((k, rest)) =>
      match ParseMembers(rest, k)
      case None => None
      case Some((members, rest')) => Some((JObj(members), rest'))
  }

  function ParseItems(s: string, k: nat): (r: Option<(seq<Json>, string)>)
    ensures r.Some? ==> |r.value.1| <= |s|
    decreases |s|, 1, k
  {
    if k == 0 then Some(([], s))
    else
      match ParseValue(s)
      case None => None
      case Some((v, rest)) =>
        match ParseItems(rest, k - 1)
        case None => None
        case Some((vs, rest')) => Some(([v] + vs, rest'))
  }

  function ParseMembers(s: string, k: nat): (r: Option<(seq<(string, Json)>, string)>)
    ensures r.Some? ==> |r.value.1| <= |s|
    decreases |s|, 1, k
  {
    if k == 0 then Some(([], s))
    else
      match ParseText(s)
      case None => None
      case Some((key, rest)) =>
        match ParseValue(rest)
        case None => None
        case Some((v, rest')) =>
          match ParseMembers(rest', k - 1)
          case None => None
          case Some((ms, rest'')) => Some(([(key, v)] + ms, rest''))
  }

  /** The whole text must be exactly one value. */
  function Parse(s: string): Option<Json> {
    match ParseValue(s)
    case None => None
    case Some((v, rest)) => if rest == "" then Some(v) else None
  }

  /** The codec built from `Serialize` and `Parse`. */
  function Codec(): JsonCodec {
    JsonCodec(Serialize, Parse)
  }

  // ---------------------------------------------------------------- round trips

  lemma {:induction false} UnaryRoundTrip(k: nat, rest: string)
    ensures ParseUnary(Unary(k) + rest) == Some((k, rest))
  {
    if k == 0 {
      assert (Unary(0) + rest)[1..] == rest;
    } else {
      assert Unary(k) + rest == "1" + (Unary(k - 1) + rest);
      UnaryRoundTrip(k - 1, rest);
    }
  }

  lemma IntRoundTrip(i: int, rest: string)
    ensures ParseInt(IntText(i) + rest) == Some((i, rest))
  {
    var k := if i < 0 then -i else i;
    UnaryRoundTrip(k, rest);
    assert (IntText(i) + rest)[1..] == Unary(k) + rest;
  }

  lemma TextRoundTrip(s: string, rest: string)
    ensures ParseText(Text(s) + rest) == Some((s, rest))
  {
    assert Text(s) + rest == Unary(|s|) + (s + rest);
    UnaryRoundTrip(|s|, s + rest);
    assert (s + rest)[..|s|] == s && (s + rest)[|s|..] == rest;
  }

  lemma {:induction false} ValueRoundTrip(v: Json, rest: string)
    ensures ParseValue(Serialize(v) + rest) == Some((v, rest))
    decreases v
  {
    match v
    case JNull =>
      assert (Serialize(v) + rest)[1..] == rest;
    case JBool(b) =>
      assert (Serialize(v) + rest)[1..] == rest;
    case JNum(d) =>
      NumberRoundTrip(d, rest);
    case JStr(str) =>
      assert (Serialize(v) + rest)[1..] == Text(str) + rest;
      TextRoundTrip(str, rest);
    case JArr(items) =>
      ItemsRoundTrip(items, rest);
      ArrayRoundTrip(items, rest);
    case JObj(members) =>
      MembersRoundTrip(members, rest);
      ObjectRoundTrip(members, rest);
  }

  lemma NumberRoundTrip(d: Number, rest: string)
    ensures ParseValue(Serialize(JNum(d)) + rest) == Some((JNum(d), rest))
  {
    var s := Serialize(JNum(d)) + rest;
    assert s[1..] == IntText(d.mantissa) + (IntText(d.exponent) + rest);
    IntRoundTrip(d.mantissa, IntText(d.exponent) + rest);
    IntRoundTrip(d.exponent, rest);
  }

  /** `ParseValue` hands the text after a tag character to that tag's reader. */
  lemma ParseValueDispatch(s: string)
    requires |s| > 0
    ensures s[0] == '[' ==> ParseValue(s) == ParseArray(s[1..])
    ensures s[0] == '{' ==> ParseValue(s) == ParseObject(s[1..])
  {
  }

  lemma ParseArrayStep(t: string, n: nat, body: string, items: seq<Json>, rest: string)
    requires ParseUnary(t) == Some((n, body))
    requires ParseItems(body, n) == Some((items, rest))
    ensures ParseArray(t) == Some((JArr(items), rest))
  {
  }

  lemma ParseObjectStep(t: string, n: nat, body: string, members: seq<(string, Json)>, rest: string)
    requires ParseUnary(t) == Some((n, body))
    requires ParseMembers(body, n) == Some((members, rest))
    ensures ParseObject(t) == Some((JObj(members), rest))
  {
  }

  /** An array reads back once its items do. */
  lemma ArrayRoundTrip(items: seq<Json>, rest: string)
    requires ParseItems(SerializeItems(items) + rest, |items|) == Some((items, rest))
    ensures ParseValue(Serialize(JArr(items)) + rest) == Some((JArr(items), rest))
  {
    var body := SerializeItems(items) + rest;
    var t := Unary(|items|) + body;
    UnaryRoundTrip(|items|, body);
    ParseArrayStep(t, |items|, body, items, rest);
    var s := Serialize(JArr(items)) + rest;
    SerializeArray(items);
    Regroup("[", Unary(|items|), SerializeItems(items), rest);
    assert s[1..] == t;
    ParseValueDispatch(s);
  }

  lemma Regroup(a: string, b: string, c: string, d: string)
    ensures a + b + c + d == a + (b + (c + d))
  {
  }

  lemma SerializeArray(items: seq<Json>)
    ensures Serialize(JArr(items)) == "[" + Unary(|items|) + SerializeItems(items)
  {
  }

  lemma SerializeObject(members: seq<(string, Json)>)
    ensures Serialize(JObj(members)) == "{" + Unary(|members|) + SerializeMembers(members)
  {
  }

  /** An object reads back once its members do. */
  lemma ObjectRoundTrip(members: seq<(string, Json)>, rest: string)
    requires ParseMembers(SerializeMembers(members) + rest, |members|) == Some((members, rest))
    ensures ParseValue(Serialize(JObj(members)) + rest) == Some((JObj(members), rest))
  {
    var body := SerializeMembers(members) + rest;
    var t := Unary(|members|) + body;
    UnaryRoundTrip(|members|, body);
    ParseObjectStep(t, |members|, body, members, rest);
    var s := Serialize(JObj(members)) + rest;
    SerializeObject(members);
    Regroup("{", Unary(|members|), SerializeMembers(members), rest);
    assert s[1..] == t;
    ParseValueDispatch(s);
  }

  lemma {:induction false} ItemsRoundTrip(items: seq<Json>, rest: string)
    ensures ParseItems(SerializeItems(items) + rest, |items|) == Some((items, rest))
    decreases items
  {
    if items == [] {
      assert SerializeItems(items) + rest == rest;
    } else {
      var tail := SerializeItems(items[1..]) + rest;
      assert SerializeItems(items) + rest == Serialize(items[0]) + tail;
      ValueRoundTrip(items[0], tail);
      ItemsRoundTrip(items[1..], rest);
      assert [items[0]] + items[1..] == items;
    }
  }

  lemma {:induction false} MembersRoundTrip(members: seq<(string, Json)>, rest: string)
    ensures ParseMembers(SerializeMembers(members) + rest, |members|) == Some((members, rest))
    decreases members
  {
    if members == [] {
      assert SerializeMembers(members) + rest == rest;
    } else {
      var tail := SerializeMembers(members[1..]) + rest;
      var valueAndTail := Serialize(members[0].1) + tail;
      assert SerializeMembers(members) + rest == Text(members[0].0) + valueAndTail;
      TextRoundTrip(members[0].0, valueAndTail);
      assert members[0] in members && members[0].1 < members[0];
      ValueRoundTrip(members[0].1, tail);
      MembersRoundTrip(members[1..], rest);
      assert [(members[0].0, members[0].1)] + members[1..] == members;
    }
  }

  /** The example codec meets every law `Lawful` states. */
  lemma CodecIsLawful()
    ensures Lawful(Codec())
  {
    forall v: Json
      ensures Codec().parse(Codec().stringify(v)) == Some(v)
    {
      ValueRoundTrip(v, "");
      assert Serialize(v) + "" == Serialize(v);
    }
  }

  /**
   * With this codec in place of `JSON.stringify` / `JSON.parse`, the storage
   * converters of the rights-management-pap package restore every policy the
   * round-trip lemma covers.
   */
  lemma PapRoundTrip(p: Policy)
    requires PapConverters.Encodable(p)
    ensures PapConverters.FromStorage(PapConverters.ToStorage(p, Codec()), Codec()) == p
  {
    CodecIsLawful();
    PapConverters.RoundTrip(p, Codec());
  }
}
