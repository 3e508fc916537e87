/**
 * The storage converters of the rights-management-pap-entity-storage package:
 * only the truthy optional properties are copied in either direction, neither
 * "@type", "@context" nor the owning node is stored, and decoding answers
 * "Set" and `OdrlContexts.Context` for the first two.
 */
module EntityStorageConverters {
  import opened Wrappers
  import opened JsonValues
  import opened Odrl

  /**
   * The storage entity of this package. "@type" and `nodeIdentity` are declared
   * on it but the encoder never sets them, so both may be unset.
   */
  datatype StoragePolicy = StoragePolicy(
    uid: string,
    policyType: Option<string>,
    profile: Option<Json>,
    assigner: Option<Json>,
    assignee: Option<Json>,
    target: Option<Json>,
    action: Option<Json>,
    conflict: Option<string>,
    permission: Option<Json>,
    prohibition: Option<Json>,
    obligation: Option<Json>,
    nodeIdentity: Option<string>)

  /** The "@type" every decoded policy gets. */
  const DecodedPolicyType: string := "Set"

  /** `if (x) { y.p = x; }`: the property when it is truthy, unset otherwise. */
  function KeepPresent(o: Option<Json>): (r: Option<Json>)
    ensures r.Some? <==> Present(o)
    ensures r.Some? ==> r == o
  {
    if Present(o) then o else None
  }

  /** The same for the string-valued `conflict`. */
  function KeepText(o: Option<string>): (r: Option<string>)
    ensures r.Some? <==> TextPresent(o)
    ensures r.Some? ==> r == o
  {
    if TextPresent(o) then o else None
  }

  /** `convertToStoragePolicy` (odrlPolicyConverters.ts, lines 12-47). */
  function ToStorage(policy: Policy): (s: StoragePolicy)
    ensures s.uid == policy.uid
    ensures s.policyType == None && s.nodeIdentity == None
    ensures s.profile == KeepPresent(policy.profile) && s.assigner == KeepPresent(policy.assigner)
    ensures s.assignee == KeepPresent(policy.assignee) && s.target == KeepPresent(policy.target)
    ensures s.action == KeepPresent(policy.action) && s.conflict == KeepText(policy.conflict)
    ensures s.permission == KeepPresent(policy.permission)
    ensures s.prohibition == KeepPresent(policy.prohibition)
    ensures s.obligation == KeepPresent(policy.obligation)
  {
    StoragePolicy(
      policy.uid, None,
      KeepPresent(policy.profile), KeepPresent(policy.assigner), KeepPresent(policy.assignee),
      KeepPresent(policy.target), KeepPresent(policy.action), KeepText(policy.conflict),
      KeepPresent(policy.permission), KeepPresent(policy.prohibition), KeepPresent(policy.obligation),
      None)
  }

  /** `convertFromStoragePolicy` (odrlPolicyConverters.ts, lines 54-92). */
  function FromStorage(s: StoragePolicy): (policy: Policy)
    ensures policy.uid == s.uid
    ensures policy.policyType == DecodedPolicyType && policy.context == DefaultContext
    ensures policy.profile == KeepPresent(s.profile) && policy.assigner == KeepPresent(s.assigner)
    ensures policy.assignee == KeepPresent(s.assignee) && policy.target == KeepPresent(s.target)
    ensures policy.action == KeepPresent(s.action) && policy.conflict == KeepText(s.conflict)
    ensures policy.permission == KeepPresent(s.permission)
    ensures policy.prohibition == KeepPresent(s.prohibition)
    ensures policy.obligation == KeepPresent(s.obligation)
  {
    Policy(
      DefaultContext, DecodedPolicyType, s.uid,
      KeepPresent(s.profile), KeepPresent(s.assigner), KeepPresent(s.assignee),
      KeepPresent(s.target), KeepPresent(s.action), KeepText(s.conflict),
      KeepPresent(s.permission), KeepPresent(s.prohibition), KeepPresent(s.obligation))
  }

  /** The policy the round trip yields: truthy properties kept, "@type" "Set", the default context. */
  function Normalized(p: Policy): (q: Policy)
    ensures q.uid == p.uid && q.policyType == DecodedPolicyType && q.context == DefaultContext
  {
    Policy(
      DefaultContext, DecodedPolicyType, p.uid,
      KeepPresent(p.profile), KeepPresent(p.assigner), KeepPresent(p.assignee),
      KeepPresent(p.target), KeepPresent(p.action), KeepText(p.conflict),
      KeepPresent(p.permission), KeepPresent(p.prohibition), KeepPresent(p.obligation))
  }

  /**
   * Round trip: uid and every truthy property survive unchanged, every falsy
   * property is lost, and "@type" is "Set" whatever the input said.
   */
  lemma RoundTrip(p: Policy)
    ensures FromStorage(ToStorage(p)) == Normalized(p)
    ensures Present(p.permission) ==> FromStorage(ToStorage(p)).permission == p.permission
    ensures !Present(p.permission) ==> FromStorage(ToStorage(p)).permission == None
  {
  }

  /** An optional property the round trip keeps as it is: unset, or set to a truthy value. */
  predicate Kept(o: Option<Json>) {
    o.Some? ==> Truthy(o.value)
  }

  /**
   * The round trip gives back the input exactly when its "@type" is "Set", its
   * "@context" is `OdrlContexts.Context`, and each optional property is unset
   * or truthy.
   */
  lemma RoundTripExact(p: Policy)
    ensures FromStorage(ToStorage(p)) == p <==>
      && p.policyType == DecodedPolicyType
      && p.context == DefaultContext
      && Kept(p.profile) && Kept(p.assigner) && Kept(p.assignee) && Kept(p.target) && Kept(p.action)
      && (p.conflict.Some? ==> p.conflict.value != "")
      && Kept(p.permission) && Kept(p.prohibition) && Kept(p.obligation)
  {
    RoundTrip(p);
  }

  /** An "Offer" or "Agreement" policy comes back as a "Set". */
  lemma PolicyTypeNotKept(p: Policy)
    requires p.policyType != DecodedPolicyType
    ensures FromStorage(ToStorage(p)) != p
  {
    assert FromStorage(ToStorage(p)).policyType != p.policyType;
  }

  /** Decoding is a fixed point after one round trip: storing a decoded policy again changes nothing. */
  lemma StoreIdempotent(p: Policy)
    ensures ToStorage(FromStorage(ToStorage(p))) == ToStorage(p)
  {
  }
}
