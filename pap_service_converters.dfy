/**
 * The storage converters of the rights-management-pap-service package: every
 * property is copied as it is, "@context" is not stored, and decoding always
 * answers `OdrlContexts.Context` for it.
 */
module PapServiceConverters {
  import opened Wrappers
  import opened JsonValues
  import opened Odrl

  /** The storage entity of this package: the policy without "@context". */
  datatype StoragePolicy = StoragePolicy(
    uid: string,
    policyType: string,
    profile: Option<Json>,
    assigner: Option<Json>,
    assignee: Option<Json>,
    target: Option<Json>,
    action: Option<Json>,
    conflict: Option<string>,
    permission: Option<Json>,
    prohibition: Option<Json>,
    obligation: Option<Json>)

  /** `convertToStoragePolicy` (odrlPolicyConverters.ts, lines 12-28). */
  function ToStorage(policy: Policy): (s: StoragePolicy)
    ensures s.uid == policy.uid && s.policyType == policy.policyType
    ensures s.profile == policy.profile && s.assigner == policy.assigner && s.assignee == policy.assignee
    ensures s.target == policy.target && s.action == policy.action && s.conflict == policy.conflict
    ensures s.permission == policy.permission && s.prohibition == policy.prohibition
    ensures s.obligation == policy.obligation
  {
    StoragePolicy(
      policy.uid, policy.policyType,
      policy.profile, policy.assigner, policy.assignee, policy.target, policy.action,
      policy.conflict, policy.permission, policy.prohibition, policy.obligation)
  }

  /** `convertFromStoragePolicy` (odrlPolicyConverters.ts, lines 35-53). */
  function FromStorage(s: StoragePolicy): (policy: Policy)
    ensures policy.context == DefaultContext
    ensures policy.uid == s.uid && policy.policyType == s.policyType
    ensures policy.profile == s.profile && policy.assigner == s.assigner && policy.assignee == s.assignee
    ensures policy.target == s.target && policy.action == s.action && policy.conflict == s.conflict
    ensures policy.permission == s.permission && policy.prohibition == s.prohibition
    ensures policy.obligation == s.obligation
  {
    Policy(
      DefaultContext, s.policyType, s.uid,
      s.profile, s.assigner, s.assignee, s.target, s.action,
      s.conflict, s.permission, s.prohibition, s.obligation)
  }

  /** Two policies that differ at most in "@context" are stored identically. */
  lemma ContextNotStored(p: Policy, q: Policy)
    requires p.(context := q.context) == q
    ensures ToStorage(p) == ToStorage(q)
  {
  }

  /** Round trip: the policy comes back with only "@context" replaced by `OdrlContexts.Context`. */
  lemma RoundTrip(p: Policy)
    ensures FromStorage(ToStorage(p)) == p.(context := DefaultContext)
  {
  }

  /** Reverse round trip: a stored entity survives decoding and re-encoding field for field. */
  lemma ReverseRoundTrip(s: StoragePolicy)
    ensures ToStorage(FromStorage(s)) == s
  {
  }
}
