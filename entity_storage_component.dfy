/**
 * `PolicyAdministrationPointComponentEntityStorage` of the
 * rights-management-pap-entity-storage package: every operation first guards
 * the node identity it is performed for (and the user identity when one is
 * given), then stores, reads or removes entities keyed by uid through this
 * package's truthy-property converters.
 */
module EntityStorageComponent {
  import opened Wrappers
  import opened JsonValues
  import opened Odrl
  import opened Core
  import opened EntityStorageConverters

  /** `_DEFAULT_MAX_QUERY_RESULTS`, 10: the page size when the caller gives none. */
  const DefaultMaxQueryResults: Number := Decimal(1, 1)

  /** The identity guards of `store`, `retrieve` and `remove`: the node identity, then a given user identity. */
  function IdentityGuards(userIdentity: Option<string>, nodeIdentity: string): (r: Outcome<Error>)
    ensures r == Pass <==> nodeIdentity != "" && (userIdentity.Some? ==> userIdentity.value != "")
    ensures nodeIdentity == "" ==> r == Fail(GuardError("nodeIdentity"))
    ensures r.Fail? ==> r.error.GuardError?
  {
    if nodeIdentity == "" then Fail(GuardError("nodeIdentity"))
    else if userIdentity.Some? && userIdentity.value == "" then Fail(GuardError("userIdentity"))
    else Pass
  }

  /** The guards of `query`, in the order the component checks them. */
  function QueryGuards(conditions: Option<Json>, cursor: Option<string>, pageSize: Option<Json>,
                       userIdentity: Option<string>, nodeIdentity: Option<string>): (r: Outcome<Error>)
    ensures r == Pass <==>
      && IsStringValue(nodeIdentity)
      && (conditions.Some? ==> IsObject(conditions.value))
      && (cursor.Some? ==> IsStringValue(cursor))
      && (pageSize.Some? ==> IsNumber(pageSize.value))
      && (userIdentity.Some? ==> IsStringValue(userIdentity))
    ensures !IsStringValue(nodeIdentity) ==> r == Fail(GuardError("nodeIdentity"))
  {
    if !IsStringValue(nodeIdentity) then Fail(GuardError("nodeIdentity"))
    else if conditions.Some? && !IsObject(conditions.value) then Fail(GuardError("conditions"))
    else if cursor.Some? && !IsStringValue(cursor) then Fail(GuardError("cursor"))
    else if pageSize.Some? && !IsNumber(pageSize.value) then Fail(GuardError("pageSize"))
    else if userIdentity.Some? && !IsStringValue(userIdentity) then Fail(GuardError("userIdentity"))
    else Pass
  }

  /** `pageSize ?? 10` for a page size that passed its guard. */
  function PageSizeOrDefault(pageSize: Option<Json>): (size: Number)
    requires pageSize.Some? ==> IsNumber(pageSize.value)
    ensures pageSize.None? ==> size == DefaultMaxQueryResults
    ensures pageSize.Some? ==> size == pageSize.value.num
  {
    if pageSize.None? then DefaultMaxQueryResults else pageSize.value.num
  }

  class PolicyAdministrationPointComponentEntityStorage {
    /** The entities behind `_entityStorage`, by uid. */
    var entities: map<string, StoragePolicy>

    ghost predicate Valid()
      reads this
    {
      KeyedBy(entities, (e: StoragePolicy) => e.uid)
    }

    constructor (entities: map<string, StoragePolicy>)
      requires KeyedBy(entities, (e: StoragePolicy) => e.uid)
      ensures Valid() && this.entities == entities
    {
      this.entities := entities;
    }

    /** `store`: after the identity guards, the encoded policy replaces whatever sat under its uid. */
    method Store(policy: Policy, userIdentity: Option<string>, nodeIdentity: string) returns (r: Outcome<Error>)
      requires Valid()
      modifies this
      ensures Valid()
      ensures r == IdentityGuards(userIdentity, nodeIdentity)
      ensures entities == if r == Pass then old(entities)[policy.uid := ToStorage(policy)] else old(entities)
    {
      r := IdentityGuards(userIdentity, nodeIdentity);
      if r.Fail? {
        return;
      }
      var storagePolicy := ToStorage(policy);
      entities := entities[storagePolicy.uid := storagePolicy];
    }

    /** `retrieve`: after the guards, the decoded entity under the id, or `policyNotFound`. */
    method Retrieve(policyId: string, userIdentity: Option<string>, nodeIdentity: string)
      returns (r: Result<Policy, Error>)
      requires Valid()
      ensures policyId == "" ==> r == Failure(GuardError("policyId"))
      ensures policyId != "" && IdentityGuards(userIdentity, nodeIdentity).Fail? ==>
        r == Failure(IdentityGuards(userIdentity, nodeIdentity).error)
      ensures policyId != "" && IdentityGuards(userIdentity, nodeIdentity) == Pass ==>
        && (policyId !in entities ==> r == Failure(NotFoundError("policyNotFound", None)))
        && (policyId in entities ==> r == Success(FromStorage(entities[policyId])))
      ensures r.Success? ==> r.value.uid == policyId && r.value.policyType == DecodedPolicyType
    {
      if policyId == "" {
        return Failure(GuardError("policyId"));
      }
      var guards := IdentityGuards(userIdentity, nodeIdentity);
      if guards.Fail? {
        return Failure(guards.error);
      }
      if policyId !in entities {
        return Failure(NotFoundError("policyNotFound", None));
      }
      return Success(FromStorage(entities[policyId]));
    }

    /** `remove`: after the guards, the entry under the id is gone; a failed guard changes nothing. */
    method Remove(policyId: string, userIdentity: Option<string>, nodeIdentity: string) returns (r: Outcome<Error>)
      requires Valid()
      modifies this
      ensures Valid()
      ensures policyId == "" ==> r == Fail(GuardError("policyId"))
      ensures policyId != "" ==> r == IdentityGuards(userIdentity, nodeIdentity)
      ensures entities == if r == Pass then old(entities) - {policyId} else old(entities)
    {
      if policyId == "" {
        return Fail(GuardError("policyId"));
      }
      r := IdentityGuards(userIdentity, nodeIdentity);
      if r.Fail? {
        return;
      }
      entities := entities - {policyId};
    }

    /**
     * `query`: after the guards, forwards the conditions, the cursor,
     * `pageSize ?? 10` and both identities to the storage, whose answer
     * `connector` gives, and decodes every entity of the page, in order.
     */
    method Query(conditions: Option<Json>, cursor: Option<string>, pageSize: Option<Json>,
                 userIdentity: Option<string>, nodeIdentity: Option<string>,
                 connector: (map<string, StoragePolicy>, QueryRequest) -> Page<StoragePolicy>)
      returns (r: Result<QueryResponse, Error>)
      ensures QueryGuards(conditions, cursor, pageSize, userIdentity, nodeIdentity).Fail? ==>
        r == Failure(QueryGuards(conditions, cursor, pageSize, userIdentity, nodeIdentity).error)
      ensures QueryGuards(conditions, cursor, pageSize, userIdentity, nodeIdentity) == Pass ==>
        var request := QueryRequest(conditions, cursor, PageSizeOrDefault(pageSize), userIdentity, nodeIdentity);
        var page := connector(entities, request);
        && r.Success?
        && r.value.cursor == page.cursor
        && |r.value.policies| == |page.entities|
        && forall i :: 0 <= i < |page.entities| ==> r.value.policies[i] == FromStorage(page.entities[i])
    {
      var guards := QueryGuards(conditions, cursor, pageSize, userIdentity, nodeIdentity);
      if guards.Fail? {
        return Failure(guards.error);
      }
      var request := QueryRequest(conditions, cursor, PageSizeOrDefault(pageSize), userIdentity, nodeIdentity);
      var page := connector(entities, request);
      return Success(QueryResponse(page.cursor, MapSeq(FromStorage, page.entities)));
    }
  }

  /** Store then retrieve with the same identities: the round trip of this package's converters. */
  method StoreThenRetrieve(pap: PolicyAdministrationPointComponentEntityStorage, policy: Policy,
                           userIdentity: Option<string>, nodeIdentity: string)
    returns (stored: Outcome<Error>, r: Result<Policy, Error>)
    requires pap.Valid() && policy.uid != ""
    requires IdentityGuards(userIdentity, nodeIdentity) == Pass
    modifies pap
    ensures stored == Pass
    ensures r == Success(FromStorage(ToStorage(policy)))
    ensures r == Success(Normalized(policy))
  {
    stored := pap.Store(policy, userIdentity, nodeIdentity);
    r := pap.Retrieve(policy.uid, userIdentity, nodeIdentity);
    RoundTrip(policy);
  }

  /** Remove then retrieve with the same identities: the removed id is not found. */
  method RemoveThenRetrieve(pap: PolicyAdministrationPointComponentEntityStorage, policyId: string,
                            userIdentity: Option<string>, nodeIdentity: string)
    returns (r: Result<Policy, Error>)
    requires pap.Valid() && policyId != ""
    requires IdentityGuards(userIdentity, nodeIdentity) == Pass
    modifies pap
    ensures r == Failure(NotFoundError("policyNotFound", None))
  {
    var removed := pap.Remove(policyId, userIdentity, nodeIdentity);
    r := pap.Retrieve(policyId, userIdentity, nodeIdentity);
  }

  /**
   * `store` does not guard the uid while `retrieve` does: a policy with an empty
   * uid is written to the table, and the id it sits under is then refused.
   */
  method StoreEmptyUidThenRetrieve(pap: PolicyAdministrationPointComponentEntityStorage, policy: Policy,
                                   userIdentity: Option<string>, nodeIdentity: string)
    returns (stored: Outcome<Error>, r: Result<Policy, Error>)
    requires pap.Valid() && policy.uid == ""
    requires IdentityGuards(userIdentity, nodeIdentity) == Pass
    modifies pap
    ensures stored == Pass && "" in pap.entities
    ensures r == Failure(GuardError("policyId"))
  {
    stored := pap.Store(policy, userIdentity, nodeIdentity);
    r := pap.Retrieve(policy.uid, userIdentity, nodeIdentity);
  }
}
