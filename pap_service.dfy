/**
 * `PolicyAdministrationPointService` of the rights-management-pap-service
 * package: it creates, updates, retrieves, removes and queries policies held by
 * an entity-storage connector keyed by uid, checking its arguments with the
 * platform guards and validating policies as JSON-LD before writing them.
 */
module PapService {
  import opened Wrappers
  import opened JsonValues
  import opened Odrl
  import opened Core
  import opened PapServiceConverters

  /** `_DEFAULT_MAX_QUERY_RESULTS`, 10: the page size when the caller gives none. */
  const DefaultMaxQueryResults: Number := Decimal(1, 1)

  /** The guards of `query`, in the order the service checks them. */
  function QueryGuards(conditions: Option<Json>, cursor: Option<string>, pageSize: Option<Json>): (r: Outcome<Error>)
    ensures r == Pass <==>
      && (!IsEmpty(conditions) ==> IsObject(conditions.value))
      && (cursor.Some? ==> IsStringValue(cursor))
      && (!IsEmpty(pageSize) ==> IsInteger(pageSize.value))
    ensures !IsEmpty(conditions) && !IsObject(conditions.value) ==> r == Fail(GuardError("conditions"))
  {
    if !IsEmpty(conditions) && !IsObject(conditions.value) then Fail(GuardError("conditions"))
    else if cursor.Some? && !IsStringValue(cursor) then Fail(GuardError("cursor"))
    else if !IsEmpty(pageSize) && !IsInteger(pageSize.value) then Fail(GuardError("pageSize"))
    else Pass
  }

  /** `pageSize ?? 10` for a page size that passed its guard. */
  function PageSizeOrDefault(pageSize: Option<Json>): (size: Number)
    requires !IsEmpty(pageSize) ==> IsInteger(pageSize.value)
    ensures IsEmpty(pageSize) ==> size == DefaultMaxQueryResults
    ensures !IsEmpty(pageSize) ==> size == pageSize.value.num
  {
    if IsEmpty(pageSize) then DefaultMaxQueryResults else pageSize.value.num
  }

  class PolicyAdministrationPointService {
    /** `JsonLdHelper.validate` reported no failure for the policy. */
    const validate: Policy -> bool
    /** The entities behind `_odrlPolicyEntityStorage`, by uid. */
    var entities: map<string, StoragePolicy>

    ghost predicate Valid()
      reads this
    {
      KeyedBy(entities, (e: StoragePolicy) => e.uid)
    }

    constructor (validate: Policy -> bool, entities: map<string, StoragePolicy>)
      requires KeyedBy(entities, (e: StoragePolicy) => e.uid)
      ensures Valid()
      ensures this.validate == validate && this.entities == entities
    {
      this.validate := validate;
      this.entities := entities;
    }

    /**
     * `create`: the policy with `generatedUid` (the `Urn.generateRandom` id) as
     * its uid is validated, then stored under that uid, which is returned; a
     * policy that fails validation leaves the table unchanged.
     */
    method Create(policy: Policy, generatedUid: string) returns (r: Result<string, Error>)
      requires Valid()
      modifies this
      ensures Valid()
      ensures !validate(policy.(uid := generatedUid)) ==> r == Failure(ValidationError) && entities == old(entities)
      ensures validate(policy.(uid := generatedUid)) ==>
        && r == Success(generatedUid)
        && entities == old(entities)[generatedUid := ToStorage(policy.(uid := generatedUid))]
    {
      var completePolicy := policy.(uid := generatedUid);
      if !validate(completePolicy) {
        return Failure(ValidationError);
      }
      var storagePolicy := ToStorage(completePolicy);
      entities := entities[storagePolicy.uid := storagePolicy];
      return Success(generatedUid);
    }

    /**
     * `update`: an empty uid fails its guard; an unknown uid is `NotFound`
     * before validation is looked at; a policy that fails validation is
     * rejected; otherwise only the entry under the uid is overwritten.
     */
    method Update(policy: Policy) returns (r: Outcome<Error>)
      requires Valid()
      modifies this
      ensures Valid()
      ensures policy.uid == "" ==> r == Fail(GuardError("policy.uid"))
      ensures policy.uid != "" && policy.uid !in old(entities) ==>
        r == Fail(NotFoundError("policyNotFound", Some(policy.uid)))
      ensures policy.uid != "" && policy.uid in old(entities) && !validate(policy) ==> r == Fail(ValidationError)
      ensures r == Pass <==> policy.uid != "" && policy.uid in old(entities) && validate(policy)
      ensures entities == if r == Pass then old(entities)[policy.uid := ToStorage(policy)] else old(entities)
    {
      if policy.uid == "" {
        return Fail(GuardError("policy.uid"));
      }
      var policyId := policy.uid;
      if policyId !in entities {
        return Fail(NotFoundError("policyNotFound", Some(policyId)));
      }
      if !validate(policy) {
        return Fail(ValidationError);
      }
      var storagePolicy := ToStorage(policy);
      entities := entities[storagePolicy.uid := storagePolicy];
      return Pass;
    }

    /** `retrieve`: an empty id fails its guard, an unknown id is `NotFound`, a stored one is decoded. */
    method Retrieve(policyId: string) returns (r: Result<Policy, Error>)
      requires Valid()
      ensures policyId == "" ==> r == Failure(GuardError("policyId"))
      ensures policyId != "" && policyId !in entities ==> r == Failure(NotFoundError("policyNotFound", Some(policyId)))
      ensures policyId != "" && policyId in entities ==> r == Success(FromStorage(entities[policyId]))
      ensures r.Success? ==> r.value.uid == policyId && r.value.context == DefaultContext
    {
      if policyId == "" {
        return Failure(GuardError("policyId"));
      }
      if policyId !in entities {
        return Failure(NotFoundError("policyNotFound", Some(policyId)));
      }
      return Success(FromStorage(entities[policyId]));
    }

    /** `remove`: an empty id fails its guard and changes nothing; otherwise the entry is gone. */
    method Remove(policyId: string) returns (r: Outcome<Error>)
      requires Valid()
      modifies this
      ensures Valid()
      ensures policyId == "" ==> r == Fail(GuardError("policyId")) && entities == old(entities)
      ensures policyId != "" ==> r == Pass && entities == old(entities) - {policyId}
    {
      if policyId == "" {
        return Fail(GuardError("policyId"));
      }
      entities := entities - {policyId};
      return Pass;
    }

    /**
     * `query`: after the guards, forwards the conditions, the cursor and
     * `pageSize ?? 10` to the connector, whose answer `connector` gives, and
     * decodes every entity of the page, in order.
     */
    method Query(conditions: Option<Json>, cursor: Option<string>, pageSize: Option<Json>,
                 connector: (map<string, StoragePolicy>, QueryRequest) -> Page<StoragePolicy>)
      returns (r: Result<QueryResponse, Error>)
      ensures QueryGuards(conditions, cursor, pageSize).Fail? ==>
        r == Failure(QueryGuards(conditions, cursor, pageSize).error)
      ensures !IsEmpty(pageSize) && !IsInteger(pageSize.value) ==> r.Failure?
      ensures QueryGuards(conditions, cursor, pageSize) == Pass ==>
        var page := connector(entities, QueryRequest(conditions, cursor, PageSizeOrDefault(pageSize), None, None));
        && r.Success?
        && r.value.cursor == page.cursor
        && |r.value.policies| == |page.entities|
        && forall i :: 0 <= i < |page.entities| ==> r.value.policies[i] == FromStorage(page.entities[i])
    {
      var guards := QueryGuards(conditions, cursor, pageSize);
      if guards.Fail? {
        return Failure(guards.error);
      }
      var page := connector(entities, QueryRequest(conditions, cursor, PageSizeOrDefault(pageSize), None, None));
      return Success(QueryResponse(page.cursor, MapSeq(FromStorage, page.entities)));
    }
  }

  /** Create then retrieve: the new uid yields the input with that uid and the default context. */
  method CreateThenRetrieve(pap: PolicyAdministrationPointService, policy: Policy, generatedUid: string)
    returns (created: Result<string, Error>, r: Result<Policy, Error>)
    requires pap.Valid() && generatedUid != ""
    requires pap.validate(policy.(uid := generatedUid))
    modifies pap
    ensures created == Success(generatedUid)
    ensures r == Success(policy.(uid := generatedUid, context := DefaultContext))
  {
    created := pap.Create(policy, generatedUid);
    r := pap.Retrieve(generatedUid);
    RoundTrip(policy.(uid := generatedUid));
  }

  /** Remove then retrieve: the removed id is not found. */
  method RemoveThenRetrieve(pap: PolicyAdministrationPointService, policyId: string)
    returns (r: Result<Policy, Error>)
    requires pap.Valid() && policyId != ""
    modifies pap
    ensures r == Failure(NotFoundError("policyNotFound", Some(policyId)))
  {
    var removed := pap.Remove(policyId);
    r := pap.Retrieve(policyId);
  }
}
