/**
 * `PolicyAdministrationPointComponent` of the rights-management-pap package: it
 * stores policies through the JSON-text converters in an entity store keyed by
 * uid, and reads them back through the decoder.
 */
module PapComponent {
  import opened Wrappers
  import opened JsonValues
  import opened Odrl
  import opened Core
  import opened PapConverters

  /** `_DEFAULT_MAX_QUERY_RESULTS`, 100: the page size when the configuration gives none. */
  const DefaultMaxQueryResults: Number := Decimal(1, 2)

  /** `options.config?.maxQueryResults ?? 100`. */
  function MaxQueryResults(configured: Option<Number>): (size: Number)
    ensures configured.None? ==> size == DefaultMaxQueryResults
    ensures configured.Some? ==> size == configured.value
  {
    match configured
    case None => DefaultMaxQueryResults
    case Some(n) => n
  }

  class PolicyAdministrationPointComponent {
    /** The `JSON.stringify` / `JSON.parse` pair the converters call. */
    const codec: JsonCodec
    /** `_maxQueryResults`: the page size every query asks the storage for. */
    const maxQueryResults: Number
    /** The entities behind `_entityStorage`, by uid. */
    var entities: map<string, StoragePolicy>

    ghost predicate Valid()
      reads this
    {
      KeyedBy(entities, (e: StoragePolicy) => e.uid)
    }

    /** The constructor: the configured page size, or 100 by default. */
    constructor (codec: JsonCodec, configuredMaxQueryResults: Option<Number>, entities: map<string, StoragePolicy>)
      requires KeyedBy(entities, (e: StoragePolicy) => e.uid)
      ensures Valid()
      ensures this.codec == codec && this.entities == entities
      ensures maxQueryResults == MaxQueryResults(configuredMaxQueryResults)
    {
      this.codec := codec;
      this.maxQueryResults := MaxQueryResults(configuredMaxQueryResults);
      this.entities := entities;
    }

    /** `store`: the encoded policy replaces whatever sat under its uid; nothing else changes. */
    method Store(policy: Policy)
      requires Valid()
      modifies this
      ensures Valid()
      ensures entities == old(entities)[policy.uid := ToStorage(policy, codec)]
    {
      var storagePolicy := ToStorage(policy, codec);
      entities := entities[storagePolicy.uid := storagePolicy];
    }

    /** `retrieve`: the decoded entity under the id, or `policyNotFound`. */
    method Retrieve(policyId: string) returns (r: Result<Policy, Error>)
      requires Valid()
      ensures policyId !in entities ==> r == Failure(GeneralError("policyNotFound", policyId))
      ensures policyId in entities ==> r == Success(FromStorage(entities[policyId], codec))
      ensures r.Success? ==> r.value.uid == policyId
    {
      if policyId !in entities {
        return Failure(GeneralError("policyNotFound", policyId));
      }
      var storagePolicy := entities[policyId];
      return Success(FromStorage(storagePolicy, codec));
    }

    /** `remove`: the entry under the id is gone; removing an absent id changes nothing. */
    method Remove(policyId: string)
      requires Valid()
      modifies this
      ensures Valid()
      ensures entities == old(entities) - {policyId}
    {
      entities := entities - {policyId};
    }

    /**
     * `query`: forwards the conditions, the cursor and `maxQueryResults` to the
     * storage, whose answer `connector` gives, and decodes every entity of the
     * page, in order.
     */
    method Query(conditions: Option<Json>, cursor: Option<string>,
                 connector: (map<string, StoragePolicy>, QueryRequest) -> Page<StoragePolicy>)
      returns (r: QueryResponse)
      ensures var page := connector(entities, QueryRequest(conditions, cursor, maxQueryResults, None, None));
        && r.cursor == page.cursor
        && |r.policies| == |page.entities|
        && forall i :: 0 <= i < |page.entities| ==> r.policies[i] == FromStorage(page.entities[i], codec)
    {
      var page := connector(entities, QueryRequest(conditions, cursor, maxQueryResults, None, None));
      var json := codec;
      r := QueryResponse(page.cursor, MapSeq((e: StoragePolicy) => FromStorage(e, json), page.entities));
    }
  }

  /** Store then retrieve: the stored policy comes back through the decoder. */
  method StoreThenRetrieve(pap: PolicyAdministrationPointComponent, policy: Policy)
    returns (r: Result<Policy, Error>)
    requires pap.Valid()
    modifies pap
    ensures pap.Valid()
    ensures r == Success(FromStorage(ToStorage(policy, pap.codec), pap.codec))
    ensures Lawful(pap.codec) && Encodable(policy) ==> r == Success(policy)
  {
    pap.Store(policy);
    r := pap.Retrieve(policy.uid);
    if Lawful(pap.codec) && Encodable(policy) {
      RoundTrip(policy, pap.codec);
    }
  }

  /**
   * The stored sample policy of the package's tests comes back with the same
   * uid and "@type" and with its permission array.
   */
  method StoreThenRetrieveKeepsPermissions(pap: PolicyAdministrationPointComponent, policy: Policy)
    returns (r: Result<Policy, Error>)
    requires pap.Valid() && Lawful(pap.codec)
    requires policy.permission.Some? && policy.permission.value.JArr?
    modifies pap
    ensures r.Success?
    ensures r.value.uid == policy.uid && r.value.policyType == policy.policyType
    ensures r.value.permission == policy.permission
  {
    pap.Store(policy);
    r := pap.Retrieve(policy.uid);
    RoundTripKeepsIdentityAndRules(policy, pap.codec);
  }

  /** Remove then retrieve: the removed id is not found. */
  method RemoveThenRetrieve(pap: PolicyAdministrationPointComponent, policyId: string)
    returns (r: Result<Policy, Error>)
    requires pap.Valid()
    modifies pap
    ensures r == Failure(GeneralError("policyNotFound", policyId))
  {
    pap.Remove(policyId);
    r := pap.Retrieve(policyId);
  }
}
