# Policy Administration Point persistence, modelled in Dafny

This project models the policy persistence layer of the twin.org rights-management
repository. The Policy Administration Point (PAP) stores ODRL policy records, whose
shape follows section 2.1 (the Policy class) of the W3C ODRL Information Model 2.2.
It stores them in an entity store keyed by `uid` and reads them back. Three packages
each ship their own storage converter pair and their own PAP component:

| package | converters (`odrlPolicyConverters.ts`) | component |
|---|---|---|
| rights-management-pap | structured properties stored as JSON text; the decoder parses a text back only when it starts with `[` / `{` and keeps the raw value when parsing fails | `PolicyAdministrationPointComponent`: store / retrieve / remove / query |
| rights-management-pap-service | every property copied verbatim; `@context` not stored and reset on decode | `PolicyAdministrationPointService`: create / update / retrieve / remove / query with guards and JSON-LD validation |
| rights-management-pap-entity-storage | only truthy properties copied; `@type` becomes `"Set"` on decode | `PolicyAdministrationPointComponentEntityStorage`: store / retrieve / remove / query with node and user identity guards |

Files:

- `wrappers.dfy` holds `Option`, `Result` and `Outcome`. An `Outcome` is a `void` call that either returns or throws.
- `json.dfy` holds the JavaScript values a policy property can hold (`Json`), JavaScript truthiness (`Truthy`), and `JsonCodec`.
  - Numbers are finite decimals `mantissa × 10^exponent`, each written in exactly one canonical way (`Number`).
  - `JsonCodec` is the `JSON.stringify` / `JSON.parse` pair, passed as a value.
  - `Lawful` states five laws about the pair:
    - parse undoes stringify;
    - `JSON.parse("")` fails;
    - an object's text starts with `{`;
    - an array's text starts with `[`;
    - no other value's text starts with `[` or `{`.
- `example_codec.dfy` builds one concrete codec and proves that it meets all five laws. So the laws are consistent, and the round-trip lemmas that assume them apply to at least one codec.
- `odrl.dfy` holds the policy record `Policy` and `DefaultContext`, which stands for `OdrlContexts.Context`.
- `core.dfy` holds:
  - the thrown errors;
  - the platform guards (`Is.empty`, `Guards.object`, `Guards.number`, `Guards.integer`, `Guards.stringValue`);
  - `Array.prototype.map` as `MapSeq`;
  - the query request and page records.
- One file per converter pair (`pap_converters.dfy`, `pap_service_converters.dfy`, `entity_storage_converters.dfy`). Each is pure functions with round-trip lemmas.
- One file per component (`pap_component.dfy`, `pap_service.dfy`, `entity_storage_component.dfy`).
  - Each component is a class whose `entities: map<string, StoragePolicy>` field is the entity store behind it.
  - Its `Valid()` invariant says every entity sits under its own uid.
  - A thrown error is a `Failure` / `Fail` result.
  - Client methods beside each class chain its operations as the package's tests do. Examples: store then retrieve, remove then retrieve.

Modelling choices:

- **Foreign calls become parameters or constants.**
  - `JSON.stringify` / `JSON.parse` are a `JsonCodec` value held by the component.
  - `JsonLdHelper.validate` is the service's constant `validate: Policy -> bool`.
  - `Urn.generateRandom` is the `generatedUid` argument of `Create`.
  - The storage's `query` is a `connector` argument that maps the table and the request to a page.
- **Guards.** The twin.org guard functions are not part of this model. They are modelled as follows:
  - `Is.empty` holds for `null` / `undefined`.
  - `Guards.stringValue` accepts a non-empty string.
  - `Guards.object` accepts an object.
  - `Guards.number` accepts a number.
  - `Guards.integer` accepts a number with an integral value. For a canonical decimal, that means a non-negative exponent.
- **`OdrlContexts.Context`.** Its value comes from a package that is not part of this model. `DefaultContext` is a fixed JSON string standing for it. The proofs only use the fact that it is one fixed value.

## Model

| member | source | states |
|---|---|---|
| JsonValues.StringifyInvertible | packages/rights-management-pap/src/utils/odrlPolicyConverters.ts:173-197 | the JSON text of any value is non-empty (so the decoder's truthiness test lets it through) and parses back to the value |
| ExampleCodec.CodecIsLawful | packages/rights-management-pap/src/utils/odrlPolicyConverters.ts:17-200 | a concrete codec meets all five JSON laws this converter pair's round-trip lemmas assume, so those laws are consistent |
| ExampleCodec.PapRoundTrip | packages/rights-management-pap/src/utils/odrlPolicyConverters.ts:17-200 | with that concrete codec, `convertFrom(convertTo(p)) == p` for every policy `Encodable` admits |
| Core.NegativeExponentIsFractional | packages/rights-management-pap-service/src/policyAdministrationPointService.ts:152-154 | a canonical decimal with a negative exponent is not a whole number, so the integer guard rejects exactly those page sizes |
| Core.MapSeq | packages/rights-management-pap/src/policyAdministrationPointComponent.ts:111-117 | `entities.map(f)`: the result has one element per input element, the i-th being `f` of the i-th input |
| PapConverters.EncodeProperty | packages/rights-management-pap/src/utils/odrlPolicyConverters.ts:24-47 | a falsy (absent or `""`) property leaves the storage field unset, a string is stored verbatim, anything else is stored as its JSON text |
| PapConverters.AsText | packages/rights-management-pap/src/utils/odrlPolicyConverters.ts:24-30 | an encoded profile/target is stored as a single string, set exactly when the encoding is set |
| PapConverters.ToStorage | packages/rights-management-pap/src/utils/odrlPolicyConverters.ts:17-66 | uid and `@type` copied unchanged, `@context` always stored as its JSON text, each structured property as `EncodeProperty` says, `conflict` copied when truthy, each rule list stored as its JSON text when truthy and unset otherwise |
| PapConverters.DecodeString | packages/rights-management-pap/src/utils/odrlPolicyConverters.ts:107-165 | the stored string comes back verbatim unless it starts with one of the tested characters and parses, in which case the parsed value comes back; a parse failure falls back to the raw string |
| PapConverters.DecodeText | packages/rights-management-pap/src/utils/odrlPolicyConverters.ts:89-104 | a stored profile/target string decodes as `DecodeString` with `[` and `{`; a stored array becomes the parse of its first element exactly when that element looks like JSON and parses, and is otherwise kept as it is |
| PapConverters.ListKeepsOnlyFirstItem | packages/rights-management-pap/src/utils/odrlPolicyConverters.ts:89-104 | a stored list whose first text looks like JSON and parses decodes as that text alone, dropping every later element |
| PapConverters.DecodeProperty | packages/rights-management-pap/src/utils/odrlPolicyConverters.ts:107-165 | an assigner/assignee/action is set in the output exactly when it is a non-empty stored string, and then is its `DecodeString` |
| PapConverters.DecodeTextProperty | packages/rights-management-pap/src/utils/odrlPolicyConverters.ts:135-148 | a profile/target is set in the output exactly when the stored value is truthy, and then is its `DecodeText` |
| PapConverters.DecodeRules | packages/rights-management-pap/src/utils/odrlPolicyConverters.ts:173-197 | a rule list is set only when a non-empty stored text parses, and then is the parsed value; a parse failure leaves it undefined and is never an error |
| PapConverters.DecodeContext | packages/rights-management-pap/src/utils/odrlPolicyConverters.ts:81-86 | the stored `@context` parsed, or `OdrlContexts.Context` when parsing fails |
| PapConverters.FromStorage | packages/rights-management-pap/src/utils/odrlPolicyConverters.ts:73-200 | the output starts from exactly the stored uid and `@type`; no optional property appears unless it was set in storage; each set property is decoded with the prefix test of its kind (`[`/`{` for profile, target, action; `{` for assigner, assignee); `conflict` copied verbatim |
| PapConverters.PropertyRoundTrip | packages/rights-management-pap/src/utils/odrlPolicyConverters.ts:24-165 | under the JSON laws, an absent property, a non-empty string that does not look like JSON, or an array/object the decoder tests for, is restored exactly by encode-then-decode |
| PapConverters.RulesRoundTrip | packages/rights-management-pap/src/utils/odrlPolicyConverters.ts:53-63 | under the JSON laws, an absent or truthy rule list is restored exactly by encode-then-decode |
| PapConverters.RoundTrip | packages/rights-management-pap/src/utils/odrlPolicyConverters.ts:17-200 | under the JSON laws, `convertFrom(convertTo(p)) == p` for every `Encodable` policy. In such a policy:<br>- profile, target and action are each absent, a non-empty string not starting with `[`/`{`, an array, or an object;<br>- assigner and assignee are each absent, a non-empty string not starting with `{`, or an object;<br>- conflict is absent or non-empty;<br>- each rule list is absent or truthy |
| PapConverters.ScalarAndArrayLosses | packages/rights-management-pap/src/utils/odrlPolicyConverters.ts:24-165 | under the JSON laws, the round trip turns some values into their JSON text:<br>- a truthy number or boolean profile, target, action, assigner or assignee;<br>- an array assigner or assignee |
| PapConverters.PropertyLoss | packages/rights-management-pap/src/utils/odrlPolicyConverters.ts:29-165 | one assigner, assignee or action value the decoder's prefix test does not parse comes back as its JSON text |
| PapConverters.TextPropertyLoss | packages/rights-management-pap/src/utils/odrlPolicyConverters.ts:24-104 | a truthy number or boolean profile/target comes back as its JSON text |
| PapConverters.RoundTripKeepsIdentityAndRules | packages/rights-management-pap/src/utils/odrlPolicyConverters.ts:17-200 | for every policy, the round trip keeps uid, `@type`, `@context` and every present rule list, and loses every falsy optional property |
| PapComponent.MaxQueryResults | packages/rights-management-pap/src/policyAdministrationPointComponent.ts:52-54 | the configured `maxQueryResults`, or 100 when none is configured |
| PapComponent.PolicyAdministrationPointComponent.constructor | packages/rights-management-pap/src/policyAdministrationPointComponent.ts:47-55 | the component starts over the given table with the configured page size, 100 by default |
| PapComponent.PolicyAdministrationPointComponent.Store | packages/rights-management-pap/src/policyAdministrationPointComponent.ts:61-65 | the encoded policy is written under its uid; every other entry is unchanged; the table stays keyed by uid |
| PapComponent.PolicyAdministrationPointComponent.Retrieve | packages/rights-management-pap/src/policyAdministrationPointComponent.ts:72-80 | an absent id fails with `policyNotFound` (a `GeneralError` carrying the id) and changes nothing; a present one yields the decode of its entity, whose uid is the id |
| PapComponent.PolicyAdministrationPointComponent.Remove | packages/rights-management-pap/src/policyAdministrationPointComponent.ts:86-88 | the entry under the id is gone and nothing else changes |
| PapComponent.PolicyAdministrationPointComponent.Query | packages/rights-management-pap/src/policyAdministrationPointComponent.ts:96-118 | the storage is asked with the conditions, the cursor and the configured page size; the response has the page's cursor and exactly one decoded policy per returned entity, in order |
| PapComponent.StoreThenRetrieve | packages/rights-management-pap/tests/policyAdministrationPointComponent.spec.ts:41-71 | after `store(p)`, `retrieve(p.uid)` succeeds with the converter round trip of `p`, which is `p` itself under the round-trip conditions |
| PapComponent.StoreThenRetrieveKeepsPermissions | packages/rights-management-pap/tests/policyAdministrationPointComponent.spec.ts:41-71 | a stored policy with a permission array comes back with the same uid, `@type` and permission array |
| PapComponent.RemoveThenRetrieve | packages/rights-management-pap/tests/policyAdministrationPointComponent.spec.ts:77-87 | after `remove(id)`, `retrieve(id)` fails with `policyNotFound` |
| PapServiceConverters.ToStorage | packages/rights-management-pap-service/src/utils/odrlPolicyConverters.ts:12-28 | uid, `@type` and all nine optional properties copied verbatim (unset stays unset); `@context` has no storage field |
| PapServiceConverters.FromStorage | packages/rights-management-pap-service/src/utils/odrlPolicyConverters.ts:35-53 | every stored property copied verbatim; `@context` is always `OdrlContexts.Context` |
| PapServiceConverters.ContextNotStored | packages/rights-management-pap-service/src/utils/odrlPolicyConverters.ts:13-25 | two policies that differ only in `@context` are stored identically |
| PapServiceConverters.RoundTrip | packages/rights-management-pap-service/src/utils/odrlPolicyConverters.ts:12-53 | `convertFrom(convertTo(p))` is `p` with `@context` replaced by `OdrlContexts.Context` |
| PapServiceConverters.ReverseRoundTrip | packages/rights-management-pap-service/src/utils/odrlPolicyConverters.ts:12-53 | `convertTo(convertFrom(s)) == s` for every stored entity |
| PapService.QueryGuards | packages/rights-management-pap-service/src/policyAdministrationPointService.ts:146-154 | `query`'s arguments pass exactly when non-empty conditions are an object, a given cursor is a non-empty string and a non-empty page size is an integer; conditions are checked first |
| PapService.PageSizeOrDefault | packages/rights-management-pap-service/src/policyAdministrationPointService.ts:161 | `pageSize ?? 10` |
| PapService.PolicyAdministrationPointService.constructor | packages/rights-management-pap-service/src/policyAdministrationPointService.ts:49-56 | the service starts over the given table with the given validator |
| PapService.PolicyAdministrationPointService.Create | packages/rights-management-pap-service/src/policyAdministrationPointService.ts:63-81 | the input with the generated uid is validated; if invalid, a validation error and an unchanged table; otherwise the generated uid is returned and the table maps it to the encoding of the completed policy, other entries unchanged |
| PapService.PolicyAdministrationPointService.Update | packages/rights-management-pap-service/src/policyAdministrationPointService.ts:88-104 | an empty uid fails its guard; an unknown uid fails with `NotFound` before validation is consulted; an invalid policy fails validation; it succeeds exactly when the uid is known and the policy valid, and then only that entry is overwritten; every failure leaves the table unchanged |
| PapService.PolicyAdministrationPointService.Retrieve | packages/rights-management-pap-service/src/policyAdministrationPointService.ts:111-119 | an empty id fails its guard, an absent id fails with `NotFound`, a present one yields the decoded entity with that uid and `OdrlContexts.Context` |
| PapService.PolicyAdministrationPointService.Remove | packages/rights-management-pap-service/src/policyAdministrationPointService.ts:125-129 | an empty id fails its guard and changes nothing; otherwise the entry is gone and nothing else changes |
| PapService.PolicyAdministrationPointService.Query | packages/rights-management-pap-service/src/policyAdministrationPointService.ts:138-167 | a failed guard (among them a non-integer page size) is the error; otherwise the storage is asked with `pageSize ?? 10` and every returned entity is decoded, in order, with the page's cursor |
| PapService.CreateThenRetrieve | packages/rights-management-pap-service/src/policyAdministrationPointService.ts:63-119 | a valid policy once created is retrieved under the returned uid as the input with that uid and `OdrlContexts.Context` |
| PapService.RemoveThenRetrieve | packages/rights-management-pap-service/tests/policyAdministrationPointService.spec.ts:81-96 | after `remove(id)`, `retrieve(id)` fails with `NotFound` |
| EntityStorageConverters.KeepPresent | packages/rights-management-pap-entity-storage/src/utils/odrlPolicyConverters.ts:18-44 | a property is copied exactly when it is truthy, and then unchanged |
| EntityStorageConverters.KeepText | packages/rights-management-pap-entity-storage/src/utils/odrlPolicyConverters.ts:33-35 | `conflict` is copied exactly when it is a non-empty string |
| EntityStorageConverters.ToStorage | packages/rights-management-pap-entity-storage/src/utils/odrlPolicyConverters.ts:12-47 | uid copied; only the truthy optional properties copied, unchanged; neither `@type`, `@context` nor `nodeIdentity` set |
| EntityStorageConverters.FromStorage | packages/rights-management-pap-entity-storage/src/utils/odrlPolicyConverters.ts:54-92 | `@type` is always `"Set"` and `@context` always `OdrlContexts.Context`; exactly the truthy stored properties are copied, unchanged |
| EntityStorageConverters.Normalized | packages/rights-management-pap-entity-storage/src/utils/odrlPolicyConverters.ts:12-92 | the policy the round trip is meant to yield keeps the uid, has `@type` `"Set"` and `OdrlContexts.Context` |
| EntityStorageConverters.RoundTrip | packages/rights-management-pap-entity-storage/src/utils/odrlPolicyConverters.ts:12-92 | the round trip keeps uid and every truthy optional property, loses every falsy one, and its `@type` is `"Set"` whatever the input said |
| EntityStorageConverters.RoundTripExact | packages/rights-management-pap-entity-storage/src/utils/odrlPolicyConverters.ts:12-92 | the round trip returns the input exactly when its `@type` is `"Set"`, its `@context` is `OdrlContexts.Context`, and each optional property is unset or truthy (conflict unset or non-empty) |
| EntityStorageConverters.PolicyTypeNotKept | packages/rights-management-pap-entity-storage/src/utils/odrlPolicyConverters.ts:56-60 | a policy whose `@type` is not `"Set"` (an Offer or Agreement) never survives the round trip |
| EntityStorageConverters.StoreIdempotent | packages/rights-management-pap-entity-storage/src/utils/odrlPolicyConverters.ts:12-92 | storing a decoded policy again yields the same storage entity |
| EntityStorageComponent.IdentityGuards | packages/rights-management-pap-entity-storage/src/policyAdministrationPointComponentEntityStorage.ts:68-72 | the identities pass exactly when the node identity is non-empty and a given user identity is non-empty; the node identity is checked first |
| EntityStorageComponent.QueryGuards | packages/rights-management-pap-entity-storage/src/policyAdministrationPointComponentEntityStorage.ts:147-159 | `query`'s arguments pass exactly when the node identity is a non-empty string, given conditions are an object, a given cursor is non-empty, a given page size is a number and a given user identity is non-empty; the node identity is checked first |
| EntityStorageComponent.PageSizeOrDefault | packages/rights-management-pap-entity-storage/src/policyAdministrationPointComponentEntityStorage.ts:167 | `pageSize ?? 10` |
| EntityStorageComponent.PolicyAdministrationPointComponentEntityStorage.constructor | packages/rights-management-pap-entity-storage/src/policyAdministrationPointComponentEntityStorage.ts:44-55 | the component starts over the given table |
| EntityStorageComponent.PolicyAdministrationPointComponentEntityStorage.Store | packages/rights-management-pap-entity-storage/src/policyAdministrationPointComponentEntityStorage.ts:63-76 | a failed identity guard is the error and changes nothing; otherwise the encoded policy is written under its uid and nothing else changes |
| EntityStorageComponent.PolicyAdministrationPointComponentEntityStorage.Retrieve | packages/rights-management-pap-entity-storage/src/policyAdministrationPointComponentEntityStorage.ts:85-106 | an empty id, then the identities, are guarded; an absent id fails with `NotFoundError("policyNotFound")`; a present one yields the decoded entity, with that uid and `@type` `"Set"` |
| EntityStorageComponent.PolicyAdministrationPointComponentEntityStorage.Remove | packages/rights-management-pap-entity-storage/src/policyAdministrationPointComponentEntityStorage.ts:114-126 | the same guards; a failure changes nothing, otherwise the entry is gone and nothing else changes |
| EntityStorageComponent.PolicyAdministrationPointComponentEntityStorage.Query | packages/rights-management-pap-entity-storage/src/policyAdministrationPointComponentEntityStorage.ts:137-175 | a failed guard is the error; otherwise the storage is asked with the conditions, the cursor, `pageSize ?? 10` and both identities, and every returned entity is decoded, in order, with the page's cursor |
| EntityStorageComponent.StoreThenRetrieve | packages/rights-management-pap-entity-storage/src/policyAdministrationPointComponentEntityStorage.ts:63-106 | with passing identities, `store(p)` then `retrieve(p.uid)` yields `convertFrom(convertTo(p))` of this package, i.e. `p` with falsy properties dropped, `@type` `"Set"` and the default context |
| EntityStorageComponent.StoreEmptyUidThenRetrieve | packages/rights-management-pap-entity-storage/src/policyAdministrationPointComponentEntityStorage.ts:63-106 | `store` does not guard the uid but `retrieve` does: a policy with an empty uid is written, and reading it back fails the `policyId` guard |
| EntityStorageComponent.RemoveThenRetrieve | packages/rights-management-pap-entity-storage/tests/policyAdministrationPointComponent.spec.ts:87-107 | with passing identities, after `remove(id)`, `retrieve(id)` fails with `policyNotFound` |

## Left out

- JSON text itself. `JSON.stringify` / `JSON.parse` are opaque functions constrained only by the five laws above. The exact text, key order and number formatting are not modelled.
- `NaN`, the infinities and double rounding. JSON numbers are exact finite decimals. So `NaN` (which is falsy and stringifies to `null`) and the infinities do not exist in the model. A decimal that an IEEE double cannot hold exactly is kept exactly rather than rounded.
- `null` and wrongly typed arguments where the TypeScript types exclude them. Absent and `undefined` are both `None`.
  - `Guards.object(policy)` in the service and entity-storage components is not modelled: a `Policy` value is always an object.
- Other JSON-LD fields. The policy record holds the fields the storage entities declare. Any other JSON-LD field a caller passes is not modelled, since every converter drops it.
- JSON-LD validation. `JsonLdHelper.validate` followed by `Validation.asValidationError` is the boolean `validate`; the list of validation failures is not modelled.
- `Urn.generateRandom`. The fresh uid is the `generatedUid` argument; its format and freshness are not modelled.
- Storage `query` semantics (condition matching, cursors, page limits). They belong to the external connector, given as the `connector` argument. The model proves only what request is forwarded and how the returned page is decoded.
- Identity partitioning. The entity-storage connector receives `userIdentity` / `nodeIdentity` on every call. The model forwards them in `Query` only; the table is keyed by uid alone.
  - `set` receives the identities in (node, user) order, while `get`, `remove` and `query` receive them in (user, node) order. The model does not capture this difference.
  - The entity's `nodeIdentity` field is declared but never set by the encoder. It stays `None`.
- `convertToStoragePolicy(policy, nodeIdentity)` in the entity-storage component passes an argument the one-parameter converter ignores. The model calls the converter with the policy alone.
- PapComponent.PolicyAdministrationPointComponent: the class has private copies of the two converters (policyAdministrationPointComponent.ts lines 126-312). They are statement-for-statement the same as the exported functions in `utils/odrlPolicyConverters.ts`, so the component calls `PapConverters.ToStorage` / `FromStorage`. No separate equivalence lemma is stated.
- Constructors and factories. Option objects, `ComponentFactory` / `EntityStorageConnectorFactory` lookups and `OdrlDataTypes` registration are replaced by constructor arguments (the codec, the validator, the initial table).
- Asynchrony. Every `await` is treated as a sequential call, and the store never fails on its own.
- Error class details. Thrown errors keep their class, their message key and the guarded property name or id. Messages and inner errors are not modelled.
- Tests that disagree with the code. The model follows the code in each case:
  - The entity-storage tests expect a stored `"Offer"` to come back as an Offer; the converter always answers `"Set"` (see `EntityStorageConverters.PolicyTypeNotKept`).
  - The entity-storage tests call `query` with the identities in the `pageSize` / `userIdentity` positions.
  - The service tests call a `store` method that the service does not define.
- Decision, enforcement, execution, information and management point components, REST routes and clients, and the `RightsManagementService` / `RightsManagementPapService` wrappers. They hold no persistence logic of their own.
