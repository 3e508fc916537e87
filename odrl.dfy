/**
 * The ODRL policy record exchanged with the Policy Administration Point
 * (`IOdrlPolicy`, shaped after the Policy class of the W3C ODRL Information
 * Model 2.2, section 2.1).
 */
module Odrl {
  import opened Wrappers
  import opened JsonValues

  /**
   * An ODRL policy. `context` is "@context" and `policyType` is "@type". The
   * party, asset, action and rule properties are kept as the JavaScript values
   * a caller hands over, so a string is `JStr` and a structured value is an
   * array or an object.
   */
  datatype Policy = Policy(
    context: Json,
    policyType: string,
    uid: string,
    profile: Option<Json>,
    assigner: Option<Json>,
    assignee: Option<Json>,
    target: Option<Json>,
    action: Option<Json>,
    conflict: Option<string>,
    permission: Option<Json>,
    prohibition: Option<Json>,
    obligation: Option<Json>)

  /** `OdrlContexts.Context`: the ODRL JSON-LD context IRI. */
  const DefaultContext: Json := JStr("http://www.w3.org/ns/odrl.jsonld")
}
