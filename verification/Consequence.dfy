/** Protected consequences and the actions that cause them (oat/consequence/model.py, canonical.py). */
module Consequence {
  import opened Wrappers

  const NOT_APPLICABLE := "NOT_APPLICABLE"

  /** An exact action: the identities it binds, and its remaining digested fields as one text. */
  datatype Action = Action(sinkId: string, tenantId: string, principalId: string, releaseId: string, terms: string)

  datatype CommitEvent = CommitEvent(
    commitId: string,
    sinkId: string,
    routeId: string,
    tenantId: string,
    principalId: string,
    agentId: string,
    releaseId: string,
    actionDigest: string,
    action: Action,
    committedAt: int,
    authorizationRef: Option<string>,
    authorityStateRef: Option<string>,
    idempotencyKey: string,
    traceRef: string)

  datatype Receipt = Receipt(
    receiptId: string,
    commitId: string,
    sinkId: string,
    routeId: string,
    observedAt: int,
    actionDigest: string)

  datatype ProtectedSink = ProtectedSink(sinkId: string) {
    predicate Protects(c: CommitEvent) { c.sinkId == sinkId }
  }
}
