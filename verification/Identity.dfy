/** Review identities, request keys and gate states shared by the core and the server. */
module Identity {
  datatype GateState = AwaitingReview | InProgress | Passed | PassedWithBypass | Blocked | Error

  datatype PolicyVersion = PolicyVersion(semver: string, sha256: string)

  datatype RequestKey = RequestKey(
    sourceRepository: string,
    targetRef: string,
    targetHeadOid: string,
    proposedHeadOid: string,
    policyVersion: PolicyVersion)

  datatype MergeCandidate = MergeCandidate(
    sourceRepository: string,
    targetRef: string,
    targetHeadOid: string,
    proposedHeadOid: string,
    mergeTreeOid: string)

  datatype ReviewIdentity = ReviewIdentity(candidate: MergeCandidate, policyVersion: PolicyVersion)

  /** The identity was built from exactly the heads and the policy the key names. */
  predicate Matches(identity: ReviewIdentity, key: RequestKey) {
    && identity.candidate.sourceRepository == key.sourceRepository
    && identity.candidate.targetRef == key.targetRef
    && identity.candidate.targetHeadOid == key.targetHeadOid
    && identity.candidate.proposedHeadOid == key.proposedHeadOid
    && identity.policyVersion == key.policyVersion
  }
}
