/**
 Deliveries, their fraud flags and what staff decided about them. Flags are never deleted,
 so their row id is their position; delivery versions are ordered by their id.
 */
module DeliveryState {
  import opened Outcomes

  type Id = string
  type VersionId = nat

  datatype OrderStatus = PUBLISHED | VERIFIED | OtherOrderStatus(name: string)
  datatype VerificationStatus = PENDING | RETRYING | PASSED | FAILED | MANUAL_REVIEW
  datatype Intervention = NONE | APPROVED | REJECTED

  datatype FraudType = TARGET_MISMATCH | ANCHOR_MISMATCH | DOMAIN_MISMATCH | RAPID_DELIVERY | URL_REUSED | LINK_REMOVED

  datatype Claim = Claim(orderId: Id, version: VersionId)

  /** The hashed evidence of a claim set; it stands for its digest. */
  datatype ClaimSet = ClaimSet(reuseCount: nat, sampled: seq<Claim>, truncated: bool)

  /** The stored details of a flag. Other details stand for their JSON value. */
  datatype Details =
    | Reuse(otherOrderId: Id, otherVersion: VersionId, reuseCount: nat, fingerprint: ClaimSet)
    | LegacyReuse(otherOrderId: Id, otherVersion: VersionId, reuseCount: nat)
    | OtherDetails(value: string)

  datatype Role = OPERATIONS | FINANCE | SUPER_ADMIN | OtherRole(name: string)
  datatype Disposition = FALSE_POSITIVE | AUTHORIZED_REUSE | RISK_ACCEPTED | Unclassified(name: string)
  datatype ResolutionKind = STAFF_CLEARED | LINK_RESTORED | OtherResolution(name: string)

  /** An evidence reference as JSON carries it. */
  datatype Reference = NoReference | NotText | ReferenceText(text: string)

  datatype StaffEvidence = StaffEvidence(
    disposition: Disposition,
    fraudType: FraudType,
    adjudicatedVersion: VersionId,
    roleAtTime: Option<Role>,
    reference: Reference
  )

  datatype Resolution = Resolution(
    kind: ResolutionKind,
    resolvedBy: Option<Id>,
    role: Option<Role>,
    evidence: Option<StaffEvidence>
  )

  datatype Flag = Flag(
    orderId: Id,
    version: VersionId,
    kind: FraudType,
    details: Details,
    resolution: Option<Resolution>,
    finding: bool
  )

  datatype Order = Order(status: OrderStatus, version: nat, active: Option<VersionId>)

  datatype Delivery = Delivery(
    orderId: Id,
    normalizedUrl: string,
    status: VerificationStatus,
    intervention: Intervention,
    generation: nat,
    superseded: bool
  )

  datatype Store = Store(
    orders: map<Id, Order>,
    deliveries: map<VersionId, Delivery>,
    flags: seq<Flag>,
    snapshots: seq<VersionId>,
    evidence: seq<VersionId>
  )

  predicate Unresolved(f: Flag) {
    f.resolution.None?
  }

  /** The payout of an order is held while one of its flags is unresolved. */
  predicate Held(flags: seq<Flag>, orderId: Id) {
    exists i :: 0 <= i < |flags| && flags[i].orderId == orderId && Unresolved(flags[i])
  }

  predicate HasUnresolved(flags: seq<Flag>, version: VersionId, kind: FraudType) {
    exists i :: 0 <= i < |flags| && flags[i].version == version && flags[i].kind == kind && Unresolved(flags[i])
  }

  /** At most one unresolved flag for each delivery version and type. */
  ghost predicate OneUnresolved(flags: seq<Flag>) {
    forall i, j | 0 <= i < j < |flags| :: Unresolved(flags[i]) && Unresolved(flags[j]) ==>
      flags[i].version != flags[j].version || flags[i].kind != flags[j].kind
  }
}
