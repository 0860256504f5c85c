/**
 The transitions of a delivery: automatic verification, the settlement-hold link re-check, and
 the refresh of URL-reuse evidence. Each is one transaction under the lock of its order.
 */
module DeliveryVerification {
  import opened Outcomes
  import opened DeliveryState
  import opened DeliveryFraud

  datatype Skip = MISSING | STALE | VERSION_CONFLICT | TRANSIENT | NOT_VERIFIED | SUPERSEDED
  datatype Fault = CONFLICT_THROWN | RETRY_THROWN

  /** What a transaction reports; `Skipped` transactions and thrown faults change nothing. */
  datatype Reply = Committed(status: VerificationStatus) | Rechecked(removed: bool, restored: bool) | Skipped(reason: Skip)

  // ---------------------------------------------------------------- the guarded pointer

  datatype Pointer = Missing | Stale | Conflict | Current

  /** The delivery must still be the active, unsuperseded version of its order, at the expected generation. */
  function ReadPointer(db: Store, orderId: Id, v: VersionId, expected: nat): Pointer {
    if orderId !in db.orders || v !in db.deliveries then Missing
    else if db.orders[orderId].active != Some(v) || db.deliveries[v].orderId != orderId || db.deliveries[v].superseded then Stale
    else if db.deliveries[v].generation != expected then Conflict
    else Current
  }

  function SkipOf(p: Pointer): Skip {
    match p
    case Missing => MISSING
    case Stale => STALE
    case _ => VERSION_CONFLICT
  }

  // ---------------------------------------------------------------- verification

  /** The signals that the page itself gives, each with its details if it fires. */
  datatype Signals = Signals(target: Option<string>, anchor: Option<string>, domain: Option<string>, rapid: Option<string>)

  /** What was fetched: nothing usable, or a page whose snapshot was or was not stored. */
  datatype Page = Unavailable | Fetched(snapshotStored: bool, checksPass: bool, signals: Signals)

  datatype VerifyInput = VerifyInput(orderId: Id, version: VersionId, expected: nat, finalAttempt: bool, page: Page)

  function Signal(kind: FraudType, details: Option<string>): seq<Candidate> {
    if details.Some? then [Candidate(kind, OtherDetails(details.value))] else []
  }

  function PageCandidates(s: Signals): seq<Candidate> {
    Signal(TARGET_MISMATCH, s.target) + Signal(ANCHOR_MISMATCH, s.anchor) + Signal(DOMAIN_MISMATCH, s.domain)
    + Signal(RAPID_DELIVERY, s.rapid)
  }

  /** All signals of one decision; URL reuse is computed under the lock. */
  function LockedCandidates(db: Store, input: VerifyInput): seq<Candidate>
    requires input.version in db.deliveries && input.page.Fetched?
  {
    var reuse := BuildReuseCandidate(db.deliveries, input.orderId, db.deliveries[input.version].normalizedUrl);
    PageCandidates(input.page.signals) + if reuse.Some? then [reuse.value] else []
  }

  function BaseStatus(page: Page): VerificationStatus
    requires page.Fetched?
  {
    if !page.snapshotStored then MANUAL_REVIEW else if page.checksPass then PASSED else FAILED
  }

  function NewFlags(orderId: Id, version: VersionId, candidates: seq<Candidate>): seq<Flag> {
    seq(|candidates|, i requires 0 <= i < |candidates| =>
      Flag(orderId, version, candidates[i].kind, candidates[i].details, None, false))
  }

  function EffectiveStatus(db: Store, input: VerifyInput): VerificationStatus
    requires input.version in db.deliveries && input.page.Fetched?
  {
    var base := BaseStatus(input.page);
    var e := Evaluate(db.flags, input.version, LockedCandidates(db, input));
    if base.PASSED? && (Held(db.flags, input.orderId) || e.hasUnresolved || e.toCreate != []) then MANUAL_REVIEW else base
  }

  /** The rows that a decision writes: evidence, the delivery, new flags, and the order if it passed. */
  function Decided(db: Store, input: VerifyInput): Store
    requires input.version in db.deliveries && input.orderId in db.orders && input.page.Fetched?
  {
    var d, o := db.deliveries[input.version], db.orders[input.orderId];
    var status := EffectiveStatus(db, input);
    var e := Evaluate(db.flags, input.version, LockedCandidates(db, input));
    Store(if status.PASSED? then db.orders[input.orderId := o.(status := OrderStatus.VERIFIED, version := o.version + 1)]
          else db.orders,
          db.deliveries[input.version := d.(status := status, generation := input.expected + 1)],
          db.flags + NewFlags(input.orderId, input.version, e.toCreate),
          if input.page.snapshotStored then db.snapshots + [input.version] else db.snapshots,
          db.evidence + [input.version])
  }

  function Verify(db: Store, input: VerifyInput): Result<(Store, Reply), Fault> {
    if input.page.Fetched? && !input.page.snapshotStored && !input.finalAttempt then Err(RETRY_THROWN)
    else
      var p := ReadPointer(db, input.orderId, input.version, input.expected);
      if input.page.Fetched? && p.Conflict? then Err(CONFLICT_THROWN)
      else if !p.Current? then Ok((db, Skipped(SkipOf(p))))
      else if !db.orders[input.orderId].status.PUBLISHED? then Ok((db, Skipped(STALE)))
      else if input.page.Fetched? then Ok((Decided(db, input), Committed(EffectiveStatus(db, input))))
      else
        var d := db.deliveries[input.version];
        var d' := if input.finalAttempt then d.(status := MANUAL_REVIEW, generation := input.expected + 1)
                  else d.(status := RETRYING);
        Ok((db.(deliveries := db.deliveries[input.version := d']), Committed(d'.status)))
  }

  // ---------------------------------------------------------------- link re-check

  datatype LinkState = Unreachable | LinkPresent | LinkGone

  /** What the re-check reads before it fetches the page; its transaction checks the generation again. */
  datatype Observation = Observation(orderId: Id, version: VersionId, generation: nat, hadRemovalFlag: bool)

  predicate OpenRemoval(f: Flag, v: VersionId) {
    f.version == v && f.kind.LINK_REMOVED? && Unresolved(f) && !f.finding
  }

  /** The first open removal flag at or after row `from`. */
  function FirstRemoval(flags: seq<Flag>, v: VersionId, from: nat): (r: Option<nat>)
    requires from <= |flags|
    ensures r.Some? ==> from <= r.value < |flags| && OpenRemoval(flags[r.value], v)
    ensures r.None? ==> forall k :: from <= k < |flags| ==> !OpenRemoval(flags[k], v)
    decreases |flags| - from
  {
    if from == |flags| then None
    else if OpenRemoval(flags[from], v) then Some(from)
    else FirstRemoval(flags, v, from + 1)
  }

  function Observe(db: Store, v: VersionId): Result<Observation, Skip> {
    if v !in db.deliveries then Err(MISSING)
    else
      var d := db.deliveries[v];
      var had := d.status.FAILED? && FirstRemoval(db.flags, v, 0).Some?;
      if d.superseded then Err(SUPERSEDED)
      else if !d.status.PASSED? && !d.intervention.APPROVED? && !had then Err(NOT_VERIFIED)
      else Ok(Observation(d.orderId, v, d.generation, had))
  }

  const LINK_RESTORED_RESOLUTION: Resolution := Resolution(LINK_RESTORED, None, None, None)

  function Monitored(d: Delivery): bool {
    d.status.PASSED? || d.intervention.APPROVED?
  }

  function Recheck(db: Store, o: Observation, link: LinkState): (Store, Reply) {
    var p := ReadPointer(db, o.orderId, o.version, o.generation);
    if link.Unreachable? then (db, Skipped(TRANSIENT))
    else if o.hadRemovalFlag && link.LinkGone? then (db, Rechecked(false, false))
    else if !p.Current? then (db, Skipped(VERSION_CONFLICT))
    else
      var d := db.deliveries[o.version];
      if o.hadRemovalFlag then
        var k := FirstRemoval(db.flags, o.version, 0);
        if k.None? then (db, Skipped(VERSION_CONFLICT))
        else
          (db.(deliveries := db.deliveries[o.version := d.(status := PASSED, intervention := NONE, generation := o.generation + 1)],
               flags := db.flags[k.value := db.flags[k.value].(resolution := Some(LINK_RESTORED_RESOLUTION))],
               evidence := db.evidence + [o.version]),
           Rechecked(false, true))
      else if !Monitored(d) then (db, Skipped(VERSION_CONFLICT))
      else if link.LinkPresent? then (db.(evidence := db.evidence + [o.version]), Rechecked(false, false))
      else
        var flag := Flag(o.orderId, o.version, LINK_REMOVED, OtherDetails("link removed"), None, false);
        (db.(deliveries := db.deliveries[o.version := d.(status := FAILED, intervention := REJECTED, generation := o.generation + 1)],
             flags := if HasUnresolved(db.flags, o.version, LINK_REMOVED) then db.flags else db.flags + [flag],
             evidence := db.evidence + [o.version]),
         Rechecked(true, false))
  }

  // ---------------------------------------------------------------- refresh of URL-reuse evidence

  predicate ClearsReuse(f: Flag, v: VersionId, c: Candidate) {
    && f.version == v && f.kind.URL_REUSED?
    && ReuseEvidenceMatches(f.details, c.details)
    && f.resolution.Some? && ClassifiedReuseDisposition(f.resolution.value, v).Some?
  }

  /** Whether the delivery needs a review, and the flag that a changed claim set raises. */
  function RefreshReuse(db: Store, orderId: Id, v: VersionId, url: string): (Store, bool) {
    var c := BuildReuseCandidate(db.deliveries, orderId, url);
    if HasUnresolved(db.flags, v, URL_REUSED) then (db, true)
    else if c.None? then (db, false)
    else if exists k :: 0 <= k < |db.flags| && ClearsReuse(db.flags[k], v, c.value) then (db, false)
    else (db.(flags := db.flags + NewFlags(orderId, v, [c.value])), true)
  }

  // ---------------------------------------------------------------- runs

  datatype Step =
    | VerifyDelivery(input: VerifyInput)
    | RecheckLink(observed: Observation, link: LinkState)
    | RefreshUrlReuse(version: VersionId)
    // Everything else the platform does to these rows.
    | SubmitDelivery(version: VersionId, delivery: Delivery)
    | ChangeDelivery(version: VersionId, delivery: Delivery)
    | ChangeOrder(orderId: Id, order: Order)
    | ResolveFlag(k: nat, resolution: Resolution)
    | ConfirmFinding(k: nat)

  function Next(db: Store, step: Step): Store {
    match step
    case VerifyDelivery(input) => var r := Verify(db, input); if r.Ok? then r.value.0 else db
    case RecheckLink(o, link) => Recheck(db, o, link).0
    case RefreshUrlReuse(v) =>
      if v !in db.deliveries then db else RefreshReuse(db, db.deliveries[v].orderId, v, db.deliveries[v].normalizedUrl).0
    case SubmitDelivery(v, d) => if v in db.deliveries then db else db.(deliveries := db.deliveries[v := d])
    case ChangeDelivery(v, d) =>
      if v !in db.deliveries || d.orderId != db.deliveries[v].orderId || d.normalizedUrl != db.deliveries[v].normalizedUrl
         || d.generation < db.deliveries[v].generation then db
      else db.(deliveries := db.deliveries[v := d])
    case ChangeOrder(id, o) => db.(orders := db.orders[id := o])
    case ResolveFlag(k, r) =>
      if k >= |db.flags| || !Unresolved(db.flags[k]) then db
      else db.(flags := db.flags[k := db.flags[k].(resolution := Some(r))])
    case ConfirmFinding(k) =>
      if k >= |db.flags| || !Unresolved(db.flags[k]) then db else db.(flags := db.flags[k := db.flags[k].(finding := true)])
  }

  function Run(db: Store, steps: seq<Step>): Store
    decreases |steps|
  {
    if steps == [] then db else Run(Next(db, steps[0]), steps[1..])
  }
}
