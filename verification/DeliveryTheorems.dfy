/** The promises of delivery verification over single transactions and over runs. */
module DeliveryTheorems {
  import opened Outcomes
  import opened DeliveryState
  import opened DeliveryFraud
  import opened DeliveryVerification

  // ---------------------------------------------------------------- one unresolved flag per type

  ghost predicate DistinctKinds(cs: seq<Candidate>) {
    forall i, j :: 0 <= i < j < |cs| ==> cs[i].kind != cs[j].kind
  }

  lemma CandidatesDistinct(db: Store, input: VerifyInput)
    requires input.version in db.deliveries && input.page.Fetched?
    ensures DistinctKinds(LockedCandidates(db, input))
  {
    hide BuildReuseCandidate;
    var s := input.page.signals;
    assert |Signal(TARGET_MISMATCH, s.target)| <= 1 && |Signal(ANCHOR_MISMATCH, s.anchor)| <= 1;
    assert |Signal(DOMAIN_MISMATCH, s.domain)| <= 1 && |Signal(RAPID_DELIVERY, s.rapid)| <= 1;
    ReuseKind(db.deliveries, input.orderId, db.deliveries[input.version].normalizedUrl);
  }

  lemma ReuseKind(deliveries: map<VersionId, Delivery>, orderId: Id, url: string)
    ensures BuildReuseCandidate(deliveries, orderId, url).Some? ==> BuildReuseCandidate(deliveries, orderId, url).value.kind == URL_REUSED
  {
  }

  /** What is created keeps the order of the candidates, so its types are distinct too. */
  lemma {:induction false} CreatedDistinct(flags: seq<Flag>, v: VersionId, candidates: seq<Candidate>)
    requires DistinctKinds(candidates)
    ensures DistinctKinds(Evaluate(flags, v, candidates).toCreate)
    ensures forall c :: c in Evaluate(flags, v, candidates).toCreate ==> c in candidates && !HasUnresolved(flags, v, c.kind)
  {
    if candidates != [] {
      var n := |candidates| - 1;
      CreatedDistinct(flags, v, candidates[..n]);
      assert forall c :: c in candidates[..n] ==> c.kind != candidates[n].kind;
    }
  }

  lemma NewFlagsKeepOne(flags: seq<Flag>, orderId: Id, v: VersionId, cs: seq<Candidate>)
    requires OneUnresolved(flags) && DistinctKinds(cs) && forall c :: c in cs ==> !HasUnresolved(flags, v, c.kind)
    ensures OneUnresolved(flags + NewFlags(orderId, v, cs))
  {
    var all := flags + NewFlags(orderId, v, cs);
    forall i, j | 0 <= i < j < |all| && Unresolved(all[i]) && Unresolved(all[j])
      ensures all[i].version != all[j].version || all[i].kind != all[j].kind
    {
      if j >= |flags| {
        assert cs[j - |flags|] in cs;
      }
    }
  }

  lemma VerifyKeepsOne(db: Store, input: VerifyInput)
    requires OneUnresolved(db.flags) && Verify(db, input).Ok?
    ensures OneUnresolved(Verify(db, input).value.0.flags)
  {
    hide Evaluate, LockedCandidates, NewFlags, OneUnresolved, EffectiveStatus, DistinctKinds;
    if input.page.Fetched? && input.version in db.deliveries {
      var cs := LockedCandidates(db, input);
      CandidatesDistinct(db, input);
      CreatedDistinct(db.flags, input.version, cs);
      NewFlagsKeepOne(db.flags, input.orderId, input.version, Evaluate(db.flags, input.version, cs).toCreate);
    }
  }

  lemma RecheckKeepsOne(db: Store, o: Observation, link: LinkState)
    requires OneUnresolved(db.flags)
    ensures OneUnresolved(Recheck(db, o, link).0.flags)
  {
    if !HasUnresolved(db.flags, o.version, LINK_REMOVED) {
      var c := Candidate(LINK_REMOVED, OtherDetails("link removed"));
      NewFlagsKeepOne(db.flags, o.orderId, o.version, [c]);
      assert NewFlags(o.orderId, o.version, [c]) == [Flag(o.orderId, o.version, LINK_REMOVED, c.details, None, false)];
    }
  }

  lemma RefreshKeepsOne(db: Store, orderId: Id, v: VersionId, url: string)
    requires OneUnresolved(db.flags)
    ensures OneUnresolved(RefreshReuse(db, orderId, v, url).0.flags)
  {
    hide BuildReuseCandidate, OneUnresolved, NewFlags, HasUnresolved;
    var c := BuildReuseCandidate(db.deliveries, orderId, url);
    if c.Some? && !HasUnresolved(db.flags, v, URL_REUSED) {
      ReuseKind(db.deliveries, orderId, url);
      NewFlagsKeepOne(db.flags, orderId, v, [c.value]);
    }
  }

  /** Flags carry the order of their delivery version. */
  ghost predicate FlagsOwned(db: Store) {
    forall i :: 0 <= i < |db.flags| ==>
      db.flags[i].version in db.deliveries && db.deliveries[db.flags[i].version].orderId == db.flags[i].orderId
  }

  ghost predicate Valid(db: Store) {
    OneUnresolved(db.flags) && FlagsOwned(db)
  }

  lemma NextKeepsOwned(db: Store, step: Step)
    requires FlagsOwned(db)
    ensures FlagsOwned(Next(db, step))
  {
    hide Evaluate, LockedCandidates, BuildReuseCandidate, EffectiveStatus;
  }

  lemma NextKeepsValid(db: Store, step: Step)
    requires Valid(db)
    ensures Valid(Next(db, step))
  {
    NextKeepsOwned(db, step);
    hide FlagsOwned, Verify, Recheck, RefreshReuse;
    match step
    case VerifyDelivery(input) =>
      if Verify(db, input).Ok? {
        VerifyKeepsOne(db, input);
      }
    case RecheckLink(o, link) => RecheckKeepsOne(db, o, link);
    case RefreshUrlReuse(v) =>
      if v in db.deliveries {
        RefreshKeepsOne(db, db.deliveries[v].orderId, v, db.deliveries[v].normalizedUrl);
      }
    case _ =>
  }

  lemma {:induction false} RunKeepsValid(db: Store, steps: seq<Step>)
    requires Valid(db)
    ensures Valid(Run(db, steps))
    decreases |steps|
  {
    hide Next, Valid;
    if steps != [] {
      NextKeepsValid(db, steps[0]);
      RunKeepsValid(Next(db, steps[0]), steps[1..]);
    }
  }

  const EMPTY: Store := Store(map[], map[], [], [], [])

  /** After any run, each delivery version has at most one unresolved flag of each type. */
  lemma OneUnresolvedFlag(steps: seq<Step>, i: nat, j: nat)
    requires i < j < |Run(EMPTY, steps).flags|
    requires Unresolved(Run(EMPTY, steps).flags[i]) && Unresolved(Run(EMPTY, steps).flags[j])
    ensures var flags := Run(EMPTY, steps).flags; flags[i].version != flags[j].version || flags[i].kind != flags[j].kind
  {
    hide Run;
    RunKeepsValid(EMPTY, steps);
  }

  // ---------------------------------------------------------------- when an order is verified

  /** The conditions of automatic verification, each of them on the rows the transaction sees. */
  ghost predicate Ready(db: Store, input: VerifyInput) {
    && input.orderId in db.orders && input.version in db.deliveries
    && db.orders[input.orderId].status.PUBLISHED?
    && db.orders[input.orderId].active == Some(input.version)
    && db.deliveries[input.version].orderId == input.orderId
    && !db.deliveries[input.version].superseded
    && db.deliveries[input.version].generation == input.expected
    && input.page.Fetched? && input.page.snapshotStored && input.page.checksPass
    && !Held(db.flags, input.orderId)
    && forall c :: c in LockedCandidates(db, input) ==> Reusable(db.flags, input.version, c)
  }

  /**
   An order is verified automatically exactly when its active, unsuperseded delivery passed at the
   expected generation with a stored snapshot, nothing holds the order, and staff have classified
   every signal in exactly its present form. Otherwise no order changes.
   */
  lemma VerifiedExactlyWhenReady(db: Store, input: VerifyInput)
    ensures Ready(db, input) <==>
              Verify(db, input).Ok? && Verify(db, input).value.1 == Committed(PASSED)
    ensures Verify(db, input).Ok? ==>
              Verify(db, input).value.0.orders
              == if Ready(db, input)
                 then db.orders[input.orderId := db.orders[input.orderId].(status := OrderStatus.VERIFIED,
                                                                          version := db.orders[input.orderId].version + 1)]
                 else db.orders
    ensures Ready(db, input) ==>
              var db' := Verify(db, input).value.0;
              db'.flags == db.flags && input.version in db'.snapshots && db'.deliveries[input.version].generation == input.expected + 1
  {
    hide EffectiveStatus, Evaluate, LockedCandidates, Held, Reusable, BaseStatus;
    if input.page.Fetched? && input.version in db.deliveries {
      PassesExactly(db, input);
      assert NewFlags(input.orderId, input.version, []) == [];
    }
  }

  lemma PassesExactly(db: Store, input: VerifyInput)
    requires input.page.Fetched? && input.version in db.deliveries
    ensures EffectiveStatus(db, input).PASSED? <==>
              && input.page.snapshotStored && input.page.checksPass && !Held(db.flags, input.orderId)
              && forall c :: c in LockedCandidates(db, input) ==> Reusable(db.flags, input.version, c)
    ensures EffectiveStatus(db, input).PASSED? ==> Evaluate(db.flags, input.version, LockedCandidates(db, input)).toCreate == []
  {
    var cs := LockedCandidates(db, input);
    EvaluationPartitions(db.flags, input.version, cs);
    NothingLeft(db.flags, input.version, cs, Evaluate(db.flags, input.version, cs));
    hide Evaluate, LockedCandidates, Held, Reusable;
  }

  lemma NothingLeft(flags: seq<Flag>, v: VersionId, cs: seq<Candidate>, e: Evaluation)
    requires forall c :: c in e.toCreate <==> c in cs && Fresh(flags, v, c)
    requires e.hasUnresolved <==> exists i :: 0 <= i < |cs| && HasUnresolved(flags, v, cs[i].kind)
    ensures e.toCreate == [] && !e.hasUnresolved <==> forall c :: c in cs ==> Reusable(flags, v, c)
  {
    hide HasUnresolved, Cleared;
    assert e.toCreate != [] ==> e.toCreate[0] in e.toCreate;
    assert forall i :: 0 <= i < |cs| ==> cs[i] in cs;
  }

  // ---------------------------------------------------------------- generations

  lemma NextGenerationGrows(db: Store, step: Step, v: VersionId)
    requires v in db.deliveries
    ensures v in Next(db, step).deliveries && Next(db, step).deliveries[v].generation >= db.deliveries[v].generation
  {
    hide Evaluate, LockedCandidates, BuildReuseCandidate, EffectiveStatus;
  }

  lemma {:induction false} GenerationGrows(db: Store, steps: seq<Step>, v: VersionId)
    requires v in db.deliveries
    ensures v in Run(db, steps).deliveries && Run(db, steps).deliveries[v].generation >= db.deliveries[v].generation
    decreases |steps|
  {
    hide Next;
    if steps != [] {
      NextGenerationGrows(db, steps[0], v);
      GenerationGrows(Next(db, steps[0]), steps[1..], v);
    }
  }

  /** A generation is spent once the delivery has moved past it. */
  ghost predicate Spent(db: Store, v: VersionId, generation: nat) {
    v in db.deliveries && db.deliveries[v].generation > generation
  }

  /** A decision and a removal or restoration spend their generation. */
  lemma CommitsSpend(db: Store, input: VerifyInput, o: Observation, link: LinkState)
    ensures Verify(db, input).Ok? && Verify(db, input).value.1.Committed? && (input.page.Fetched? || input.finalAttempt) ==>
              Spent(Verify(db, input).value.0, input.version, input.expected)
    ensures Recheck(db, o, link).1.Rechecked? && (Recheck(db, o, link).1.removed || Recheck(db, o, link).1.restored) ==>
              Spent(Recheck(db, o, link).0, o.version, o.generation)
  {
    hide Evaluate, LockedCandidates, BuildReuseCandidate, EffectiveStatus;
  }

  /** Jobs that carry a spent generation change nothing, now and in every later state. */
  lemma SpentGenerationChangesNothing(db: Store, steps: seq<Step>, input: VerifyInput, o: Observation, link: LinkState)
    requires Spent(db, input.version, input.expected) && o.version == input.version && o.generation == input.expected
    ensures var later := Run(db, steps);
            Next(later, VerifyDelivery(input)) == later && Next(later, RecheckLink(o, link)) == later
  {
    GenerationGrows(db, steps, input.version);
    hide Run, Evaluate, LockedCandidates, BuildReuseCandidate, EffectiveStatus;
  }

  // ---------------------------------------------------------------- removal and restoration

  /** A removed link holds its order, and nothing verifies the order automatically until that is resolved. */
  lemma RemovalHolds(db: Store, o: Observation, link: LinkState, input: VerifyInput)
    requires Recheck(db, o, link).1 == Rechecked(true, false) && FlagsOwned(db)
    ensures var db' := Recheck(db, o, link).0;
            && Held(db'.flags, o.orderId) && HasUnresolved(db'.flags, o.version, LINK_REMOVED)
            && db'.deliveries[o.version].status.FAILED?
            && (input.orderId == o.orderId ==> !Ready(db', input))
  {
    var db' := Recheck(db, o, link).0;
    if HasUnresolved(db.flags, o.version, LINK_REMOVED) {
      var i :| 0 <= i < |db.flags| && db.flags[i].version == o.version && db.flags[i].kind == LINK_REMOVED && Unresolved(db.flags[i]);
      assert Unresolved(db'.flags[i]) && db'.flags[i].orderId == o.orderId;
    } else {
      assert Unresolved(db'.flags[|db.flags|]);
    }
  }

  /** The removal that a re-check of a monitored delivery commits. */
  lemma RemovalEffect(db: Store, v: VersionId) returns (gone: Store)
    requires Observe(db, v).Ok? && !HasUnresolved(db.flags, v, LINK_REMOVED)
    requires ReadPointer(db, Observe(db, v).value.orderId, v, Observe(db, v).value.generation).Current?
    ensures Recheck(db, Observe(db, v).value, LinkGone) == (gone, Rechecked(true, false))
    ensures gone.orders == db.orders && |gone.flags| == |db.flags| + 1 && gone.flags[..|db.flags|] == db.flags
    ensures v in gone.deliveries && gone.deliveries[v].status.FAILED? && !gone.deliveries[v].intervention.APPROVED?
    ensures gone.deliveries[v].generation == db.deliveries[v].generation + 1
    ensures Observe(gone, v) == Ok(Observation(db.deliveries[v].orderId, v, db.deliveries[v].generation + 1, true))
    ensures FirstRemoval(gone.flags, v, 0) == Some(|db.flags|)
    ensures ReadPointer(gone, db.deliveries[v].orderId, v, db.deliveries[v].generation + 1).Current?
  {
    var o := Observe(db, v).value;
    var n := |db.flags|;
    gone := Recheck(db, o, LinkGone).0;
    assert gone.flags[..n] == db.flags && OpenRemoval(gone.flags[n], v);
    assert forall k :: 0 <= k < n ==> gone.flags[k] == db.flags[k];
    forall k | 0 <= k < n ensures !OpenRemoval(gone.flags[k], v) {
      assert !(db.flags[k].version == v && db.flags[k].kind == LINK_REMOVED && Unresolved(db.flags[k]));
    }
  }

  /** The restoration that a re-check of a removed delivery commits. */
  lemma RestorationEffect(db: Store, v: VersionId, k: nat) returns (back: Store)
    requires Observe(db, v).Ok? && Observe(db, v).value.hadRemovalFlag && FirstRemoval(db.flags, v, 0) == Some(k)
    requires ReadPointer(db, Observe(db, v).value.orderId, v, Observe(db, v).value.generation).Current?
    ensures Recheck(db, Observe(db, v).value, LinkPresent) == (back, Rechecked(false, true))
    ensures back.orders == db.orders && v in back.deliveries
    ensures back.deliveries[v] == db.deliveries[v].(status := PASSED, intervention := NONE,
                                                    generation := db.deliveries[v].generation + 1)
    ensures k < |db.flags| && back.flags == db.flags[k := db.flags[k].(resolution := Some(LINK_RESTORED_RESOLUTION))]
  {
    back := Recheck(db, Observe(db, v).value, LinkPresent).0;
  }

  /**
   A link that comes back is restored by the next re-check: the delivery passes again two
   generations later, and exactly the flag that the removal raised is resolved.
   */
  lemma RemovalThenRestoration(db: Store, v: VersionId) returns (gone: Store, back: Store)
    requires Observe(db, v).Ok? && !HasUnresolved(db.flags, v, LINK_REMOVED)
    requires ReadPointer(db, Observe(db, v).value.orderId, v, Observe(db, v).value.generation).Current?
    ensures Recheck(db, Observe(db, v).value, LinkGone) == (gone, Rechecked(true, false)) && Observe(gone, v).Ok?
    ensures Recheck(gone, Observe(gone, v).value, LinkPresent) == (back, Rechecked(false, true))
    ensures back.orders == db.orders && v in back.deliveries && v in db.deliveries
    ensures back.deliveries[v].status.PASSED? && back.deliveries[v].intervention.NONE?
    ensures back.deliveries[v].generation == db.deliveries[v].generation + 2
    ensures |back.flags| == |db.flags| + 1 && back.flags[..|db.flags|] == db.flags
    ensures back.flags[|db.flags|].resolution == Some(LINK_RESTORED_RESOLUTION)
    ensures !HasUnresolved(back.flags, v, LINK_REMOVED)
  {
    gone := RemovalEffect(db, v);
    hide Recheck, Observe, ReadPointer;
    var n := |db.flags|;
    back := RestorationEffect(gone, v, n);
    assert back.flags[..n] == db.flags;
    forall i | 0 <= i < |back.flags| && back.flags[i].version == v && back.flags[i].kind == LINK_REMOVED
      ensures !Unresolved(back.flags[i])
    {
      assert i < n ==> back.flags[i] == db.flags[i];
    }
  }

  // ---------------------------------------------------------------- both cores decide alike

  /** The URL core asks for a review exactly when the verification core would hold or flag the same signal. */
  lemma RefreshAgrees(db: Store, orderId: Id, v: VersionId, url: string)
    ensures var c := BuildReuseCandidate(db.deliveries, orderId, url);
            var review := RefreshReuse(db, orderId, v, url).1;
            if c.None? then review <==> HasUnresolved(db.flags, v, URL_REUSED)
            else
              var e := Evaluate(db.flags, v, [c.value]);
              (review <==> e.hasUnresolved || e.toCreate != [])
              && RefreshReuse(db, orderId, v, url).0.flags == db.flags + NewFlags(orderId, v, e.toCreate)
  {
    var c := BuildReuseCandidate(db.deliveries, orderId, url);
    ReuseKind(db.deliveries, orderId, url);
    assert NewFlags(orderId, v, []) == [] && db.flags + [] == db.flags;
    if c.Some? {
      hide BuildReuseCandidate, ReuseEvidenceMatches;
      FirstClearingClears(db.flags, v, c.value, 0);
      assert [c.value][..0] == [];
      forall k | 0 <= k < |db.flags| ensures Clears(db.flags[k], v, c.value) <==> ClearsReuse(db.flags[k], v, c.value) {
        if db.flags[k].resolution.Some? {
          DispositionsAgree(db.flags[k].resolution.value, v, URL_REUSED);
        }
      }
    }
  }
}
