/** Delivery verification as it writes its rows, one transaction at a time. */
module DeliveryTables {
  import opened Outcomes
  import opened DeliveryState
  import DF = DeliveryFraud
  import DV = DeliveryVerification

  class Tables {
    var orders: map<Id, Order>
    var deliveries: map<VersionId, Delivery>
    var flags: seq<Flag>
    var snapshots: seq<VersionId>
    var evidence: seq<VersionId>

    function Rows(): Store
      reads this
    {
      Store(orders, deliveries, flags, snapshots, evidence)
    }

    constructor ()
      ensures Rows() == Store(map[], map[], [], [], [])
    {
      orders, deliveries, flags, snapshots, evidence := map[], map[], [], [], [];
    }

    method SomeUnresolved(version: VersionId, kind: FraudType) returns (found: bool)
      ensures found == HasUnresolved(flags, version, kind)
    {
      found := false;
      var i := 0;
      while i < |flags|
        invariant 0 <= i <= |flags|
        invariant found <==> exists j :: 0 <= j < i && flags[j].version == version && flags[j].kind == kind && Unresolved(flags[j])
      {
        found := found || (flags[i].version == version && flags[i].kind == kind && Unresolved(flags[i]));
        i := i + 1;
      }
    }

    /** Stops at the first flag whose exact evidence staff have classified. */
    method FindClearing(version: VersionId, c: DF.Candidate) returns (k: Option<nat>)
      ensures k == DF.FirstClearing(flags, version, c, 0)
    {
      var i := 0;
      while i < |flags|
        invariant 0 <= i <= |flags|
        invariant DF.FirstClearing(flags, version, c, 0) == DF.FirstClearing(flags, version, c, i)
      {
        if DF.Clears(flags[i], version, c) {
          return Some(i);
        }
        i := i + 1;
      }
      return None;
    }

    /** Sorts the candidates: held already, cleared by staff, or new. */
    method EvaluateFraudCandidates(version: VersionId, candidates: seq<DF.Candidate>) returns (e: DF.Evaluation)
      ensures e == DF.Evaluate(flags, version, candidates)
    {
      hide DF.Clears, DF.ClassifiedDisposition, DF.FirstClearing;
      var toCreate: seq<DF.Candidate>, hasUnresolved, reused: seq<DF.Reused> := [], false, [];
      var i := 0;
      while i < |candidates|
        invariant 0 <= i <= |candidates|
        invariant DF.Evaluation(toCreate, hasUnresolved, reused) == DF.Evaluate(flags, version, candidates[..i])
      {
        var c := candidates[i];
        assert candidates[..i + 1][..i] == candidates[..i];
        i := i + 1;
        var held := SomeUnresolved(version, c.kind);
        if held {
          hasUnresolved := true;
          continue;
        }
        var k := FindClearing(version, c);
        if k.Some? {
          DF.FirstClearingClears(flags, version, c, 0);
          ClearingIsClassified(flags[k.value], version, c);
          reused := reused + [DF.Reused(c, k.value,
                                        DF.ClassifiedDisposition(flags[k.value].resolution.value, version, c.kind).value)];
          continue;
        }
        toCreate := toCreate + [c];
      }
      assert candidates[..i] == candidates;
      return DF.Evaluation(toCreate, hasUnresolved, reused);
    }

    /** Raises the new flags one by one. */
    method CreateFlags(orderId: Id, version: VersionId, candidates: seq<DF.Candidate>)
      modifies this`flags
      ensures flags == old(flags) + DV.NewFlags(orderId, version, candidates)
    {
      var i := 0;
      while i < |candidates|
        invariant 0 <= i <= |candidates|
        invariant flags == old(flags) + DV.NewFlags(orderId, version, candidates[..i])
      {
        var c := candidates[i];
        assert DV.NewFlags(orderId, version, candidates[..i + 1])
            == DV.NewFlags(orderId, version, candidates[..i]) + [Flag(orderId, version, c.kind, c.details, None, false)];
        flags := flags + [Flag(orderId, version, c.kind, c.details, None, false)];
        i := i + 1;
      }
      assert candidates[..i] == candidates;
    }

    /** The decision on a fetched page, under the lock of the order. */
    method Decide(input: DV.VerifyInput) returns (status: VerificationStatus)
      requires input.page.Fetched? && input.version in deliveries && input.orderId in orders
      requires DV.ReadPointer(Rows(), input.orderId, input.version, input.expected).Current?
      modifies this
      ensures Rows() == DV.Decided(old(Rows()), input) && status == DV.EffectiveStatus(old(Rows()), input)
    {
      hide DF.Evaluate, DV.LockedCandidates, DV.NewFlags;
      var candidates := DV.LockedCandidates(Rows(), input);
      var e := EvaluateFraudCandidates(input.version, candidates);
      status := DV.BaseStatus(input.page);
      if status.PASSED? && (Held(flags, input.orderId) || e.hasUnresolved || e.toCreate != []) {
        status := MANUAL_REVIEW;
      }
      if input.page.snapshotStored {
        snapshots := snapshots + [input.version];
      }
      evidence := evidence + [input.version];
      deliveries := deliveries[input.version := deliveries[input.version].(status := status, generation := input.expected + 1)];
      if status.PASSED? {
        var o := orders[input.orderId];
        orders := orders[input.orderId := o.(status := OrderStatus.VERIFIED, version := o.version + 1)];
      }
      CreateFlags(input.orderId, input.version, e.toCreate);
    }

    /** One verification job from its fetched page on. */
    method RunDeliveryVerification(input: DV.VerifyInput) returns (r: Result<DV.Reply, DV.Fault>)
      modifies this
      ensures var spec := DV.Verify(old(Rows()), input);
              if spec.Ok? then r == Ok(spec.value.1) && Rows() == spec.value.0 else r == Err(spec.error) && Rows() == old(Rows())
    {
      hide DV.Decided, DV.EffectiveStatus;
      if input.page.Fetched? && !input.page.snapshotStored && !input.finalAttempt {
        return Err(DV.RETRY_THROWN);
      }
      var p := DV.ReadPointer(Rows(), input.orderId, input.version, input.expected);
      if input.page.Fetched? && p.Conflict? {
        return Err(DV.CONFLICT_THROWN);
      }
      if !p.Current? {
        return Ok(DV.Skipped(DV.SkipOf(p)));
      }
      if !orders[input.orderId].status.PUBLISHED? {
        return Ok(DV.Skipped(DV.STALE));
      }
      if input.page.Fetched? {
        var status := Decide(input);
        return Ok(DV.Committed(status));
      }
      var d := deliveries[input.version];
      d := if input.finalAttempt then d.(status := MANUAL_REVIEW, generation := input.expected + 1)
           else d.(status := RETRYING);
      deliveries := deliveries[input.version := d];
      return Ok(DV.Committed(d.status));
    }

    /** One link re-check from its fetched page on. */
    method RunDeliveryLinkRecheck(o: DV.Observation, link: DV.LinkState) returns (reply: DV.Reply)
      modifies this
      ensures (Rows(), reply) == DV.Recheck(old(Rows()), o, link)
    {
      if link.Unreachable? {
        return DV.Skipped(DV.TRANSIENT);
      }
      if o.hadRemovalFlag && link.LinkGone? {
        return DV.Rechecked(false, false);
      }
      if !DV.ReadPointer(Rows(), o.orderId, o.version, o.generation).Current? {
        return DV.Skipped(DV.VERSION_CONFLICT);
      }
      var d := deliveries[o.version];
      if o.hadRemovalFlag {
        var k := DV.FirstRemoval(flags, o.version, 0);
        if k.None? {
          return DV.Skipped(DV.VERSION_CONFLICT);
        }
        evidence := evidence + [o.version];
        deliveries := deliveries[o.version := d.(status := PASSED, intervention := NONE, generation := o.generation + 1)];
        flags := flags[k.value := flags[k.value].(resolution := Some(DV.LINK_RESTORED_RESOLUTION))];
        return DV.Rechecked(false, true);
      }
      if !DV.Monitored(d) {
        return DV.Skipped(DV.VERSION_CONFLICT);
      }
      evidence := evidence + [o.version];
      if link.LinkPresent? {
        return DV.Rechecked(false, false);
      }
      deliveries := deliveries[o.version := d.(status := FAILED, intervention := REJECTED, generation := o.generation + 1)];
      var held := SomeUnresolved(o.version, LINK_REMOVED);
      if !held {
        flags := flags + [Flag(o.orderId, o.version, LINK_REMOVED, OtherDetails("link removed"), None, false)];
      }
      return DV.Rechecked(true, false);
    }

    /** Recomputes the URL-reuse evidence of a delivery, and raises a flag for a changed claim set. */
    method RefreshUrlReuse(orderId: Id, version: VersionId, url: string) returns (review: bool)
      modifies this`flags
      ensures (Rows(), review) == DV.RefreshReuse(old(Rows()), orderId, version, url)
    {
      hide DF.BuildReuseCandidate, DV.ClearsReuse;
      var held := SomeUnresolved(version, URL_REUSED);
      if held {
        return true;
      }
      var c := DF.BuildReuseCandidate(deliveries, orderId, url);
      if c.None? {
        return false;
      }
      var i := 0;
      while i < |flags|
        invariant 0 <= i <= |flags|
        invariant forall j :: 0 <= j < i ==> !DV.ClearsReuse(flags[j], version, c.value)
      {
        if DV.ClearsReuse(flags[i], version, c.value) {
          return false;
        }
        i := i + 1;
      }
      CreateFlags(orderId, version, [c.value]);
      return true;
    }
  }

  lemma ClearingIsClassified(f: Flag, version: VersionId, c: DF.Candidate)
    requires DF.Clears(f, version, c)
    ensures f.resolution.Some? && DF.ClassifiedDisposition(f.resolution.value, version, c.kind).Some?
  {
  }
}
