/** Fraud signals of a delivery: reuse of its URL, and what staff have already decided about the same signal. */
module DeliveryFraud {
  import opened Outcomes
  import opened DeliveryState
  import Text

  const CLAIM_SAMPLE_LIMIT: nat := 128

  datatype Candidate = Candidate(kind: FraudType, details: Details)

  // ---------------------------------------------------------------- claims on a URL

  /** Every delivery version of another order that claims the same URL. */
  function Claims(deliveries: map<VersionId, Delivery>, orderId: Id, url: string): set<VersionId> {
    set v | v in deliveries && deliveries[v].normalizedUrl == url && deliveries[v].orderId != orderId
  }

  lemma {:induction false} LeastExists(s: set<nat>) returns (m: nat)
    requires s != {}
    ensures m in s && forall k :: k in s ==> m <= k
    decreases s
  {
    var x :| x in s;
    var rest := s - {x};
    assert forall k :: k in s ==> k == x || k in rest;
    m := x;
    if rest != {} {
      m := LeastExists(rest);
      if x < m {
        m := x;
      }
    }
  }

  function Least(s: set<nat>): (m: nat)
    requires s != {}
    ensures m in s && forall k :: k in s ==> m <= k
  {
    assert exists m :: m in s && forall k :: k in s ==> m <= k by { var m := LeastExists(s); }
    var m :| m in s && forall k :: k in s ==> m <= k;
    m
  }

  /** The first `n` of the versions in the order of their ids. */
  function Smallest(s: set<nat>, n: nat): (r: seq<nat>)
    ensures |r| == if n < |s| then n else |s|
    ensures forall v :: v in r ==> v in s
    decreases n
  {
    if n == 0 || s == {} then [] else
      var m := Least(s);
      [m] + Smallest(s - {m}, n - 1)
  }

  function SampledClaims(deliveries: map<VersionId, Delivery>, orderId: Id, url: string): seq<Claim> {
    var ids := Smallest(Claims(deliveries, orderId, url), CLAIM_SAMPLE_LIMIT);
    seq(|ids|, i requires 0 <= i < |ids| =>
      assert ids[i] in ids;
      Claim(deliveries[ids[i]].orderId, ids[i]))
  }

  /** The evidence that the URL of an order's delivery is claimed elsewhere, if it is. */
  function BuildReuseCandidate(deliveries: map<VersionId, Delivery>, orderId: Id, url: string): Option<Candidate> {
    var claims := Claims(deliveries, orderId, url);
    if claims == {} then None
    else
      var sample := SampledClaims(deliveries, orderId, url);
      var first := sample[0];
      Some(Candidate(URL_REUSED, Reuse(first.orderId, first.version, |claims|,
                                       ClaimSet(|claims|, sample, |claims| > |sample|))))
  }

  /** Stored reuse evidence matches by its whole digest, or, before digests, by first claimant and exact count. */
  predicate ReuseEvidenceMatches(persisted: Details, candidate: Details) {
    candidate.Reuse?
    && match persisted
       case Reuse(_, _, _, _) => persisted == candidate
       case LegacyReuse(order, version, count) =>
         order == candidate.otherOrderId && version == candidate.otherVersion && count == candidate.reuseCount
       case OtherDetails(_) => false
  }

  /** Delivery versions are only ever added, and never change their order or URL. */
  ghost predicate ClaimsGrow(before: map<VersionId, Delivery>, after: map<VersionId, Delivery>) {
    forall v :: v in before ==>
      v in after && after[v].orderId == before[v].orderId && after[v].normalizedUrl == before[v].normalizedUrl
  }

  /**
   Evidence that was complete when a flag was raised and still matches proves that nobody has
   claimed the URL since, although only a sample of the claims is hashed.
   */
  lemma MatchingEvidenceIsFresh(before: map<VersionId, Delivery>, after: map<VersionId, Delivery>, orderId: Id, url: string, legacy: bool)
    requires ClaimsGrow(before, after)
    requires BuildReuseCandidate(before, orderId, url).Some? && BuildReuseCandidate(after, orderId, url).Some?
    requires var d := BuildReuseCandidate(before, orderId, url).value.details;
             var persisted := if legacy then LegacyReuse(d.otherOrderId, d.otherVersion, d.reuseCount) else d;
             ReuseEvidenceMatches(persisted, BuildReuseCandidate(after, orderId, url).value.details)
    ensures Claims(after, orderId, url) == Claims(before, orderId, url)
  {
    var old', new' := Claims(before, orderId, url), Claims(after, orderId, url);
    assert old' <= new';
    SubsetOfSameSize(old', new');
  }

  lemma SubsetOfSameSize<T>(a: set<T>, b: set<T>)
    requires a <= b && |a| == |b|
    ensures a == b
  {
    assert b == a + (b - a);
    assert |b - a| == 0;
  }

  /** A new claim on the URL is new evidence: nothing decided before it matches any more. */
  lemma NewClaimIsNewEvidence(before: map<VersionId, Delivery>, after: map<VersionId, Delivery>, orderId: Id, url: string,
                              v: VersionId, legacy: bool)
    requires ClaimsGrow(before, after) && v !in before && v in Claims(after, orderId, url)
    requires BuildReuseCandidate(before, orderId, url).Some?
    ensures BuildReuseCandidate(after, orderId, url).Some?
    ensures var d := BuildReuseCandidate(before, orderId, url).value.details;
            var persisted := if legacy then LegacyReuse(d.otherOrderId, d.otherVersion, d.reuseCount) else d;
            !ReuseEvidenceMatches(persisted, BuildReuseCandidate(after, orderId, url).value.details)
  {
    var old', new' := Claims(before, orderId, url), Claims(after, orderId, url);
    assert old' < new';
    ProperSubsetIsSmaller(old', new', v);
  }

  lemma ProperSubsetIsSmaller<T>(a: set<T>, b: set<T>, x: T)
    requires a <= b && x in b && x !in a
    ensures |a| < |b|
  {
    assert b == a + (b - a) && x in b - a;
  }

  // ---------------------------------------------------------------- what staff decided

  predicate GoodReference(r: Reference) {
    r.ReferenceText? && Text.Trim(r.text) != "" && |r.text| <= 200
  }

  predicate MayClear(role: Option<Role>) {
    role in {Some(OPERATIONS), Some(FINANCE), Some(SUPER_ADMIN)}
  }

  predicate MayAuthorize(role: Option<Role>) {
    role in {Some(FINANCE), Some(SUPER_ADMIN)}
  }

  /** The classified disposition that a resolution carries for this version and type, if it is a valid one. */
  function ClassifiedDisposition(r: Resolution, version: VersionId, kind: FraudType): Option<Disposition> {
    if !r.kind.STAFF_CLEARED? || r.evidence.None? then None
    else
      var e := r.evidence.value;
      var classified := !e.disposition.Unclassified? && (e.disposition.AUTHORIZED_REUSE? ==> kind.URL_REUSED?);
      if !classified || r.resolvedBy.None? || r.resolvedBy.value == "" || e.fraudType != kind
         || e.adjudicatedVersion != version || e.roleAtTime != r.role then None
      else if !e.reference.NoReference? && !GoodReference(e.reference) then None
      else if e.disposition.AUTHORIZED_REUSE? || e.disposition.RISK_ACCEPTED? then
        if MayAuthorize(r.role) && GoodReference(e.reference) then Some(e.disposition) else None
      else if MayClear(r.role) then Some(e.disposition)
      else None
  }

  /** The URL core repeats the check for its one type of flag. */
  function ClassifiedReuseDisposition(r: Resolution, version: VersionId): Option<Disposition> {
    if !r.kind.STAFF_CLEARED? || r.evidence.None? then None
    else
      var e := r.evidence.value;
      if e.disposition.Unclassified? || r.resolvedBy.None? || r.resolvedBy.value == "" || !e.fraudType.URL_REUSED?
         || e.adjudicatedVersion != version || e.roleAtTime != r.role then None
      else if !e.reference.NoReference? && !GoodReference(e.reference) then None
      else if e.disposition.AUTHORIZED_REUSE? || e.disposition.RISK_ACCEPTED? then
        if MayAuthorize(r.role) && GoodReference(e.reference) then Some(e.disposition) else None
      else if MayClear(r.role) then Some(e.disposition)
      else None
  }

  /** The two cores accept the same dispositions, and never more than the roles allow. */
  lemma DispositionsAgree(r: Resolution, version: VersionId, kind: FraudType)
    ensures ClassifiedReuseDisposition(r, version) == ClassifiedDisposition(r, version, URL_REUSED)
    ensures ClassifiedDisposition(r, version, kind).Some? ==>
              MayClear(r.role) && r.resolvedBy.Some? && r.evidence.Some? && r.evidence.value.adjudicatedVersion == version
              && (!ClassifiedDisposition(r, version, kind).value.FALSE_POSITIVE? ==>
                    MayAuthorize(r.role) && GoodReference(r.evidence.value.reference))
              && (ClassifiedDisposition(r, version, kind).value.AUTHORIZED_REUSE? ==> kind.URL_REUSED?)
  {
  }

  // ---------------------------------------------------------------- evaluation of candidates

  predicate ExactEvidence(f: Flag, c: Candidate) {
    if c.kind.URL_REUSED? then ReuseEvidenceMatches(f.details, c.details) else f.details == c.details
  }

  /** A flag of the same type whose exact evidence staff have classified for this version. */
  predicate Clears(f: Flag, version: VersionId, c: Candidate) {
    && f.version == version && f.kind == c.kind
    && ExactEvidence(f, c)
    && f.resolution.Some? && ClassifiedDisposition(f.resolution.value, version, c.kind).Some?
  }

  /** The first clearing flag at or after row `from`. */
  function FirstClearing(flags: seq<Flag>, version: VersionId, c: Candidate, from: nat): Option<nat>
    requires from <= |flags|
    decreases |flags| - from
  {
    if from == |flags| then None
    else if Clears(flags[from], version, c) then Some(from)
    else FirstClearing(flags, version, c, from + 1)
  }

  datatype Reused = Reused(candidate: Candidate, flag: nat, disposition: Disposition)
  datatype Evaluation = Evaluation(toCreate: seq<Candidate>, hasUnresolved: bool, reused: seq<Reused>)

  function Judge(flags: seq<Flag>, version: VersionId, c: Candidate, e: Evaluation): Evaluation {
    if HasUnresolved(flags, version, c.kind) then e.(hasUnresolved := true)
    else
      var k := FirstClearing(flags, version, c, 0);
      if k.None? then e.(toCreate := e.toCreate + [c])
      else
        FirstClearingClears(flags, version, c, 0);
        e.(reused := e.reused + [Reused(c, k.value, ClassifiedDisposition(flags[k.value].resolution.value, version, c.kind).value)])
  }

  function Evaluate(flags: seq<Flag>, version: VersionId, candidates: seq<Candidate>): Evaluation {
    if candidates == [] then Evaluation([], false, [])
    else Judge(flags, version, candidates[|candidates| - 1], Evaluate(flags, version, candidates[..|candidates| - 1]))
  }

  lemma {:induction false} FirstClearingClears(flags: seq<Flag>, version: VersionId, c: Candidate, from: nat)
    requires from <= |flags|
    ensures match FirstClearing(flags, version, c, from)
            case Some(k) => from <= k < |flags| && Clears(flags[k], version, c)
            case None => forall k :: from <= k < |flags| ==> !Clears(flags[k], version, c)
    decreases |flags| - from
  {
    if from < |flags| && !Clears(flags[from], version, c) {
      FirstClearingClears(flags, version, c, from + 1);
    }
  }

  ghost predicate Cleared(flags: seq<Flag>, version: VersionId, c: Candidate) {
    exists k :: 0 <= k < |flags| && Clears(flags[k], version, c)
  }

  ghost predicate InReused(e: Evaluation, c: Candidate) {
    exists r :: r in e.reused && r.candidate == c
  }

  /** The place that one more candidate goes to. */
  lemma JudgePlaces(flags: seq<Flag>, version: VersionId, c: Candidate, e: Evaluation)
    ensures var e' := Judge(flags, version, c, e);
            if HasUnresolved(flags, version, c.kind) then e' == e.(hasUnresolved := true)
            else if Cleared(flags, version, c) then
              && e' == e.(reused := e'.reused) && |e'.reused| == |e.reused| + 1 && e'.reused[..|e.reused|] == e.reused
              && var r := e'.reused[|e.reused|]; r.candidate == c && r.flag < |flags| && Clears(flags[r.flag], version, c)
            else e' == e.(toCreate := e.toCreate + [c])
  {
    hide Clears, HasUnresolved;
    FirstClearingClears(flags, version, c, 0);
  }

  ghost predicate Fresh(flags: seq<Flag>, version: VersionId, c: Candidate) {
    !HasUnresolved(flags, version, c.kind) && !Cleared(flags, version, c)
  }

  ghost predicate Reusable(flags: seq<Flag>, version: VersionId, c: Candidate) {
    !HasUnresolved(flags, version, c.kind) && Cleared(flags, version, c)
  }

  /**
   Every candidate goes to exactly one place: an unresolved flag already holds its type, or an exact
   classified flag clears it, or it becomes a new flag. Nothing else is created or reused.
   */
  lemma {:induction false} EvaluationPartitions(flags: seq<Flag>, version: VersionId, candidates: seq<Candidate>)
    ensures var e := Evaluate(flags, version, candidates);
            && (forall c :: c in e.toCreate <==> c in candidates && Fresh(flags, version, c))
            && (forall c :: InReused(e, c) <==> c in candidates && Reusable(flags, version, c))
            && (e.hasUnresolved <==> exists i :: 0 <= i < |candidates| && HasUnresolved(flags, version, candidates[i].kind))
            && (forall r :: r in e.reused ==> r.flag < |flags| && Clears(flags[r.flag], version, r.candidate))
  {
    hide Judge, HasUnresolved, Cleared, Clears;
    if candidates != [] {
      var n := |candidates| - 1;
      var front, last := candidates[..n], candidates[n];
      EvaluationPartitions(flags, version, front);
      var before := Evaluate(flags, version, front);
      JudgePlaces(flags, version, last, before);
      var e := Evaluate(flags, version, candidates);
      assert forall c :: c in candidates <==> c in front || c == last;
      assert forall i :: 0 <= i < n ==> front[i] == candidates[i];
      ReusedGrows(before, e, last);
    }
  }

  lemma ReusedGrows(before: Evaluation, e: Evaluation, last: Candidate)
    requires e.reused == before.reused
             || (|e.reused| == |before.reused| + 1 && e.reused[..|before.reused|] == before.reused
                 && e.reused[|before.reused|].candidate == last)
    ensures forall c :: InReused(e, c) <==> InReused(before, c) || (c == last && e.reused != before.reused)
  {
    if e.reused != before.reused {
      assert e.reused == before.reused + [e.reused[|before.reused|]];
      assert e.reused[|before.reused|] in e.reused;
    }
    forall c ensures InReused(e, c) <==> InReused(before, c) || (c == last && e.reused != before.reused) {
      if InReused(before, c) {
        var r :| r in before.reused && r.candidate == c;
        assert r in e.reused;
      }
    }
  }
}
