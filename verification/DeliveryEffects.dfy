/**
 What automatic verification, the link re-check and the refresh of URL reuse decide and write, in terms
 of the page, the deliveries, and the flags with what staff made of them.
 */
module DeliveryEffects {
  import opened Outcomes
  import opened DeliveryState
  import DF = DeliveryFraud
  import DV = DeliveryVerification
  import DT = DeliveryTheorems
  import Text

  // ---------------------------------------------------------------- signals and what settles them

  /** The page shows this kind of mismatch, with these details. */
  ghost predicate Shows(s: DV.Signals, kind: FraudType, details: string) {
    match kind
    case TARGET_MISMATCH => s.target == Some(details)
    case ANCHOR_MISMATCH => s.anchor == Some(details)
    case DOMAIN_MISMATCH => s.domain == Some(details)
    case RAPID_DELIVERY => s.rapid == Some(details)
    case _ => false
  }

  /** The deliveries of other orders that claim the URL. */
  ghost function OtherClaims(deliveries: map<VersionId, Delivery>, orderId: Id, url: string): set<VersionId> {
    set v | v in deliveries && deliveries[v].normalizedUrl == url && deliveries[v].orderId != orderId
  }

  ghost function Versions(sample: seq<Claim>): seq<VersionId> {
    seq(|sample|, i requires 0 <= i < |sample| => sample[i].version)
  }

  /** The first 128 ids in increasing order: nothing smaller is left out. */
  ghost predicate FirstIds(claims: set<VersionId>, ids: seq<VersionId>) {
    && |ids| == (if |claims| < 128 then |claims| else 128)
    && (forall i, j :: 0 <= i < j < |ids| ==> ids[i] < ids[j])
    && (forall i :: 0 <= i < |ids| ==> ids[i] in claims)
    && (forall v, i :: v in claims && 0 <= i < |ids| ==> v in ids || ids[i] < v)
  }

  /** The first claims in the order of their ids, each with its order. */
  ghost predicate FirstClaims(deliveries: map<VersionId, Delivery>, claims: set<VersionId>, sample: seq<Claim>) {
    && FirstIds(claims, Versions(sample))
    && forall i :: 0 <= i < |sample| ==>
         sample[i].version in deliveries && sample[i].orderId == deliveries[sample[i].version].orderId
  }

  /** Stored evidence of exactly these claims: by first claimant, count and digest, or in the old form without a digest. */
  ghost predicate TellsOf(details: Details, deliveries: map<VersionId, Delivery>, claims: set<VersionId>) {
    match details
    case Reuse(order, v, count, set') =>
      && FirstClaims(deliveries, claims, set'.sampled) && set'.sampled != []
      && order == set'.sampled[0].orderId && v == set'.sampled[0].version
      && count == set'.reuseCount == |claims| && (set'.truncated <==> |claims| > 128)
    case LegacyReuse(order, v, count) =>
      && v in claims && (forall w :: w in claims ==> v <= w) && v in deliveries && order == deliveries[v].orderId
      && count == |claims|
    case OtherDetails(_) => false
  }

  ghost predicate Good(r: Reference) {
    match r
    case ReferenceText(text) => Text.Trim(text) != "" && |text| <= 200
    case _ => false
  }

  /** Staff have cleared the flag: for this version and type, in a role that may give this disposition, with the reference it needs. */
  ghost predicate Cleared(f: Flag, version: VersionId, kind: FraudType) {
    && f.version == version && f.kind == kind && f.resolution.Some?
    && var r := f.resolution.value;
    && r.kind.STAFF_CLEARED? && r.resolvedBy.Some? && r.resolvedBy.value != "" && r.evidence.Some?
    && var e := r.evidence.value;
    && e.fraudType == kind && e.adjudicatedVersion == version && e.roleAtTime == r.role && r.role.Some?
    && match e.disposition
       case FALSE_POSITIVE =>
         && (r.role.value.OPERATIONS? || r.role.value.FINANCE? || r.role.value.SUPER_ADMIN?)
         && (e.reference.NoReference? || Good(e.reference))
       case AUTHORIZED_REUSE => kind.URL_REUSED? && (r.role.value.FINANCE? || r.role.value.SUPER_ADMIN?) && Good(e.reference)
       case RISK_ACCEPTED => (r.role.value.FINANCE? || r.role.value.SUPER_ADMIN?) && Good(e.reference)
       case Unclassified(_) => false
  }

  ghost predicate Open(flags: seq<Flag>, version: VersionId, kind: FraudType) {
    exists k :: 0 <= k < |flags| && flags[k].version == version && flags[k].kind == kind && flags[k].resolution.None?
  }

  ghost predicate OpenFor(flags: seq<Flag>, orderId: Id) {
    exists k :: 0 <= k < |flags| && flags[k].orderId == orderId && flags[k].resolution.None?
  }

  ghost predicate ClearedAs(flags: seq<Flag>, version: VersionId, kind: FraudType, details: string) {
    exists k :: 0 <= k < |flags| && flags[k].details == OtherDetails(details) && Cleared(flags[k], version, kind)
  }

  ghost predicate ClearedReuse(flags: seq<Flag>, version: VersionId, deliveries: map<VersionId, Delivery>, claims: set<VersionId>) {
    exists k :: 0 <= k < |flags| && TellsOf(flags[k].details, deliveries, claims) && Cleared(flags[k], version, URL_REUSED)
  }

  /** A signal that is neither under review nor cleared. */
  ghost predicate NewSignal(db: Store, version: VersionId, s: DV.Signals, kind: FraudType, details: string) {
    Shows(s, kind, details) && !Open(db.flags, version, kind) && !ClearedAs(db.flags, version, kind, details)
  }

  ghost predicate NewReuse(db: Store, version: VersionId, claims: set<VersionId>) {
    claims != {} && !Open(db.flags, version, URL_REUSED) && !ClearedReuse(db.flags, version, db.deliveries, claims)
  }

  // ---------------------------------------------------------------- the evidence of reuse

  /** In increasing order, and nothing smaller is left out. */
  ghost predicate Ascending(s: set<nat>, r: seq<nat>) {
    && (forall i, j :: 0 <= i < j < |r| ==> r[i] < r[j])
    && (forall v, i :: v in s && 0 <= i < |r| ==> v in r || r[i] < v)
  }

  lemma OneMore(s: set<nat>, m: nat, rest: seq<nat>)
    requires m in s && (forall k :: k in s ==> m <= k)
    requires Ascending(s - {m}, rest) && forall v :: v in rest ==> v in s - {m}
    ensures Ascending(s, [m] + rest)
  {
    var r := [m] + rest;
    forall i, j | 0 <= i < j < |r| ensures r[i] < r[j] {
      assert rest[j - 1] in rest;
      assert i > 0 ==> r[i] == rest[i - 1];
    }
    forall v, i | v in s && 0 <= i < |r| ensures v in r || r[i] < v {
      if v == m {
        assert r[0] == m;
      } else {
        assert v in s - {m};
        assert v in rest ==> v in r;
        assert i > 0 ==> r[i] == rest[i - 1];
      }
    }
  }

  lemma {:induction false} SmallestSorted(s: set<nat>, n: nat)
    ensures Ascending(s, DF.Smallest(s, n))
    decreases n
  {
    if n > 0 && s != {} {
      hide Ascending;
      var m := DF.Least(s);
      SmallestSorted(s - {m}, n - 1);
      OneMore(s, m, DF.Smallest(s - {m}, n - 1));
    }
  }

  lemma SmallestFirst(claims: set<VersionId>)
    ensures FirstIds(claims, DF.Smallest(claims, 128))
  {
    SmallestSorted(claims, 128);
    var ids := DF.Smallest(claims, 128);
    hide DF.Smallest;
    assert forall i :: 0 <= i < |ids| ==> ids[i] in ids;
  }

  lemma SampleIsFirst(deliveries: map<VersionId, Delivery>, orderId: Id, url: string)
    ensures FirstClaims(deliveries, DF.Claims(deliveries, orderId, url), DF.SampledClaims(deliveries, orderId, url))
  {
    SmallestFirst(DF.Claims(deliveries, orderId, url));
    SampledIds(deliveries, orderId, url);
    hide FirstIds, DF.Smallest, DF.Claims, DF.SampledClaims;
  }

  lemma SampledIds(deliveries: map<VersionId, Delivery>, orderId: Id, url: string)
    ensures var ids, sample := DF.Smallest(DF.Claims(deliveries, orderId, url), 128), DF.SampledClaims(deliveries, orderId, url);
            && Versions(sample) == ids
            && forall i :: 0 <= i < |sample| ==>
                 sample[i].version in deliveries && sample[i].orderId == deliveries[sample[i].version].orderId
  {
    var claims := DF.Claims(deliveries, orderId, url);
    var ids := DF.Smallest(claims, 128);
    assert forall i :: 0 <= i < |ids| ==> ids[i] in ids;
    assert forall v :: v in ids ==> v in deliveries;
    hide DF.Smallest;
  }

  lemma NotBefore(claims: set<VersionId>, a: seq<VersionId>, b: seq<VersionId>, i: nat)
    requires FirstIds(claims, a) && FirstIds(claims, b) && i < |a|
    requires forall j :: 0 <= j < i ==> a[j] == b[j]
    ensures a[i] >= b[i]
  {
    assert a[i] in claims;
    assert forall j :: 0 <= j < i ==> b[j] < a[i];
    assert a[i] in b ==> exists j :: i <= j < |b| && b[j] == a[i];
  }

  /** There is only one such list. */
  lemma {:induction false} SameUpTo(claims: set<VersionId>, a: seq<VersionId>, b: seq<VersionId>, n: nat)
    requires FirstIds(claims, a) && FirstIds(claims, b) && n <= |a| == |b|
    ensures forall j :: 0 <= j < n ==> a[j] == b[j]
  {
    hide FirstIds;
    if n > 0 {
      SameUpTo(claims, a, b, n - 1);
      NotBefore(claims, a, b, n - 1);
      NotBefore(claims, b, a, n - 1);
    }
  }

  lemma SameSample(deliveries: map<VersionId, Delivery>, claims: set<VersionId>, a: seq<Claim>, b: seq<Claim>)
    requires FirstClaims(deliveries, claims, a) && FirstClaims(deliveries, claims, b)
    ensures a == b
  {
    SameUpTo(claims, Versions(a), Versions(b), |a|);
    assert |Versions(a)| == |Versions(b)|;
    hide FirstIds;
    forall i | 0 <= i < |a| ensures a[i] == b[i] {
      assert Versions(a)[i] == a[i].version && Versions(b)[i] == b[i].version;
      assert a[i].orderId == b[i].orderId;
    }
  }

  lemma FirstIsLeast(deliveries: map<VersionId, Delivery>, claims: set<VersionId>, sample: seq<Claim>)
    requires FirstClaims(deliveries, claims, sample) && claims != {}
    ensures sample != [] && sample[0].version in claims && forall w :: w in claims ==> sample[0].version <= w
    ensures |sample| == if |claims| < 128 then |claims| else 128
  {
    var v :| v in claims;
    assert |claims| > 0 && |Versions(sample)| == |sample| > 0;
    LeastFirst(claims, Versions(sample));
    assert Versions(sample)[0] == sample[0].version;
    hide FirstIds;
  }

  lemma LeastFirst(claims: set<VersionId>, ids: seq<VersionId>)
    requires FirstIds(claims, ids) && ids != []
    ensures forall w :: w in claims ==> ids[0] <= w
  {
    forall w | w in claims ensures ids[0] <= w {
      assert w in ids || ids[0] < w;
    }
  }

  /** The evidence that is built from the claims tells of them, and matches whatever else tells of them. */
  lemma TellingMatches(deliveries: map<VersionId, Delivery>, claims: set<VersionId>, sample: seq<Claim>, persisted: Details)
    requires FirstClaims(deliveries, claims, sample) && claims != {} && sample != []
    ensures var d := Reuse(sample[0].orderId, sample[0].version, |claims|, ClaimSet(|claims|, sample, |claims| > |sample|));
            TellsOf(d, deliveries, claims) && (DF.ReuseEvidenceMatches(persisted, d) <==> TellsOf(persisted, deliveries, claims))
  {
    FirstIsLeast(deliveries, claims, sample);
    if persisted.Reuse? && TellsOf(persisted, deliveries, claims) {
      SameSample(deliveries, claims, persisted.fingerprint.sampled, sample);
    }
    hide FirstIds;
  }

  /** Stored evidence matches exactly when it tells of the claims that there are now. */
  lemma MatchesWhenTelling(deliveries: map<VersionId, Delivery>, orderId: Id, url: string, persisted: Details)
    ensures var claims := OtherClaims(deliveries, orderId, url); var c := DF.BuildReuseCandidate(deliveries, orderId, url);
            && (c.Some? <==> claims != {})
            && (c.Some? ==>
                  && c.value.kind.URL_REUSED? && c.value.details.Reuse? && TellsOf(c.value.details, deliveries, claims)
                  && (DF.ReuseEvidenceMatches(persisted, c.value.details) <==> TellsOf(persisted, deliveries, claims)))
  {
    var claims := OtherClaims(deliveries, orderId, url);
    assert claims == DF.Claims(deliveries, orderId, url);
    if claims != {} {
      var sample := DF.SampledClaims(deliveries, orderId, url);
      SampleIsFirst(deliveries, orderId, url);
      FirstIsLeast(deliveries, claims, sample);
      TellingMatches(deliveries, claims, sample, persisted);
      hide TellsOf, FirstClaims, DF.ReuseEvidenceMatches, DF.SampledClaims;
    }
  }

  // ---------------------------------------------------------------- the checks say the same

  lemma ClearedSame(f: Flag, version: VersionId, kind: FraudType)
    ensures Cleared(f, version, kind) <==>
              && f.version == version && f.kind == kind
              && f.resolution.Some? && DF.ClassifiedDisposition(f.resolution.value, version, kind).Some?
  {
    hide Text.Trim;
  }

  lemma OpenSame(flags: seq<Flag>, version: VersionId, kind: FraudType, orderId: Id)
    ensures Open(flags, version, kind) <==> HasUnresolved(flags, version, kind)
    ensures OpenFor(flags, orderId) <==> Held(flags, orderId)
  {
    if Open(flags, version, kind) {
      var k :| 0 <= k < |flags| && flags[k].version == version && flags[k].kind == kind && flags[k].resolution.None?;
      assert Unresolved(flags[k]);
    }
    if OpenFor(flags, orderId) {
      var k :| 0 <= k < |flags| && flags[k].orderId == orderId && flags[k].resolution.None?;
      assert Unresolved(flags[k]);
    }
  }

  lemma PageClearedSame(flags: seq<Flag>, version: VersionId, kind: FraudType, details: string)
    requires !kind.URL_REUSED?
    ensures DF.Cleared(flags, version, DF.Candidate(kind, OtherDetails(details))) <==> ClearedAs(flags, version, kind, details)
  {
    var c := DF.Candidate(kind, OtherDetails(details));
    hide Cleared;
    forall k | 0 <= k < |flags|
      ensures DF.Clears(flags[k], version, c) <==> flags[k].details == OtherDetails(details) && Cleared(flags[k], version, kind)
    {
      ClearedSame(flags[k], version, kind);
    }
  }

  lemma ReuseClearedSame(flags: seq<Flag>, version: VersionId, deliveries: map<VersionId, Delivery>, orderId: Id, url: string)
    requires OtherClaims(deliveries, orderId, url) != {}
    ensures var c := DF.BuildReuseCandidate(deliveries, orderId, url);
            c.Some? && (DF.Cleared(flags, version, c.value)
                        <==> ClearedReuse(flags, version, deliveries, OtherClaims(deliveries, orderId, url)))
  {
    var claims := OtherClaims(deliveries, orderId, url);
    MatchesWhenTelling(deliveries, orderId, url, OtherDetails(""));
    var c := DF.BuildReuseCandidate(deliveries, orderId, url).value;
    hide Cleared, TellsOf, DF.BuildReuseCandidate, DF.ReuseEvidenceMatches, OtherClaims;
    forall k | 0 <= k < |flags|
      ensures DF.Clears(flags[k], version, c)
          <==> TellsOf(flags[k].details, deliveries, claims) && Cleared(flags[k], version, URL_REUSED)
    {
      ClearedSame(flags[k], version, URL_REUSED);
      MatchesWhenTelling(deliveries, orderId, url, flags[k].details);
    }
  }

  /** The signals of a decision are those that the page shows, and the reuse of the URL. */
  lemma SignalsOf(db: Store, input: DV.VerifyInput, c: DF.Candidate)
    requires input.version in db.deliveries && input.page.Fetched?
    ensures var reuse := DF.BuildReuseCandidate(db.deliveries, input.orderId, db.deliveries[input.version].normalizedUrl);
            c in DV.LockedCandidates(db, input) <==>
              (c.details.OtherDetails? && Shows(input.page.signals, c.kind, c.details.value)) || reuse == Some(c)
  {
    hide DF.BuildReuseCandidate;
    var s := input.page.signals;
    var reuse := DF.BuildReuseCandidate(db.deliveries, input.orderId, db.deliveries[input.version].normalizedUrl);
    assert c in DV.PageCandidates(s) <==>
      || c in DV.Signal(TARGET_MISMATCH, s.target) || c in DV.Signal(ANCHOR_MISMATCH, s.anchor)
      || c in DV.Signal(DOMAIN_MISMATCH, s.domain) || c in DV.Signal(RAPID_DELIVERY, s.rapid);
    assert c in DV.PageCandidates(s) <==> c.details.OtherDetails? && Shows(s, c.kind, c.details.value);
  }

  ghost function UrlClaims(db: Store, input: DV.VerifyInput): set<VersionId>
    requires input.version in db.deliveries
  {
    OtherClaims(db.deliveries, input.orderId, db.deliveries[input.version].normalizedUrl)
  }

  /** Nothing is under review for the order, and every signal there is has been cleared. */
  ghost predicate AllCleared(db: Store, input: DV.VerifyInput)
    requires input.version in db.deliveries && input.page.Fetched?
  {
    && !OpenFor(db.flags, input.orderId)
    && (forall kind, d :: Shows(input.page.signals, kind, d) ==>
          !Open(db.flags, input.version, kind) && ClearedAs(db.flags, input.version, kind, d))
    && (UrlClaims(db, input) != {} ==>
          !Open(db.flags, input.version, URL_REUSED)
          && ClearedReuse(db.flags, input.version, db.deliveries, UrlClaims(db, input)))
  }

  ghost predicate Due(db: Store, input: DV.VerifyInput) {
    && input.orderId in db.orders && input.version in db.deliveries
    && db.orders[input.orderId].status.PUBLISHED? && db.orders[input.orderId].active == Some(input.version)
    && db.deliveries[input.version].orderId == input.orderId && !db.deliveries[input.version].superseded
    && db.deliveries[input.version].generation == input.expected
  }

  lemma ShownKinds(s: DV.Signals, kind: FraudType, d: string)
    ensures Shows(s, kind, d) ==> !kind.URL_REUSED?
  {
  }

  lemma CandidateSays(db: Store, input: DV.VerifyInput, c: DF.Candidate)
    requires input.version in db.deliveries && input.page.Fetched? && c in DV.LockedCandidates(db, input)
    ensures if c.details.OtherDetails? && Shows(input.page.signals, c.kind, c.details.value) then
              && (DF.Reusable(db.flags, input.version, c) <==>
                    !Open(db.flags, input.version, c.kind) && ClearedAs(db.flags, input.version, c.kind, c.details.value))
              && (DF.Fresh(db.flags, input.version, c) <==>
                    NewSignal(db, input.version, input.page.signals, c.kind, c.details.value))
            else
              && UrlClaims(db, input) != {} && c.kind.URL_REUSED? && c.details.Reuse?
              && TellsOf(c.details, db.deliveries, UrlClaims(db, input))
              && (DF.Reusable(db.flags, input.version, c) <==>
                    !Open(db.flags, input.version, URL_REUSED)
                    && ClearedReuse(db.flags, input.version, db.deliveries, UrlClaims(db, input)))
              && (DF.Fresh(db.flags, input.version, c) <==> NewReuse(db, input.version, UrlClaims(db, input)))
  {
    var url := db.deliveries[input.version].normalizedUrl;
    SignalsOf(db, input, c);
    OpenSame(db.flags, input.version, c.kind, input.orderId);
    if c.details.OtherDetails? && Shows(input.page.signals, c.kind, c.details.value) {
      ShownKinds(input.page.signals, c.kind, c.details.value);
      hide Shows;
      PageClearedSame(db.flags, input.version, c.kind, c.details.value);
    } else {
      hide Shows;
      MatchesWhenTelling(db.deliveries, input.orderId, url, OtherDetails(""));
      ReuseClearedSame(db.flags, input.version, db.deliveries, input.orderId, url);
    }
    hide Open, HasUnresolved, DF.Cleared, ClearedAs, ClearedReuse, OtherClaims, TellsOf, DV.LockedCandidates, DF.BuildReuseCandidate;
  }

  lemma AllClearedSame(db: Store, input: DV.VerifyInput)
    requires input.version in db.deliveries && input.page.Fetched?
    ensures AllCleared(db, input) <==>
              && !Held(db.flags, input.orderId)
              && forall c :: c in DV.LockedCandidates(db, input) ==> DF.Reusable(db.flags, input.version, c)
  {
    hide Open, HasUnresolved, DF.Cleared, ClearedAs, ClearedReuse, OtherClaims, TellsOf, DV.LockedCandidates, DF.BuildReuseCandidate,
      DF.Reusable, Shows, Held, OpenFor, DF.Fresh, NewSignal, NewReuse;
    OpenSame(db.flags, input.version, URL_REUSED, input.orderId);
    forall c | c in DV.LockedCandidates(db, input)
      ensures AllCleared(db, input) ==> DF.Reusable(db.flags, input.version, c)
    {
      CandidateSays(db, input, c);
    }
    if forall c :: c in DV.LockedCandidates(db, input) ==> DF.Reusable(db.flags, input.version, c) {
      forall kind, d | Shows(input.page.signals, kind, d)
        ensures !Open(db.flags, input.version, kind) && ClearedAs(db.flags, input.version, kind, d)
      {
        var c := DF.Candidate(kind, OtherDetails(d));
        SignalsOf(db, input, c);
        CandidateSays(db, input, c);
      }
      if UrlClaims(db, input) != {} {
        var url := db.deliveries[input.version].normalizedUrl;
        MatchesWhenTelling(db.deliveries, input.orderId, url, OtherDetails(""));
        var c := DF.BuildReuseCandidate(db.deliveries, input.orderId, url).value;
        SignalsOf(db, input, c);
        CandidateSays(db, input, c);
      }
    }
  }

  // ---------------------------------------------------------------- verification

  /**
   What a fetched page decides. A page whose snapshot was not stored is retried, and in the last attempt
   reviewed; one that fails its checks fails; and one that passes them passes the delivery exactly when
   every signal that it shows, and every claim on its URL, has been cleared by staff.
   */
  lemma DecidesExactly(db: Store, input: DV.VerifyInput)
    requires input.page.Fetched?
    ensures var r := DV.Verify(db, input);
            && (r.Ok? && r.value.1.Committed? <==> Due(db, input) && (input.page.snapshotStored || input.finalAttempt))
            && (r.Ok? && r.value.1.Committed? ==>
                  r.value.1.status
                  == if !input.page.snapshotStored then MANUAL_REVIEW
                     else if !input.page.checksPass then FAILED
                     else if AllCleared(db, input) then PASSED
                     else MANUAL_REVIEW)
  {
    hide AllCleared, DV.EffectiveStatus, DV.Decided;
    if input.version in db.deliveries {
      AllClearedSame(db, input);
      DT.PassesExactly(db, input);
      StatusOf(db, input);
    }
    hide Held, DF.Reusable, DV.LockedCandidates;
  }

  lemma StatusOf(db: Store, input: DV.VerifyInput)
    requires input.page.Fetched? && input.version in db.deliveries
    ensures var status := DV.EffectiveStatus(db, input);
            if !input.page.snapshotStored then status.MANUAL_REVIEW?
            else if !input.page.checksPass then status.FAILED?
            else status.PASSED? || status.MANUAL_REVIEW?
  {
    hide DF.Evaluate, DV.LockedCandidates, Held;
  }

  /** A new flag is what one signal raises, and nothing else. */
  ghost predicate Raised(db: Store, input: DV.VerifyInput, f: Flag)
    requires input.version in db.deliveries && input.page.Fetched?
  {
    && f.orderId == input.orderId && f.version == input.version && f.resolution.None? && !f.finding
    && ((f.details.OtherDetails? && NewSignal(db, input.version, input.page.signals, f.kind, f.details.value))
        || (f.kind.URL_REUSED? && NewReuse(db, input.version, UrlClaims(db, input))
            && f.details.Reuse? && TellsOf(f.details, db.deliveries, UrlClaims(db, input))))
  }

  ghost predicate RaisesKind(flags: seq<Flag>, n: nat, kind: FraudType, details: string) {
    exists i :: n <= i < |flags| && flags[i].kind == kind && flags[i].details == OtherDetails(details)
  }

  ghost predicate RaisesReuse(flags: seq<Flag>, n: nat) {
    exists i :: n <= i < |flags| && flags[i].kind.URL_REUSED?
  }

  /**
   The flags of a decision: every signal that is neither under review nor cleared raises its flag, whatever
   is decided, and no other flag is raised or touched.
   */
  lemma RaisesExactly(db: Store, input: DV.VerifyInput)
    requires input.page.Fetched? && DV.Verify(db, input).Ok? && DV.Verify(db, input).value.1.Committed?
    ensures input.version in db.deliveries
    ensures var flags := DV.Verify(db, input).value.0.flags; var n := |db.flags|;
            && n <= |flags| && flags[..n] == db.flags
            && (forall i :: n <= i < |flags| ==> Raised(db, input, flags[i]))
            && (forall kind, d :: NewSignal(db, input.version, input.page.signals, kind, d) ==> RaisesKind(flags, n, kind, d))
            && (NewReuse(db, input.version, UrlClaims(db, input)) ==> RaisesReuse(flags, n))
  {
    hide DF.Evaluate, DV.LockedCandidates, DV.EffectiveStatus, Raised, NewSignal, NewReuse, DF.BuildReuseCandidate, OtherClaims;
    var created := DF.Evaluate(db.flags, input.version, DV.LockedCandidates(db, input)).toCreate;
    var flags := DV.Verify(db, input).value.0.flags;
    assert flags == db.flags + DV.NewFlags(input.orderId, input.version, created);
    CreatedSay(db, input, created, flags);
  }

  lemma CreatedSay(db: Store, input: DV.VerifyInput, created: seq<DF.Candidate>, flags: seq<Flag>)
    requires input.version in db.deliveries && input.page.Fetched?
    requires created == DF.Evaluate(db.flags, input.version, DV.LockedCandidates(db, input)).toCreate
    requires flags == db.flags + DV.NewFlags(input.orderId, input.version, created)
    ensures var n := |db.flags|;
            && (forall i :: n <= i < |flags| ==> Raised(db, input, flags[i]))
            && (forall kind, d :: NewSignal(db, input.version, input.page.signals, kind, d) ==> RaisesKind(flags, n, kind, d))
            && (NewReuse(db, input.version, UrlClaims(db, input)) ==> RaisesReuse(flags, n))
  {
    hide DF.Evaluate, DV.LockedCandidates, NewReuse, DF.BuildReuseCandidate, OtherClaims, Shows, TellsOf, Open, ClearedAs, DF.Fresh,
      DF.Reusable;
    var n := |db.flags|;
    DF.EvaluationPartitions(db.flags, input.version, DV.LockedCandidates(db, input));
    forall i | n <= i < |flags| ensures Raised(db, input, flags[i]) {
      var c := created[i - n];
      assert c in created;
      CandidateSays(db, input, c);
    }
    forall kind, d | NewSignal(db, input.version, input.page.signals, kind, d) ensures RaisesKind(flags, n, kind, d) {
      var c := DF.Candidate(kind, OtherDetails(d));
      SignalsOf(db, input, c);
      CandidateSays(db, input, c);
      var j :| 0 <= j < |created| && created[j] == c;
      assert flags[n + j].kind == kind;
    }
    if NewReuse(db, input.version, UrlClaims(db, input)) {
      ReuseRaised(db, input, created, flags);
    }
  }

  lemma ReuseRaised(db: Store, input: DV.VerifyInput, created: seq<DF.Candidate>, flags: seq<Flag>)
    requires input.version in db.deliveries && input.page.Fetched?
    requires forall c :: c in created <==> c in DV.LockedCandidates(db, input) && DF.Fresh(db.flags, input.version, c)
    requires flags == db.flags + DV.NewFlags(input.orderId, input.version, created)
    requires NewReuse(db, input.version, UrlClaims(db, input))
    ensures RaisesReuse(flags, |db.flags|)
  {
    ClaimedElsewhere(db, input);
    var c := ReuseSignal(db, input);
    CandidateSays(db, input, c);
    hide *;
    CreatedRaises(db, input, created, flags, c);
  }

  lemma ClaimedElsewhere(db: Store, input: DV.VerifyInput)
    requires input.version in db.deliveries
    ensures NewReuse(db, input.version, UrlClaims(db, input)) ==> UrlClaims(db, input) != {}
  {
  }

  lemma ReuseSignal(db: Store, input: DV.VerifyInput) returns (c: DF.Candidate)
    requires input.version in db.deliveries && input.page.Fetched? && UrlClaims(db, input) != {}
    ensures c in DV.LockedCandidates(db, input) && c.kind.URL_REUSED? && c.details.Reuse?
  {
    hide DV.LockedCandidates, TellsOf, DF.BuildReuseCandidate, DF.ReuseEvidenceMatches;
    MatchesWhenTelling(db.deliveries, input.orderId, db.deliveries[input.version].normalizedUrl, OtherDetails(""));
    c := DF.BuildReuseCandidate(db.deliveries, input.orderId, db.deliveries[input.version].normalizedUrl).value;
    SignalsOf(db, input, c);
  }

  lemma CreatedRaises(db: Store, input: DV.VerifyInput, created: seq<DF.Candidate>, flags: seq<Flag>, c: DF.Candidate)
    requires c in created && c.kind.URL_REUSED?
    requires flags == db.flags + DV.NewFlags(input.orderId, input.version, created)
    ensures RaisesReuse(flags, |db.flags|)
  {
    var j :| 0 <= j < |created| && created[j] == c;
    assert flags[|db.flags| + j].kind == c.kind;
  }

  /** The rows of a decision besides its flags; the order is verified with the delivery and only then. */
  lemma DecisionWrites(db: Store, input: DV.VerifyInput)
    requires DV.Verify(db, input).Ok?
    ensures var (db', reply) := DV.Verify(db, input).value;
            if !reply.Committed? then db' == db && reply.Skipped?
            else
              && Due(db, input)
              && var d, o := db.deliveries[input.version], db.orders[input.orderId];
              && db'.deliveries
                 == db.deliveries[input.version := d.(status := reply.status,
                                                      generation := db'.deliveries[input.version].generation)]
              && db'.deliveries[input.version].generation
                 == (if input.page.Fetched? || input.finalAttempt then input.expected + 1 else input.expected)
              && db'.orders == (if reply.status.PASSED?
                                then db.orders[input.orderId := o.(status := OrderStatus.VERIFIED, version := o.version + 1)]
                                else db.orders)
              && db'.snapshots == db.snapshots + (if input.page.Fetched? && input.page.snapshotStored then [input.version] else [])
              && db'.evidence == db.evidence + (if input.page.Fetched? then [input.version] else [])
              && (input.page.Unavailable? ==> db'.flags == db.flags)
  {
    hide DV.EffectiveStatus, DF.Evaluate, DV.LockedCandidates, DV.NewFlags;
    assert db.snapshots + [] == db.snapshots && db.evidence + [] == db.evidence;
  }

  /** Without a page the delivery is tried again, and in the last attempt reviewed. */
  lemma UnavailableDecides(db: Store, input: DV.VerifyInput)
    requires input.page.Unavailable?
    ensures DV.Verify(db, input).Ok?
    ensures DV.Verify(db, input).value.1.Committed? <==> Due(db, input)
    ensures Due(db, input) ==> DV.Verify(db, input).value.1.status == if input.finalAttempt then MANUAL_REVIEW else RETRYING
  {
  }

  // ---------------------------------------------------------------- link re-check

  ghost predicate RemovalOpen(flags: seq<Flag>, v: VersionId, k: nat) {
    && k < |flags| && flags[k].version == v && flags[k].kind.LINK_REMOVED?
    && flags[k].resolution.None? && !flags[k].finding
  }

  ghost predicate FirstRemovalOpen(flags: seq<Flag>, v: VersionId, k: nat) {
    RemovalOpen(flags, v, k) && forall j :: 0 <= j < k ==> !RemovalOpen(flags, v, j)
  }

  /** A delivery is watched while it counts as delivered, or while its removal may still be undone. */
  ghost predicate Watched(db: Store, v: VersionId) {
    && v in db.deliveries && !db.deliveries[v].superseded
    && (db.deliveries[v].status.PASSED? || db.deliveries[v].intervention.APPROVED? || RemovedBefore(db, v))
  }

  ghost predicate RemovedBefore(db: Store, v: VersionId) {
    v in db.deliveries && db.deliveries[v].status.FAILED? && exists k :: RemovalOpen(db.flags, v, k)
  }

  lemma FirstRemovalSame(flags: seq<Flag>, v: VersionId)
    ensures DV.FirstRemoval(flags, v, 0).Some? <==> exists k :: RemovalOpen(flags, v, k)
    ensures DV.FirstRemoval(flags, v, 0).Some? ==> FirstRemovalOpen(flags, v, DV.FirstRemoval(flags, v, 0).value)
  {
    forall k: nat | k < |flags| ensures RemovalOpen(flags, v, k) <==> DV.OpenRemoval(flags[k], v) {}
    FirstFrom(flags, v, 0);
  }

  lemma {:induction false} FirstFrom(flags: seq<Flag>, v: VersionId, from: nat)
    requires from <= |flags|
    ensures match DV.FirstRemoval(flags, v, from)
            case Some(k) => DV.OpenRemoval(flags[k], v) && forall j :: from <= j < k ==> !DV.OpenRemoval(flags[j], v)
            case None => forall j :: from <= j < |flags| ==> !DV.OpenRemoval(flags[j], v)
    decreases |flags| - from
  {
    if from < |flags| && !DV.OpenRemoval(flags[from], v) {
      FirstFrom(flags, v, from + 1);
    }
  }

  lemma ObservesExactly(db: Store, v: VersionId)
    ensures DV.Observe(db, v).Ok? <==> Watched(db, v)
    ensures Watched(db, v) ==>
              DV.Observe(db, v) == Ok(DV.Observation(db.deliveries[v].orderId, v, db.deliveries[v].generation, RemovedBefore(db, v)))
  {
    FirstRemovalSame(db.flags, v);
  }

  ghost predicate StillCurrent(db: Store, o: DV.Observation) {
    && o.orderId in db.orders && o.version in db.deliveries && db.orders[o.orderId].active == Some(o.version)
    && db.deliveries[o.version].orderId == o.orderId && !db.deliveries[o.version].superseded
    && db.deliveries[o.version].generation == o.generation
  }

  ghost predicate Counts(db: Store, v: VersionId) {
    v in db.deliveries && (db.deliveries[v].status.PASSED? || db.deliveries[v].intervention.APPROVED?)
  }

  /** The link is gone: the delivery fails, is rejected, and carries an open removal flag. */
  ghost predicate Removes(db: Store, db': Store, o: DV.Observation)
    requires o.version in db.deliveries
  {
    var d := db.deliveries[o.version];
    && db'.deliveries == db.deliveries[o.version := d.(status := FAILED, intervention := REJECTED, generation := o.generation + 1)]
    && (if Open(db.flags, o.version, LINK_REMOVED) then db'.flags == db.flags
        else
          && |db'.flags| == |db.flags| + 1 && db'.flags[..|db.flags|] == db.flags
          && RemovalOpen(db'.flags, o.version, |db.flags|) && db'.flags[|db.flags|].orderId == o.orderId)
  }

  /** The link is back: the delivery passes, nobody intervened, and the first open removal flag is resolved. */
  ghost predicate Restores(db: Store, db': Store, o: DV.Observation)
    requires o.version in db.deliveries
  {
    var d := db.deliveries[o.version];
    && db'.deliveries == db.deliveries[o.version := d.(status := PASSED, intervention := NONE, generation := o.generation + 1)]
    && exists k: nat :: FirstRemovalOpen(db.flags, o.version, k)
         && db'.flags == db.flags[k := db.flags[k].(resolution := Some(Resolution(LINK_RESTORED, None, None, None)))]
  }

  /** What one re-check finds and writes. */
  lemma RechecksExactly(db: Store, o: DV.Observation, link: DV.LinkState)
    ensures var (db', reply) := DV.Recheck(db, o, link);
            var removes := link.LinkGone? && !o.hadRemovalFlag && StillCurrent(db, o) && Counts(db, o.version);
            var restores := && link.LinkPresent? && o.hadRemovalFlag && StillCurrent(db, o)
                            && exists k :: RemovalOpen(db.flags, o.version, k);
            var confirms := link.LinkPresent? && !o.hadRemovalFlag && StillCurrent(db, o) && Counts(db, o.version);
            && (reply == DV.Rechecked(true, false) <==> removes) && (reply == DV.Rechecked(false, true) <==> restores)
            && (removes ==> Removes(db, db', o)) && (restores ==> Restores(db, db', o))
            && (!removes && !restores ==> db'.deliveries == db.deliveries && db'.flags == db.flags)
            && db'.evidence == db.evidence + (if removes || restores || confirms then [o.version] else [])
            && db'.orders == db.orders && db'.snapshots == db.snapshots
  {
    FirstRemovalSame(db.flags, o.version);
    OpenSame(db.flags, o.version, LINK_REMOVED, o.orderId);
    hide DV.FirstRemoval, HasUnresolved, Open, FirstRemovalOpen;
    assert db.evidence + [] == db.evidence;
  }

  // ---------------------------------------------------------------- refresh

  /** The settlement asks for a review exactly when the reuse of the URL is under review already, or is new. */
  lemma RefreshesExactly(db: Store, orderId: Id, v: VersionId, url: string)
    ensures var (db', review) := DV.RefreshReuse(db, orderId, v, url); var claims := OtherClaims(db.deliveries, orderId, url);
            && (review <==> Open(db.flags, v, URL_REUSED) || NewReuse(db, v, claims))
            && db' == db.(flags := db'.flags)
            && (!NewReuse(db, v, claims) ==> db'.flags == db.flags)
            && (NewReuse(db, v, claims) ==>
                  && |db'.flags| == |db.flags| + 1 && db'.flags[..|db.flags|] == db.flags
                  && var f := db'.flags[|db.flags|];
                  && f.orderId == orderId && f.version == v && f.kind.URL_REUSED? && f.resolution.None? && !f.finding
                  && f.details.Reuse? && TellsOf(f.details, db.deliveries, claims))
  {
    var claims := OtherClaims(db.deliveries, orderId, url);
    MatchesWhenTelling(db.deliveries, orderId, url, OtherDetails(""));
    OpenSame(db.flags, v, URL_REUSED, orderId);
    if claims != {} {
      ReuseClearedSame(db.flags, v, db.deliveries, orderId, url);
      ClearsReuseSame(db.flags, v, DF.BuildReuseCandidate(db.deliveries, orderId, url).value);
    }
    hide DF.BuildReuseCandidate, OtherClaims, TellsOf, Open, HasUnresolved, ClearedReuse, DF.Cleared, DV.ClearsReuse;
  }

  lemma ClearsReuseSame(flags: seq<Flag>, v: VersionId, c: DF.Candidate)
    requires c.kind.URL_REUSED?
    ensures (exists k :: 0 <= k < |flags| && DV.ClearsReuse(flags[k], v, c)) <==> DF.Cleared(flags, v, c)
  {
    hide DF.ReuseEvidenceMatches, DF.ClassifiedDisposition, DF.ClassifiedReuseDisposition;
    forall k | 0 <= k < |flags| ensures DV.ClearsReuse(flags[k], v, c) <==> DF.Clears(flags[k], v, c) {
      if flags[k].resolution.Some? {
        DF.DispositionsAgree(flags[k].resolution.value, v, URL_REUSED);
      }
    }
  }
}
