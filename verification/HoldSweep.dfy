/**
 The settlement-hold sweep: every unreleased settlement is re-checked page by page behind a
 cursor, in bounded batches, up to a cap that is reported when it hides further rows.
 */
module HoldSweep {
  import opened Outcomes

  type Id = string

  const PAGE_SIZE: nat := 100
  const SCAN_CAP: nat := 5000
  const CONCURRENCY: nat := 5

  /** An unreleased settlement and the delivery version that its order has active, if any. */
  datatype Settlement = Settlement(id: Id, createdAt: int, activeVersion: Option<Id>)

  datatype Skip = NotVerified | Superseded | NoActiveDelivery | OtherSkip(reason: string)

  /** How one re-check ends; `Rejected` is a re-check that threw. */
  datatype Recheck = Skipped(reason: Skip) | StillPresent | Removed | Restored | Rejected

  datatype Tally = Tally(checked: nat, removed: nat, restored: nat, failed: nat)

  datatype Report = Report(
    ok: bool,
    scanned: nat,
    tally: Tally,
    scanCapReached: bool,
    oldestUncheckedCreatedAt: Option<int>
  )

  // ---------------------------------------------------------------- the table

  /** The order of the query, by age and then by id, which no two rows share. */
  ghost predicate Table(rows: seq<Settlement>) {
    && (forall i, j :: 0 <= i < j < |rows| ==> rows[i].createdAt <= rows[j].createdAt)
    && (forall i, j :: 0 <= i < j < |rows| ==> rows[i].id != rows[j].id)
  }

  /** Where a page starts: after the cursor row, and at the end when the cursor row is gone. */
  function StartOf(rows: seq<Settlement>, cursor: Option<Id>): (start: nat)
    ensures start <= |rows|
  {
    if cursor.None? || rows == [] then 0
    else if rows[0].id == cursor.value then 1
    else 1 + StartOf(rows[1..], cursor)
  }

  function Page(rows: seq<Settlement>, cursor: Option<Id>, take: nat): seq<Settlement> {
    var start := StartOf(rows, cursor);
    rows[start..start + Min(take, |rows| - start)]
  }

  lemma {:induction false} StartAfter(rows: seq<Settlement>, i: nat)
    requires Table(rows) && i < |rows|
    ensures StartOf(rows, Some(rows[i].id)) == i + 1
  {
    if i > 0 {
      StartAfter(rows[1..], i - 1);
    }
  }

  // ---------------------------------------------------------------- counting

  function OutcomeOf(s: Settlement, recheck: Id -> Recheck): Recheck {
    if s.activeVersion.Some? then recheck(s.activeVersion.value) else Skipped(NoActiveDelivery)
  }

  predicate Uncounted(o: Recheck) {
    o.Skipped? && !o.reason.OtherSkip?
  }

  function Add(t: Tally, o: Recheck): Tally {
    if o.Rejected? then t.(failed := t.failed + 1)
    else if Uncounted(o) then t
    else Tally(t.checked + 1, t.removed + (if o.Removed? then 1 else 0), t.restored + (if o.Restored? then 1 else 0), t.failed)
  }

  function AddAll(t: Tally, rows: seq<Settlement>, recheck: Id -> Recheck): Tally {
    if rows == [] then t else Add(AddAll(t, rows[..|rows| - 1], recheck), OutcomeOf(rows[|rows| - 1], recheck))
  }

  function TallyOf(rows: seq<Settlement>, recheck: Id -> Recheck): Tally {
    AddAll(Tally(0, 0, 0, 0), rows, recheck)
  }

  lemma {:induction false} AddAllConcat(t: Tally, a: seq<Settlement>, b: seq<Settlement>, recheck: Id -> Recheck)
    ensures AddAll(t, a + b, recheck) == AddAll(AddAll(t, a, recheck), b, recheck)
  {
    if b == [] {
      assert a + b == a;
    } else {
      AddAllConcat(t, a, b[..|b| - 1], recheck);
      assert (a + b)[..|a + b| - 1] == a + b[..|b| - 1];
    }
  }

  lemma TallyConcat(a: seq<Settlement>, b: seq<Settlement>, recheck: Id -> Recheck)
    ensures TallyOf(a + b, recheck) == AddAll(TallyOf(a, recheck), b, recheck)
  {
    AddAllConcat(Tally(0, 0, 0, 0), a, b, recheck);
  }

  function UncountedIn(rows: seq<Settlement>, recheck: Id -> Recheck): nat {
    if rows == [] then 0
    else UncountedIn(rows[..|rows| - 1], recheck) + if Uncounted(OutcomeOf(rows[|rows| - 1], recheck)) then 1 else 0
  }

  /** Every scanned row is checked, failed, or skipped without being counted; removals and restorations are checks. */
  lemma {:induction false} TallyAccounts(rows: seq<Settlement>, recheck: Id -> Recheck)
    ensures var t := TallyOf(rows, recheck);
            t.checked + t.failed + UncountedIn(rows, recheck) == |rows| && t.removed + t.restored <= t.checked
  {
    if rows != [] {
      TallyAccounts(rows[..|rows| - 1], recheck);
    }
  }

  /** Nothing counts as failed exactly when no re-check threw. */
  lemma {:induction false} NoFailure(rows: seq<Settlement>, recheck: Id -> Recheck)
    ensures TallyOf(rows, recheck).failed == 0 <==> forall i :: 0 <= i < |rows| ==> !OutcomeOf(rows[i], recheck).Rejected?
  {
    if rows != [] {
      NoFailure(rows[..|rows| - 1], recheck);
    }
  }

  lemma NoFailureBefore(rows: seq<Settlement>, n: nat, recheck: Id -> Recheck)
    requires n <= |rows|
    ensures TallyOf(rows[..n], recheck).failed == 0 <==> forall i :: 0 <= i < n ==> !OutcomeOf(rows[i], recheck).Rejected?
  {
    NoFailure(rows[..n], recheck);
    assert forall i :: 0 <= i < n ==> rows[..n][i] == rows[i];
  }

  /** How many rows have an outcome of this kind; a settlement without an active delivery is skipped. */
  ghost function Number(rows: seq<Settlement>, recheck: Id -> Recheck, kind: Recheck -> bool): nat {
    if rows == [] then 0
    else
      var s := rows[|rows| - 1];
      var outcome := if s.activeVersion.Some? then recheck(s.activeVersion.value) else Skipped(NoActiveDelivery);
      Number(rows[..|rows| - 1], recheck, kind) + if kind(outcome) then 1 else 0
  }

  /** The counters: only a skip for one of three reasons, or a re-check that threw, is no check. */
  lemma {:induction false} TallyCounts(rows: seq<Settlement>, recheck: Id -> Recheck)
    ensures var t := TallyOf(rows, recheck);
            && t.failed == Number(rows, recheck, (o: Recheck) => o == Rejected)
            && t.removed == Number(rows, recheck, (o: Recheck) => o == Removed)
            && t.restored == Number(rows, recheck, (o: Recheck) => o == Restored)
            && t.checked == Number(rows, recheck, (o: Recheck) =>
                 o !in {Rejected, Skipped(NotVerified), Skipped(Superseded), Skipped(NoActiveDelivery)})
  {
    if rows != [] {
      TallyCounts(rows[..|rows| - 1], recheck);
    }
  }

  function Ids(rows: seq<Settlement>): seq<Id> {
    seq(|rows|, i requires 0 <= i < |rows| => rows[i].id)
  }

  // ---------------------------------------------------------------- the sweep

  function Min(a: nat, b: nat): nat {
    if a < b then a else b
  }

  lemma IdsConcat(a: seq<Settlement>, b: seq<Settlement>)
    ensures Ids(a + b) == Ids(a) + Ids(b)
  {
  }

  /** The settled results of one batch, counted in the order of its rows. */
  method CheckBatch(batch: seq<Settlement>, recheck: Id -> Recheck, before: Tally) returns (tally: Tally, visited: seq<Id>)
    ensures tally == AddAll(before, batch, recheck) && visited == Ids(batch)
  {
    tally, visited := before, [];
    var k := 0;
    while k < |batch|
      invariant 0 <= k <= |batch|
      invariant tally == AddAll(before, batch[..k], recheck) && visited == Ids(batch[..k])
    {
      assert batch[..k + 1][..k] == batch[..k];
      tally := Add(tally, OutcomeOf(batch[k], recheck));
      visited := visited + [batch[k].id];
      k := k + 1;
    }
    assert batch[..k] == batch;
  }

  method CheckPage(held: seq<Settlement>, recheck: Id -> Recheck, before: Tally) returns (tally: Tally, visited: seq<Id>)
    ensures tally == AddAll(before, held, recheck) && visited == Ids(held)
  {
    hide AddAll, Ids;
    tally, visited := before, [];
    NothingAdded(before, recheck);
    assert held[..0] == [];
    var offset := 0;
    while offset < |held|
      invariant tally == AddAll(before, held[..Min(offset, |held|)], recheck)
      invariant visited == Ids(held[..Min(offset, |held|)])
    {
      var stop := Min(offset + CONCURRENCY, |held|);
      var batch := held[offset..stop];
      AddAllConcat(before, held[..offset], batch, recheck);
      IdsConcat(held[..offset], batch);
      assert held[..offset] + batch == held[..stop];
      var seen: seq<Id>;
      tally, seen := CheckBatch(batch, recheck, tally);
      visited := visited + seen;
      offset := offset + CONCURRENCY;
    }
    assert held[..|held|] == held;
  }

  lemma NothingAdded(t: Tally, recheck: Id -> Recheck)
    ensures AddAll(t, [], recheck) == t && Ids([]) == []
  {
  }

  lemma NothingTallied(recheck: Id -> Recheck)
    ensures TallyOf([], recheck) == Tally(0, 0, 0, 0) && Ids([]) == []
  {
  }

  /** A page starts where the rows behind the cursor end. */
  lemma PageAt(rows: seq<Settlement>, cursor: Option<Id>, take: nat)
    ensures var start := StartOf(rows, cursor); var held := Page(rows, cursor, take);
            && |held| == Min(take, |rows| - start) && held == rows[start..start + |held|]
            && rows[..start] + held == rows[..start + |held|]
            && (held != [] ==> held[|held| - 1] == rows[start + |held| - 1])
  {
    hide StartOf;
    var start := StartOf(rows, cursor);
    var stop := start + Min(take, |rows| - start);
    var held := Page(rows, cursor, take);
    assert held == rows[start..stop];
    hide Page;
    assert rows[..start] + rows[start..stop] == rows[..stop];
  }

  /**
   On a table that nobody changes, the sweep terminates, visits the first rows in query order
   once each, counts their outcomes, succeeds if none of them threw, and tells whether and where
   rows were left unchecked.
   */
  method RunSettlementHoldLinkSweep(rows: seq<Settlement>, recheck: Id -> Recheck)
    returns (report: Report, visited: seq<Id>)
    requires Table(rows)
    ensures report.scanned == Min(|rows|, SCAN_CAP)
    ensures visited == Ids(rows[..report.scanned])
    ensures report.tally == TallyOf(rows[..report.scanned], recheck)
    ensures report.ok <==> report.tally.failed == 0
    ensures report.ok <==> forall i :: 0 <= i < report.scanned ==> !OutcomeOf(rows[i], recheck).Rejected?
    ensures report.scanCapReached <==> |rows| > SCAN_CAP
    ensures report.oldestUncheckedCreatedAt == if |rows| > SCAN_CAP then Some(rows[SCAN_CAP].createdAt) else None
  {
    hide AddAll, Ids, StartOf, Page, TallyOf, OutcomeOf, Number, UncountedIn;
    var scanned, tally, cursor: Option<Id>, lastPageWasFull := 0, Tally(0, 0, 0, 0), None, false;
    visited := [];
    NothingTallied(recheck);
    StartAtTop(rows);
    assert rows[..0] == [];
    var exhausted := false;
    while scanned < SCAN_CAP && !exhausted
      invariant 0 <= scanned <= |rows| && scanned <= SCAN_CAP
      invariant tally == TallyOf(rows[..scanned], recheck) && visited == Ids(rows[..scanned])
      invariant StartOf(rows, cursor) == scanned && (cursor.Some? <==> scanned > 0)
      invariant exhausted ==> scanned == |rows| && !lastPageWasFull
      invariant !exhausted && scanned > 0 ==> lastPageWasFull
      decreases SCAN_CAP - scanned, !exhausted
    {
      var take := Min(PAGE_SIZE, SCAN_CAP - scanned);
      var held := Page(rows, cursor, take);
      PageAt(rows, cursor, take);
      if held == [] {
        lastPageWasFull, exhausted := false, true;
      } else {
        TallyConcat(rows[..scanned], held, recheck);
        IdsConcat(rows[..scanned], held);
        var seen: seq<Id>;
        tally, seen := CheckPage(held, recheck, tally);
        visited := visited + seen;
        scanned := scanned + |held|;
        cursor := Some(held[|held| - 1].id);
        StartAfter(rows, scanned - 1);
        lastPageWasFull := |held| == take;
        exhausted := |held| < take;
      }
    }
    var capped := scanned >= SCAN_CAP && lastPageWasFull && cursor.Some?;
    var rest := if capped then Page(rows, cursor, 1) else [];
    PageAt(rows, cursor, 1);
    NoFailureBefore(rows, scanned, recheck);
    report := Report(tally.failed == 0, scanned, tally, capped && rest != [],
                     if rest != [] then Some(rest[0].createdAt) else None);
  }

  lemma StartAtTop(rows: seq<Settlement>)
    ensures StartOf(rows, None) == 0
  {
  }
}
