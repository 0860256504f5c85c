/**
 When the order of calls on one deduplication key does not show: for every outbox and every sequence
 of calls, the exact condition, which a caller can compute from the rows and the calls.
 */
module OutboxConvergence {
  import opened Outcomes
  import opened CommunicationOutbox

  /** No order and no repetition of these calls shows in the outbox. */
  ghost predicate Converges(db: Outbox, catalog: Catalog, users: map<Id, User>, key: Key, a: seq<Call>) {
    forall b :: SameCalls(a, b) ==> Run(db, catalog, users, key, b) == Run(db, catalog, users, key, a)
  }

  predicate Recorded(users: map<Id, User>, policy: Policy, channel: Channel, content: Content, a: seq<Call>, id: Id) {
    exists r :: r in a && r.Record? && r.content == content && id in Eligible(users, policy, channel, r.recipients, r.actor)
  }

  /** All that this call projects has its row already, or gets it from some record of the content. */
  predicate Covered(db: Outbox, policy: Policy, users: map<Id, User>, key: Key, content: Content, a: seq<Call>, call: Call) {
    && (forall id | id in Eligible(users, policy, IN_APP, call.recipients, call.actor) ::
          (key, id) in db.notifications || Recorded(users, policy, IN_APP, content, a, id))
    && (forall id | id in Eligible(users, policy, EMAIL, call.recipients, call.actor) ::
          (key, id) in db.deliveries || Recorded(users, policy, EMAIL, content, a, id))
  }

  /** On an event: no dispatcher holds or has failed it, or whichever call comes first leaves it alike. */
  predicate EventOrderFree(db: Outbox, catalog: Catalog, users: map<Id, User>, key: Key, a: seq<Call>)
    requires key in db.events && PolicyMatches(catalog, db.events[key].content)
  {
    var e := db.events[key];
    var policy := catalog[e.content.kind];
    || e.status.PENDING? || e.status.PROCESSED?
    || forall c, c' | c in a && c' in a && Accepted(e.content, c) && Accepted(e.content, c') ::
         LeavesOutstanding(db, policy, users, key, e.content, c) == LeavesOutstanding(db, policy, users, key, e.content, c')
  }

  /** Without an event: the records agree on its content, and no repair would miss anybody by coming too early. */
  predicate OpeningOrderFree(db: Outbox, catalog: Catalog, users: map<Id, User>, key: Key, a: seq<Call>) {
    forall r | r in a && Opens(catalog, r) ::
      && (forall r' | r' in a && Opens(catalog, r') :: r'.content == r.content)
      && (forall p | p in a && p.Repair? :: Covered(db, catalog[r.content.kind], users, key, r.content, a, p))
  }

  /** What a caller can compute before the calls. */
  predicate OrderFree(db: Outbox, catalog: Catalog, users: map<Id, User>, key: Key, a: seq<Call>) {
    if key in db.events then
      PolicyMatches(catalog, db.events[key].content) ==> EventOrderFree(db, catalog, users, key, a)
    else OpeningOrderFree(db, catalog, users, key, a)
  }

  lemma EventCallsConverge(db: Outbox, catalog: Catalog, users: map<Id, User>, key: Key, a: seq<Call>, b: seq<Call>)
    requires key in db.events && PolicyMatches(catalog, db.events[key].content)
    requires EventOrderFree(db, catalog, users, key, a) && SameCalls(a, b)
    ensures Run(db, catalog, users, key, a) == Run(db, catalog, users, key, b)
  {
    hide Run, Everybody, HasOutstanding, AddNotes, AddDeliveries, Accepted, LeavesOutstanding;
    var content := db.events[key].content;
    var policy := catalog[content.kind];
    EventRunProjects(db, catalog, users, key, a);
    EventRunProjects(db, catalog, users, key, b);
    SameCallsSameUsers(users, policy, IN_APP, content, a, b);
    SameCallsSameUsers(users, policy, EMAIL, content, a, b);
    RunStatus(db, catalog, users, key, a);
    RunStatus(db, catalog, users, key, b);
  }

  lemma FirstOfAll(content: Content, c: Call, a: seq<Call>)
    requires Accepted(content, c)
    ensures FirstAccepted(content, [c] + a) == Some(c)
    decreases |a|
  {
    var calls := [c] + a;
    if a == [] {
      assert calls[..0] == [] && calls[0] == c;
    } else {
      FirstOfAll(content, c, a[..|a| - 1]);
      assert calls[..|calls| - 1] == [c] + a[..|a| - 1];
    }
  }

  lemma RepeatedFirst(c: Call, a: seq<Call>)
    requires c in a
    ensures SameCalls(a, [c] + a)
  {
  }

  /**
   An event that a dispatcher holds or has failed shows which call came first: one that leaves
   something outstanding keeps its status, one that leaves nothing ends it.
   */
  lemma HeldShowsOrder(db: Outbox, catalog: Catalog, users: map<Id, User>, key: Key, c: Call, a: seq<Call>, c': Call,
                       a': seq<Call>)
    requires key in db.events && PolicyMatches(catalog, db.events[key].content)
    requires db.events[key].status.PROCESSING? || db.events[key].status.FAILED?
    requires Accepted(db.events[key].content, c) && Accepted(db.events[key].content, c')
    requires var content := db.events[key].content; var policy := catalog[content.kind];
             && LeavesOutstanding(db, policy, users, key, content, c)
             && !LeavesOutstanding(db, policy, users, key, content, c')
    ensures var s, s' := Run(db, catalog, users, key, [c] + a), Run(db, catalog, users, key, [c'] + a');
            && key in s.events && s.events[key].status == db.events[key].status && key in s'.events
            && s'.events[key].status == if HasOutstanding(s'.deliveries, key) then PENDING else PROCESSED
  {
    hide Run, HasOutstanding, Accepted, LeavesOutstanding, FirstAccepted;
    var content := db.events[key].content;
    FirstOfAll(content, c, a);
    FirstOfAll(content, c', a');
    RunStatus(db, catalog, users, key, [c] + a);
    RunStatus(db, catalog, users, key, [c'] + a');
  }

  lemma EventConvergesOnlyIf(db: Outbox, catalog: Catalog, users: map<Id, User>, key: Key, a: seq<Call>)
    requires key in db.events && PolicyMatches(catalog, db.events[key].content)
    requires Converges(db, catalog, users, key, a)
    ensures EventOrderFree(db, catalog, users, key, a)
  {
    hide Run, Accepted, LeavesOutstanding, SameCalls, PolicyMatches;
    var e := db.events[key];
    var policy := catalog[e.content.kind];
    if e.status.PROCESSING? || e.status.FAILED? {
      forall c, c' | c in a && c' in a && Accepted(e.content, c) && Accepted(e.content, c')
        ensures LeavesOutstanding(db, policy, users, key, e.content, c)
            ==> LeavesOutstanding(db, policy, users, key, e.content, c')
      {
        RepeatedFirst(c, a);
        RepeatedFirst(c', a);
        if LeavesOutstanding(db, policy, users, key, e.content, c)
           && !LeavesOutstanding(db, policy, users, key, e.content, c')
        {
          HeldShowsOrder(db, catalog, users, key, c, a, c', a);
        }
      }
    }
  }

  // ---------------------------------------------------------------- convergence without an event

  lemma {:induction false} HeardRecords(db: Outbox, catalog: Catalog, key: Key, calls: seq<Call>, call: Call)
    requires key !in db.events
    ensures call in Heard(db, catalog, key, calls) ==> call in calls
    ensures call in calls && Opens(catalog, call) ==> call in Heard(db, catalog, key, calls)
    decreases |calls|
  {
    hide Opens;
    if calls != [] && !Opens(catalog, calls[0]) {
      HeardRecords(db, catalog, key, calls[1..], call);
      assert call in calls <==> call == calls[0] || call in calls[1..];
    }
  }

  /** Once repairs cannot miss anybody, the heard calls add those users that the records add. */
  lemma HeardUsers(db: Outbox, catalog: Catalog, users: map<Id, User>, key: Key, channel: Channel, content: Content,
                   a: seq<Call>, b: seq<Call>, id: Id)
    requires key !in db.events && PolicyMatches(catalog, content) && SameCalls(a, b)
    requires forall p | p in a && p.Repair? ::
               id in Eligible(users, catalog[content.kind], channel, p.recipients, p.actor)
               ==> Recorded(users, catalog[content.kind], channel, content, a, id)
    ensures id in Everybody(users, catalog[content.kind], channel, content, Heard(db, catalog, key, b))
        <==> Recorded(users, catalog[content.kind], channel, content, a, id)
  {
    hide Eligible, Everybody, Heard, PolicyMatches;
    var policy := catalog[content.kind];
    var heard := Heard(db, catalog, key, b);
    EverybodyIs(users, policy, channel, content, heard, id);
    if id in Everybody(users, policy, channel, content, heard) {
      var i :| 0 <= i < |heard| && id in Added(users, policy, channel, content, heard[i]);
      HeardRecords(db, catalog, key, b, heard[i]);
      assert heard[i] in a;
    }
    if Recorded(users, policy, channel, content, a, id) {
      var r :| r in a && r.Record? && r.content == content && id in Eligible(users, policy, channel, r.recipients, r.actor);
      HeardRecords(db, catalog, key, b, r);
      var i :| 0 <= i < |heard| && heard[i] == r;
      assert id in Added(users, policy, channel, content, heard[i]);
    }
  }

  lemma SameNotes(rows: map<(Key, Id), Content>, key: Key, a: set<Id>, b: set<Id>, content: Content)
    requires forall id :: (key, id) !in rows ==> (id in a <==> id in b)
    ensures AddNotes(rows, key, a, content) == AddNotes(rows, key, b, content)
  {
    var x, y := AddNotes(rows, key, a, content), AddNotes(rows, key, b, content);
    assert forall k :: k in x <==> k in y;
    assert forall k :: k in x ==> x[k] == y[k];
  }

  lemma SameDeliveries(rows: map<(Key, Id), DeliveryStatus>, key: Key, a: set<Id>, b: set<Id>, users: map<Id, User>)
    requires a <= users.Keys && b <= users.Keys && forall id :: (key, id) !in rows ==> (id in a <==> id in b)
    ensures AddDeliveries(rows, key, a, users) == AddDeliveries(rows, key, b, users)
  {
    hide NewDelivery;
    var x, y := AddDeliveries(rows, key, a, users), AddDeliveries(rows, key, b, users);
    assert forall k :: k in x <==> k in y;
    assert forall k :: k in x ==> x[k] == y[k];
  }

  /** The records decide the winner, whatever the order. */
  lemma SameWinner(db: Outbox, catalog: Catalog, users: map<Id, User>, key: Key, a: seq<Call>, b: seq<Call>)
    requires key !in db.events && OpeningOrderFree(db, catalog, users, key, a) && SameCalls(a, b)
    ensures Winner(db, catalog, key, a) == Winner(db, catalog, key, b)
  {
    hide Winner, Opens, Covered;
    WinnerKnown(db, catalog, key, a);
    WinnerKnown(db, catalog, key, b);
  }

  lemma SameHeardUsers(db: Outbox, catalog: Catalog, users: map<Id, User>, key: Key, channel: Channel, content: Content,
                       a: seq<Call>, b: seq<Call>, id: Id)
    requires key !in db.events && PolicyMatches(catalog, content) && SameCalls(a, b)
    requires forall p | p in a && p.Repair? ::
               id in Eligible(users, catalog[content.kind], channel, p.recipients, p.actor)
               ==> Recorded(users, catalog[content.kind], channel, content, a, id)
    ensures id in Everybody(users, catalog[content.kind], channel, content, Heard(db, catalog, key, a))
        <==> id in Everybody(users, catalog[content.kind], channel, content, Heard(db, catalog, key, b))
  {
    hide Everybody, Heard, Eligible, Recorded, SameCalls, PolicyMatches;
    SameAsItself(a);
    HeardUsers(db, catalog, users, key, channel, content, a, a, id);
    HeardUsers(db, catalog, users, key, channel, content, a, b, id);
  }

  lemma SameHeardRows(db: Outbox, catalog: Catalog, users: map<Id, User>, key: Key, content: Content, a: seq<Call>,
                      b: seq<Call>)
    requires key !in db.events && PolicyMatches(catalog, content) && SameCalls(a, b)
    requires forall p | p in a && p.Repair? :: Covered(db, catalog[content.kind], users, key, content, a, p)
    ensures var policy := catalog[content.kind];
            var x, y := Heard(db, catalog, key, a), Heard(db, catalog, key, b);
            && AddNotes(db.notifications, key, Everybody(users, policy, IN_APP, content, x), content)
               == AddNotes(db.notifications, key, Everybody(users, policy, IN_APP, content, y), content)
            && AddDeliveries(db.deliveries, key, Everybody(users, policy, EMAIL, content, x), users)
               == AddDeliveries(db.deliveries, key, Everybody(users, policy, EMAIL, content, y), users)
  {
    hide Everybody, Heard, AddNotes, AddDeliveries, Eligible, Recorded, SameCalls, PolicyMatches;
    var policy := catalog[content.kind];
    var x, y := Heard(db, catalog, key, a), Heard(db, catalog, key, b);
    forall id | (key, id) !in db.notifications
      ensures id in Everybody(users, policy, IN_APP, content, x) <==> id in Everybody(users, policy, IN_APP, content, y)
    {
      SameHeardUsers(db, catalog, users, key, IN_APP, content, a, b, id);
    }
    forall id | (key, id) !in db.deliveries
      ensures id in Everybody(users, policy, EMAIL, content, x) <==> id in Everybody(users, policy, EMAIL, content, y)
    {
      SameHeardUsers(db, catalog, users, key, EMAIL, content, a, b, id);
    }
    SameNotes(db.notifications, key, Everybody(users, policy, IN_APP, content, x),
              Everybody(users, policy, IN_APP, content, y), content);
    SameDeliveries(db.deliveries, key, Everybody(users, policy, EMAIL, content, x),
                   Everybody(users, policy, EMAIL, content, y), users);
  }

  lemma SameAsItself(a: seq<Call>)
    ensures SameCalls(a, a)
  {
  }

  /** The first heard call is the record that opened the event, so the event is PENDING or PROCESSED after it. */
  lemma OpenedStatus(db: Outbox, catalog: Catalog, users: map<Id, User>, key: Key, content: Content, calls: seq<Call>)
    requires key !in db.events && Winner(db, catalog, key, calls) == Some(content) && PolicyMatches(catalog, content)
    ensures var later := Run(db, catalog, users, key, calls);
            later.events
            == db.events[key := Event(content, if HasOutstanding(later.deliveries, key) then PENDING else PROCESSED)]
  {
    hide Run, HasOutstanding, Winner, Heard, LeavesOutstanding, FirstAccepted;
    var heard := Heard(db, catalog, key, calls);
    RunOpens(db, catalog, users, key, calls);
    HeardStarts(db, catalog, key, content, calls);
    RunStatus(WithEvent(db, key, content), catalog, users, key, heard);
  }

  lemma {:induction false} HeardStarts(db: Outbox, catalog: Catalog, key: Key, content: Content, calls: seq<Call>)
    requires key !in db.events && Winner(db, catalog, key, calls) == Some(content)
    ensures exists c :: c in Heard(db, catalog, key, calls) && Accepted(content, c)
    decreases |calls|
  {
    hide Opens;
    if !Opens(catalog, calls[0]) {
      HeardStarts(db, catalog, key, content, calls[1..]);
    } else {
      assert calls[0] in Heard(db, catalog, key, calls) && Accepted(content, calls[0]);
    }
  }

  lemma OpeningCallsConverge(db: Outbox, catalog: Catalog, users: map<Id, User>, key: Key, a: seq<Call>, b: seq<Call>)
    requires key !in db.events && OpeningOrderFree(db, catalog, users, key, a) && SameCalls(a, b)
    ensures Run(db, catalog, users, key, a) == Run(db, catalog, users, key, b)
  {
    hide Run, Everybody, HasOutstanding, AddNotes, AddDeliveries, Winner, Heard, SameCalls, Opens, Covered;
    SameWinner(db, catalog, users, key, a, b);
    RunProjects(db, catalog, users, key, a);
    RunProjects(db, catalog, users, key, b);
    var winner := Winner(db, catalog, key, a);
    if winner.Some? {
      WinnerKnown(db, catalog, key, a);
      var r :| r in a && Opens(catalog, r) && r.content == winner.value;
      SameHeardRows(db, catalog, users, key, winner.value, a, b);
      OpenedStatus(db, catalog, users, key, winner.value, a);
      OpenedStatus(db, catalog, users, key, winner.value, b);
    }
  }

  function Repairs(a: seq<Call>): (r: seq<Call>)
    ensures forall c :: c in r <==> c in a && c.Repair?
  {
    if a == [] then [] else (if a[0].Repair? then [a[0]] else []) + Repairs(a[1..])
  }

  function Records(a: seq<Call>): (r: seq<Call>)
    ensures forall c :: c in r <==> c in a && c.Record?
  {
    if a == [] then [] else (if a[0].Record? then [a[0]] else []) + Records(a[1..])
  }

  /** Repairs that come before the first record are lost. */
  lemma EarlyRepairsAreLost(db: Outbox, catalog: Catalog, users: map<Id, User>, key: Key, a: seq<Call>)
    requires key !in db.events
    ensures SameCalls(a, Repairs(a) + Records(a))
    ensures Run(db, catalog, users, key, Repairs(a) + Records(a)) == Run(db, catalog, users, key, Records(a))
  {
    hide Run, Winner;
    RunConcat(db, catalog, users, key, Repairs(a), Records(a));
    RunOpens(db, catalog, users, key, Repairs(a));
    WinnerKnown(db, catalog, key, Repairs(a));
  }

  /** Two contents that may both open the event: the first one keeps it. */
  lemma FirstContentWins(db: Outbox, catalog: Catalog, key: Key, a: seq<Call>, r: Call)
    requires key !in db.events && Opens(catalog, r)
    ensures Winner(db, catalog, key, [r] + a) == Some(r.content) && Heard(db, catalog, key, [r] + a) == [r] + a
  {
  }

  lemma OpeningsAgree(db: Outbox, catalog: Catalog, users: map<Id, User>, key: Key, a: seq<Call>, r: Call, r': Call)
    requires key !in db.events && Converges(db, catalog, users, key, a)
    requires r in a && Opens(catalog, r) && r' in a && Opens(catalog, r')
    ensures r.content == r'.content
  {
    hide Run, SameCalls, Opens, Winner, Heard, Everybody;
    RepeatedFirst(r, a);
    RepeatedFirst(r', a);
    FirstContentWins(db, catalog, key, a, r);
    FirstContentWins(db, catalog, key, a, r');
    RunProjects(db, catalog, users, key, [r] + a);
    RunProjects(db, catalog, users, key, [r'] + a);
  }

  /** Whether somebody without a row gets one from the calls. */
  lemma StandsFor(db: Outbox, later: Outbox, users: map<Id, User>, key: Key, content: Content, inApp: set<Id>,
                  mail: set<Id>, id: Id)
    requires Stands(db, later, users, key, content, inApp, mail)
    ensures (key, id) !in db.notifications ==> ((key, id) in later.notifications <==> id in inApp)
    ensures (key, id) !in db.deliveries ==> ((key, id) in later.deliveries <==> id in mail)
  {
  }

  /** With the records alone, only those that they list are projected. */
  lemma RecordsReach(users: map<Id, User>, policy: Policy, channel: Channel, content: Content, a: seq<Call>,
                     heard: seq<Call>, id: Id)
    requires forall c :: c in heard ==> c in a && c.Record?
    requires id in Everybody(users, policy, channel, content, heard)
    ensures Recorded(users, policy, channel, content, a, id)
  {
    hide Everybody, Eligible;
    EverybodyIs(users, policy, channel, content, heard, id);
  }

  lemma RepairsCovered(db: Outbox, catalog: Catalog, users: map<Id, User>, key: Key, a: seq<Call>, r: Call, p: Call,
                       channel: Channel, id: Id)
    requires key !in db.events && Converges(db, catalog, users, key, a)
    requires r in a && Opens(catalog, r) && p in a && p.Repair?
    requires r.content.kind in catalog && id in Eligible(users, catalog[r.content.kind], channel, p.recipients, p.actor)
    requires if channel.IN_APP? then (key, id) !in db.notifications else (key, id) !in db.deliveries
    ensures Recorded(users, catalog[r.content.kind], channel, r.content, a, id)
  {
    hide Run, SameCalls, Opens, Winner, Heard, Everybody, Eligible, Recorded, Stands, Converges;
    var content := r.content;
    var policy := catalog[content.kind];
    var early, late := Records(a), [r] + a;
    RepeatedFirst(r, a);
    EarlyRepairsAreLost(db, catalog, users, key, a);
    ConvergesTo(db, catalog, users, key, a, late);
    ConvergesTo(db, catalog, users, key, a, Repairs(a) + Records(a));
    FirstContentWins(db, catalog, key, a, r);
    RunProjects(db, catalog, users, key, late);
    RunProjects(db, catalog, users, key, early);
    var later := Run(db, catalog, users, key, a);
    var notes := Everybody(users, policy, IN_APP, content, late);
    var mail := Everybody(users, policy, EMAIL, content, late);
    StandsContent(db, later, users, key, content, notes, mail);
    StandsFor(db, later, users, key, content, notes, mail, id);
    EverybodyIs(users, policy, channel, content, late, id);
    var i :| 0 <= i < |late| && late[i] == p;
    assert id in Added(users, policy, channel, content, late[i]);
    WinnerKnown(db, catalog, key, early);
    assert r in early;
    var heard := Heard(db, catalog, key, early);
    var winner := Winner(db, catalog, key, early).value;
    var notes' := Everybody(users, catalog[winner.kind], IN_APP, winner, heard);
    var mail' := Everybody(users, catalog[winner.kind], EMAIL, winner, heard);
    StandsContent(db, later, users, key, winner, notes', mail');
    StandsFor(db, later, users, key, winner, notes', mail', id);
    forall c | c in heard ensures c in a && c.Record? {
      HeardRecords(db, catalog, key, early, c);
    }
    RecordsReach(users, policy, channel, content, a, heard, id);
  }

  lemma ConvergesTo(db: Outbox, catalog: Catalog, users: map<Id, User>, key: Key, a: seq<Call>, b: seq<Call>)
    requires Converges(db, catalog, users, key, a) && SameCalls(a, b)
    ensures Run(db, catalog, users, key, b) == Run(db, catalog, users, key, a)
  {
  }

  lemma StandsContent(db: Outbox, later: Outbox, users: map<Id, User>, key: Key, content: Content, inApp: set<Id>,
                      mail: set<Id>)
    requires Stands(db, later, users, key, content, inApp, mail)
    ensures key in later.events && later.events[key].content == content
  {
  }

  lemma OpeningConvergesOnlyIf(db: Outbox, catalog: Catalog, users: map<Id, User>, key: Key, a: seq<Call>)
    requires key !in db.events && Converges(db, catalog, users, key, a)
    ensures OpeningOrderFree(db, catalog, users, key, a)
  {
    hide Converges, Eligible, Recorded;
    forall r | r in a && Opens(catalog, r)
      ensures forall r' | r' in a && Opens(catalog, r') :: r'.content == r.content
      ensures forall p | p in a && p.Repair? :: Covered(db, catalog[r.content.kind], users, key, r.content, a, p)
    {
      forall r' | r' in a && Opens(catalog, r') ensures r'.content == r.content {
        OpeningsAgree(db, catalog, users, key, a, r, r');
      }
      forall p | p in a && p.Repair? ensures Covered(db, catalog[r.content.kind], users, key, r.content, a, p) {
        forall id | id in Eligible(users, catalog[r.content.kind], IN_APP, p.recipients, p.actor)
                    && (key, id) !in db.notifications
          ensures Recorded(users, catalog[r.content.kind], IN_APP, r.content, a, id)
        {
          RepairsCovered(db, catalog, users, key, a, r, p, IN_APP, id);
        }
        forall id | id in Eligible(users, catalog[r.content.kind], EMAIL, p.recipients, p.actor)
                    && (key, id) !in db.deliveries
          ensures Recorded(users, catalog[r.content.kind], EMAIL, r.content, a, id)
        {
          RepairsCovered(db, catalog, users, key, a, r, p, EMAIL, id);
        }
      }
    }
  }

  /** A repair that comes before the record reaches nobody, and one that comes after it does. */
  lemma EarlyRepairMisses(db: Outbox, catalog: Catalog, users: map<Id, User>, key: Key, r: Call, p: Call, id: Id)
    requires key !in db.events && Opens(catalog, r) && p.Repair? && (key, id) !in db.deliveries
    requires id in Eligible(users, catalog[r.content.kind], EMAIL, p.recipients, p.actor)
    requires id !in Eligible(users, catalog[r.content.kind], EMAIL, r.recipients, r.actor)
    ensures (key, id) !in Run(db, catalog, users, key, [p, r]).deliveries
    ensures (key, id) in Run(db, catalog, users, key, [r, p]).deliveries
  {
    hide Run, After, Eligible, AddNotes, Opens;
    var content := r.content;
    var policy := catalog[content.kind];
    FirstContentWins(db, catalog, key, [p], r);
    FirstContentWins(db, catalog, key, [], r);
    assert [r] + [p] == [r, p] && [r] + [] == [r] && [p, r][1..] == [r];
    RunProjects(db, catalog, users, key, [r, p]);
    RunProjects(db, catalog, users, key, [p, r]);
    EverybodyIs(users, policy, EMAIL, content, [r, p], id);
    EverybodyIs(users, policy, EMAIL, content, [r], id);
    assert id in Added(users, policy, EMAIL, content, [r, p][1]);
  }

  // One catalogue, one event and one reader, for whom the order of two calls shows.
  const ALERT: Content := Content("ALERT", "ORDERS", "INFO", "Order", "1", None, "Alert", "Alert", None, "{}")
  const CATALOG: Catalog := map["ALERT" := Policy("ORDERS", "INFO", [EMAIL], {}, false)]
  const READERS: map<Id, User> := map["u" := User("u@example.com", true, false, map[], {})]

  /** A failed event, a repair for nobody and a repair for the reader: the event ends PENDING in one order,
    FAILED in the other. */
  lemma FailedEventShowsOrder()
    ensures var db := Outbox(map["k" := Event(ALERT, FAILED)], map[], map[]);
            var nobody, reader := Repair([], None), Repair(["u"], None);
            var s, s' := Run(db, CATALOG, READERS, "k", [nobody, reader]), Run(db, CATALOG, READERS, "k", [reader, nobody]);
            "k" in s.events && s.events["k"].status.PENDING? && "k" in s'.events && s'.events["k"].status.FAILED?
  {
    hide Run, FirstAccepted;
    var db := Outbox(map["k" := Event(ALERT, FAILED)], map[], map[]);
    var nobody, reader := Repair([], None), Repair(["u"], None);
    var policy := CATALOG["ALERT"];
    assert "u" in Eligible(READERS, policy, EMAIL, ["u"], None);
    assert HasOutstanding(AddDeliveries(map[], "k", Eligible(READERS, policy, EMAIL, ["u"], None), READERS), "k") by {
      assert ("k", "u") in AddDeliveries(map[], "k", Eligible(READERS, policy, EMAIL, ["u"], None), READERS);
    }
    HeldShowsOrder(db, CATALOG, READERS, "k", reader, [nobody], nobody, [reader]);
    assert [reader] + [nobody] == [reader, nobody] && [nobody] + [reader] == [nobody, reader];
    EventRunProjects(db, CATALOG, READERS, "k", [nobody, reader]);
    EverybodyIs(READERS, policy, EMAIL, ALERT, [nobody, reader], "u");
    assert "u" in Added(READERS, policy, EMAIL, ALERT, [nobody, reader][1]);
    assert ("k", "u") in Run(db, CATALOG, READERS, "k", [nobody, reader]).deliveries;
  }

  /** No event yet, a record for nobody and a repair for the reader: only one order writes the delivery. */
  lemma NewKeyShowsOrder()
    ensures var db := Outbox(map[], map[], map[]);
            var record, repair := Record(ALERT, [], None), Repair(["u"], None);
            && ("k", "u") !in Run(db, CATALOG, READERS, "k", [repair, record]).deliveries
            && ("k", "u") in Run(db, CATALOG, READERS, "k", [record, repair]).deliveries
  {
    hide Run;
    var db := Outbox(map[], map[], map[]);
    assert "u" in Eligible(READERS, CATALOG["ALERT"], EMAIL, ["u"], None);
    EarlyRepairMisses(db, CATALOG, READERS, "k", Record(ALERT, [], None), Repair(["u"], None), "u");
  }

  /**
   Convergence, for every state of the outbox and every sequence of calls on one key: all orders
   and repetitions of the calls leave the same outbox exactly when the calls are order free.
   */
  lemma CallsConverge(db: Outbox, catalog: Catalog, users: map<Id, User>, key: Key, a: seq<Call>)
    ensures Converges(db, catalog, users, key, a) <==> OrderFree(db, catalog, users, key, a)
  {
    hide Run, SameCalls, EventOrderFree, OpeningOrderFree, PolicyMatches;
    if OrderFree(db, catalog, users, key, a) {
      forall b | SameCalls(a, b) ensures Run(db, catalog, users, key, b) == Run(db, catalog, users, key, a) {
        if key !in db.events {
          OpeningCallsConverge(db, catalog, users, key, a, b);
        } else if PolicyMatches(catalog, db.events[key].content) {
          EventCallsConverge(db, catalog, users, key, a, b);
        } else {
          RunRefused(db, catalog, users, key, a);
          RunRefused(db, catalog, users, key, b);
        }
      }
    }
    if Converges(db, catalog, users, key, a) {
      if key !in db.events {
        OpeningConvergesOnlyIf(db, catalog, users, key, a);
      } else if PolicyMatches(catalog, db.events[key].content) {
        EventConvergesOnlyIf(db, catalog, users, key, a);
      }
    }
  }
}
