/**
 The communication outbox. One event per deduplication key; its in-app notifications and
 e-mail deliveries are projected by upserts that never change a row that is already there.
 */
module CommunicationOutbox {
  import opened Outcomes

  type Id = string
  type Key = string

  datatype Channel = IN_APP | EMAIL

  datatype Policy = Policy(
    category: string,
    severity: string,
    defaultChannels: seq<Channel>,
    requiredChannels: set<Channel>,
    includeActor: bool
  )

  type Catalog = map<string, Policy>

  /** The immutable part of an event; the payload stands for its canonical text. */
  datatype Content = Content(
    kind: string,
    category: string,
    severity: string,
    aggregateType: string,
    aggregateId: string,
    organizationId: Option<Id>,
    title: string,
    message: string,
    actionPath: Option<string>,
    payload: string
  )

  datatype EventStatus = PENDING | PROCESSING | PROCESSED | FAILED
  datatype DeliveryStatus = TO_SEND | SENDING | SENT | SEND_FAILED | DELIVERY_UNCERTAIN | SUPPRESSED | BOUNCED | COMPLAINED

  datatype Event = Event(content: Content, status: EventStatus)

  /** The normalised addresses decide suppression. */
  datatype User = User(email: string, verified: bool, banned: bool, preferences: map<(string, Channel), bool>, suppressed: set<string>)

  /** Deliveries are keyed by event and user; the channel is always e-mail. */
  datatype Outbox = Outbox(
    events: map<Key, Event>,
    notifications: map<(Key, Id), Content>,
    deliveries: map<(Key, Id), DeliveryStatus>
  )

  datatype Fault = DEDUPLICATION_CONFLICT | EVENT_MISSING

  datatype Call =
    | Record(content: Content, recipients: seq<Id>, actor: Option<Id>)
    | Repair(recipients: seq<Id>, actor: Option<Id>)

  // ---------------------------------------------------------------- who is projected

  predicate ShouldDeliver(policy: Policy, channel: Channel, user: User) {
    var preference := (policy.category, channel);
    channel in policy.requiredChannels || preference !in user.preferences || user.preferences[preference]
  }

  predicate Projects(policy: Policy, channel: Channel, user: User) {
    !user.banned && channel in policy.defaultChannels && ShouldDeliver(policy, channel, user)
  }

  predicate Listed(policy: Policy, recipients: seq<Id>, actor: Option<Id>, id: Id) {
    id in recipients && (policy.includeActor || actor != Some(id))
  }

  /** The users that one call projects on a channel. */
  function Eligible(users: map<Id, User>, policy: Policy, channel: Channel, recipients: seq<Id>, actor: Option<Id>): (r: set<Id>)
    ensures r <= users.Keys
  {
    set id | id in users && Listed(policy, recipients, actor, id) && Projects(policy, channel, users[id])
  }

  function NewDelivery(user: User): DeliveryStatus {
    if !user.verified || user.email in user.suppressed then SUPPRESSED else TO_SEND
  }

  // ---------------------------------------------------------------- rows

  /** Upserts with an empty update: missing rows are created, the others stay. */
  function AddNotes(rows: map<(Key, Id), Content>, key: Key, ids: set<Id>, content: Content): map<(Key, Id), Content> {
    rows + map id | id in ids && (key, id) !in rows :: (key, id) := content
  }

  function AddDeliveries(rows: map<(Key, Id), DeliveryStatus>, key: Key, ids: set<Id>, users: map<Id, User>)
    : map<(Key, Id), DeliveryStatus>
    requires ids <= users.Keys
  {
    rows + map id | id in ids && (key, id) !in rows :: (key, id) := NewDelivery(users[id])
  }

  predicate Outstanding(status: DeliveryStatus) {
    status in {TO_SEND, SENDING, SEND_FAILED, DELIVERY_UNCERTAIN}
  }

  predicate HasOutstanding(rows: map<(Key, Id), DeliveryStatus>, key: Key) {
    exists k | k in rows :: k.0 == key && Outstanding(rows[k])
  }

  function Reconciled(e: Event, outstanding: bool): Event {
    if !outstanding then e.(status := PROCESSED)
    else if e.status.PROCESSED? then e.(status := PENDING)
    else e
  }

  predicate PolicyMatches(catalog: Catalog, content: Content): (r: bool)
    ensures r ==> content.kind in catalog
  {
    && content.kind in catalog
    && content.category == catalog[content.kind].category
    && content.severity == catalog[content.kind].severity
  }

  // ---------------------------------------------------------------- the calls

  function RepairProjections(db: Outbox, catalog: Catalog, users: map<Id, User>, key: Key, content: Content,
                             recipients: seq<Id>, actor: Option<Id>): Result<Outbox, Fault>
  {
    if !PolicyMatches(catalog, content) then Err(DEDUPLICATION_CONFLICT)
    else if key !in db.events then Err(EVENT_MISSING)
    else
      var policy := catalog[content.kind];
      var deliveries := AddDeliveries(db.deliveries, key, Eligible(users, policy, EMAIL, recipients, actor), users);
      var e := Reconciled(db.events[key], HasOutstanding(deliveries, key));
      Ok(Outbox(db.events[key := e],
                AddNotes(db.notifications, key, Eligible(users, policy, IN_APP, recipients, actor), content), deliveries))
  }

  function Apply(db: Outbox, catalog: Catalog, users: map<Id, User>, key: Key, call: Call): Result<Outbox, Fault> {
    match call
    case Repair(recipients, actor) =>
      if key !in db.events then Err(EVENT_MISSING)
      else RepairProjections(db, catalog, users, key, db.events[key].content, recipients, actor)
    case Record(content, recipients, actor) =>
      var upserted := if key in db.events then db else db.(events := db.events[key := Event(content, PENDING)]);
      if upserted.events[key].content != content then Err(DEDUPLICATION_CONFLICT)
      else RepairProjections(upserted, catalog, users, key, content, recipients, actor)
  }

  function After(db: Outbox, catalog: Catalog, users: map<Id, User>, key: Key, call: Call): Outbox {
    var r := Apply(db, catalog, users, key, call);
    if r.Ok? then r.value else db
  }

  function Run(db: Outbox, catalog: Catalog, users: map<Id, User>, key: Key, calls: seq<Call>): Outbox {
    if calls == [] then db
    else After(Run(db, catalog, users, key, calls[..|calls| - 1]), catalog, users, key, calls[|calls| - 1])
  }

  // ---------------------------------------------------------------- one call

  /** After a call that succeeds, an event is processed exactly when nothing of it is left to deliver. */
  lemma ProcessedIffNothingOutstanding(db: Outbox, catalog: Catalog, users: map<Id, User>, key: Key, call: Call)
    requires Apply(db, catalog, users, key, call).Ok?
    ensures var db' := Apply(db, catalog, users, key, call).value;
            key in db'.events && (db'.events[key].status.PROCESSED? <==> !HasOutstanding(db'.deliveries, key))
  {
    hide Eligible, HasOutstanding, AddNotes, AddDeliveries;
  }

  /** One table after a call: what was there, and perhaps new rows of one event. */
  ghost predicate OnlyAdds<T>(rows: map<(Key, Id), T>, rows': map<(Key, Id), T>, key: Key) {
    && (forall k :: k in rows ==> k in rows' && rows'[k] == rows[k])
    && (forall k :: k in rows' && k !in rows ==> k.0 == key)
  }

  lemma UpsertsOnlyAdd(db: Outbox, key: Key, ids: set<Id>, content: Content, mail: set<Id>, users: map<Id, User>)
    requires mail <= users.Keys
    ensures OnlyAdds(db.notifications, AddNotes(db.notifications, key, ids, content), key)
    ensures OnlyAdds(db.deliveries, AddDeliveries(db.deliveries, key, mail, users), key)
  {
  }

  lemma RepairOnlyAdds(db: Outbox, catalog: Catalog, users: map<Id, User>, key: Key, content: Content,
                       recipients: seq<Id>, actor: Option<Id>)
    requires RepairProjections(db, catalog, users, key, content, recipients, actor).Ok?
    ensures var db' := RepairProjections(db, catalog, users, key, content, recipients, actor).value;
            && OnlyAdds(db.notifications, db'.notifications, key) && OnlyAdds(db.deliveries, db'.deliveries, key)
            && key in db.events && db'.events == db.events[key := db'.events[key]]
            && db'.events[key].content == db.events[key].content
  {
    var policy := catalog[content.kind];
    var mail := Eligible(users, policy, EMAIL, recipients, actor);
    UpsertsOnlyAdd(db, key, Eligible(users, policy, IN_APP, recipients, actor), content, mail, users);
    hide Eligible, AddNotes, AddDeliveries, HasOutstanding, OnlyAdds;
  }

  lemma NothingAdded(db: Outbox, key: Key)
    ensures OnlyAdds(db.notifications, db.notifications, key) && OnlyAdds(db.deliveries, db.deliveries, key)
  {
  }

  /** Calls create rows of their own event only, and change no row that exists but the status of that event. */
  lemma CallOnlyAdds(db: Outbox, catalog: Catalog, users: map<Id, User>, key: Key, call: Call)
    ensures var db' := After(db, catalog, users, key, call);
            && OnlyAdds(db.notifications, db'.notifications, key) && OnlyAdds(db.deliveries, db'.deliveries, key)
            && (forall k :: k in db.events && k != key ==> k in db'.events && db'.events[k] == db.events[k])
            && (key in db.events ==> key in db'.events && db'.events[key].content == db.events[key].content)
  {
    hide RepairProjections, OnlyAdds;
    NothingAdded(db, key);
    var upserted := if call.Record? && key !in db.events then db.(events := db.events[key := Event(call.content, PENDING)]) else db;
    if key in upserted.events {
      var content := upserted.events[key].content;
      if RepairProjections(upserted, catalog, users, key, content, call.recipients, call.actor).Ok? {
        RepairOnlyAdds(upserted, catalog, users, key, content, call.recipients, call.actor);
      }
    }
  }

  // ---------------------------------------------------------------- runs

  /** The calls that this event accepts: repairs, and records of exactly its content. */
  predicate Accepted(content: Content, call: Call) {
    call.Record? ==> call.content == content
  }

  /** The users that one call adds to those of an event with this content. */
  function Added(users: map<Id, User>, policy: Policy, channel: Channel, content: Content, call: Call): (r: set<Id>)
    ensures r <= users.Keys
  {
    if Accepted(content, call) then Eligible(users, policy, channel, call.recipients, call.actor) else {}
  }

  /** Everybody that some accepted call of the sequence projects on the channel. */
  function Everybody(users: map<Id, User>, policy: Policy, channel: Channel, content: Content, calls: seq<Call>): (r: set<Id>)
    ensures r <= users.Keys
  {
    if calls == [] then {}
    else
      Everybody(users, policy, channel, content, calls[..|calls| - 1])
      + Added(users, policy, channel, content, calls[|calls| - 1])
  }

  lemma AddNotesTwice(rows: map<(Key, Id), Content>, key: Key, a: set<Id>, b: set<Id>, content: Content)
    ensures AddNotes(AddNotes(rows, key, a, content), key, b, content) == AddNotes(rows, key, a + b, content)
  {
    var once, twice := AddNotes(rows, key, a + b, content), AddNotes(AddNotes(rows, key, a, content), key, b, content);
    assert forall k :: k in once <==> k in twice;
    assert forall k :: k in once ==> once[k] == twice[k];
  }

  lemma AddDeliveriesTwice(rows: map<(Key, Id), DeliveryStatus>, key: Key, a: set<Id>, b: set<Id>, users: map<Id, User>)
    requires a <= users.Keys && b <= users.Keys
    ensures AddDeliveries(AddDeliveries(rows, key, a, users), key, b, users) == AddDeliveries(rows, key, a + b, users)
  {
    hide NewDelivery;
    var once, twice := AddDeliveries(rows, key, a + b, users), AddDeliveries(AddDeliveries(rows, key, a, users), key, b, users);
    assert forall k :: k in once <==> k in twice;
    assert forall k :: k in once ==> once[k] == twice[k];
  }

  /** Where a run of calls on one event stands: the rows of these users, and no other event changed. */
  ghost predicate Stands(db: Outbox, later: Outbox, users: map<Id, User>, key: Key, content: Content, inApp: set<Id>, mail: set<Id>) {
    && key in later.events && later.events[key].content == content && later.events == db.events[key := later.events[key]]
    && later.notifications == AddNotes(db.notifications, key, inApp, content)
    && mail <= users.Keys && later.deliveries == AddDeliveries(db.deliveries, key, mail, users)
  }

  /** On an event that is there, a sequence of calls leaves the union of what its accepted calls project. */
  lemma {:induction false} EventRunProjects(db: Outbox, catalog: Catalog, users: map<Id, User>, key: Key, calls: seq<Call>)
    requires key in db.events && PolicyMatches(catalog, db.events[key].content)
    ensures var content := db.events[key].content; var policy := catalog[content.kind];
            Stands(db, Run(db, catalog, users, key, calls), users, key, content,
                   Everybody(users, policy, IN_APP, content, calls), Everybody(users, policy, EMAIL, content, calls))
  {
    hide Stands, After, Eligible;
    var content := db.events[key].content;
    if calls == [] {
      NothingStands(db, users, key);
    } else {
      var front, last := calls[..|calls| - 1], calls[|calls| - 1];
      var policy := catalog[content.kind];
      EventRunProjects(db, catalog, users, key, front);
      StandsFurther(db, Run(db, catalog, users, key, front), catalog, users, key,
                    Everybody(users, policy, IN_APP, content, front), Everybody(users, policy, EMAIL, content, front), last);
    }
  }

  lemma NothingStands(db: Outbox, users: map<Id, User>, key: Key)
    requires key in db.events
    ensures Stands(db, db, users, key, db.events[key].content, {}, {})
  {
  }

  lemma StandsFurther(db: Outbox, later: Outbox, catalog: Catalog, users: map<Id, User>, key: Key,
                      inApp: set<Id>, mail: set<Id>, call: Call)
    requires key in db.events && PolicyMatches(catalog, db.events[key].content)
    requires Stands(db, later, users, key, db.events[key].content, inApp, mail)
    ensures var content := db.events[key].content; var policy := catalog[content.kind];
            Stands(db, After(later, catalog, users, key, call), users, key, content,
                   inApp + Added(users, policy, IN_APP, content, call), mail + Added(users, policy, EMAIL, content, call))
  {
    hide After, Eligible, AddNotes, AddDeliveries, HasOutstanding;
    var content := db.events[key].content;
    var policy := catalog[content.kind];
    CallProjects(later, catalog, users, key, content, call);
    if Accepted(content, call) {
      AddNotesTwice(db.notifications, key, inApp, Eligible(users, policy, IN_APP, call.recipients, call.actor), content);
      AddDeliveriesTwice(db.deliveries, key, mail, Eligible(users, policy, EMAIL, call.recipients, call.actor), users);
    } else {
      assert inApp + {} == inApp && mail + {} == mail;
    }
  }

  lemma CallProjects(db: Outbox, catalog: Catalog, users: map<Id, User>, key: Key, content: Content, call: Call)
    requires key in db.events && db.events[key].content == content && PolicyMatches(catalog, content)
    ensures var policy := catalog[content.kind];
            var db' := After(db, catalog, users, key, call);
            if !Accepted(content, call) then db' == db
            else
              && key in db'.events && db'.events[key].content == content
              && db'.notifications
                 == AddNotes(db.notifications, key, Eligible(users, policy, IN_APP, call.recipients, call.actor), content)
              && db'.deliveries
                 == AddDeliveries(db.deliveries, key, Eligible(users, policy, EMAIL, call.recipients, call.actor), users)
              && db'.events == db.events[key := Reconciled(db.events[key], HasOutstanding(db'.deliveries, key))]
  {
    hide HasOutstanding;
  }

  lemma {:induction false} EverybodyIs(users: map<Id, User>, policy: Policy, channel: Channel, content: Content, calls: seq<Call>, id: Id)
    ensures id in Everybody(users, policy, channel, content, calls)
        <==> exists i :: 0 <= i < |calls| && id in Added(users, policy, channel, content, calls[i])
  {
    hide Added;
    if calls != [] {
      var front, last := calls[..|calls| - 1], |calls| - 1;
      EverybodyIs(users, policy, channel, content, front, id);
      assert forall i :: 0 <= i < last ==> front[i] == calls[i];
    }
  }

  ghost predicate SameCalls(a: seq<Call>, b: seq<Call>) {
    forall c :: c in a <==> c in b
  }

  lemma SameCallsSameUsers(users: map<Id, User>, policy: Policy, channel: Channel, content: Content, a: seq<Call>, b: seq<Call>)
    requires SameCalls(a, b)
    ensures Everybody(users, policy, channel, content, a) == Everybody(users, policy, channel, content, b)
  {
    hide Added, Everybody;
    forall id ensures id in Everybody(users, policy, channel, content, a) <==> id in Everybody(users, policy, channel, content, b) {
      EverybodyIs(users, policy, channel, content, a, id);
      EverybodyIs(users, policy, channel, content, b, id);
      assert forall i :: 0 <= i < |a| ==> a[i] in b;
      assert forall i :: 0 <= i < |b| ==> b[i] in a;
    }
  }

  // ---------------------------------------------------------------- the status after a run

  function FirstAccepted(content: Content, calls: seq<Call>): (r: Option<Call>)
    ensures r.Some? ==> r.value in calls && Accepted(content, r.value)
    ensures r.None? ==> forall c :: c in calls ==> !Accepted(content, c)
  {
    if calls == [] then None
    else
      var last := |calls| - 1;
      assert calls == calls[..last] + [calls[last]];
      var r := FirstAccepted(content, calls[..last]);
      if r.Some? then r else if Accepted(content, calls[last]) then Some(calls[last]) else None
  }

  /** Whether the event has something left to deliver when this call comes first. */
  predicate LeavesOutstanding(db: Outbox, policy: Policy, users: map<Id, User>, key: Key, content: Content, call: Call) {
    HasOutstanding(AddDeliveries(db.deliveries, key, Added(users, policy, EMAIL, content, call), users), key)
  }

  /** The first call decides whether a dispatcher keeps the event; what is outstanding in the end decides the rest. */
  function StatusAfter(before: EventStatus, first: bool, outstanding: bool): EventStatus {
    if !outstanding then PROCESSED
    else if first && !before.PROCESSED? then before
    else PENDING
  }

  lemma OutstandingGrows(rows: map<(Key, Id), DeliveryStatus>, rows': map<(Key, Id), DeliveryStatus>, key: Key)
    requires HasOutstanding(rows, key) && OnlyAdds(rows, rows', key)
    ensures HasOutstanding(rows', key)
  {
    var k :| k in rows && k.0 == key && Outstanding(rows[k]);
    assert k in rows';
  }

  lemma {:induction false} RunStatus(db: Outbox, catalog: Catalog, users: map<Id, User>, key: Key, calls: seq<Call>)
    requires key in db.events && PolicyMatches(catalog, db.events[key].content)
    ensures var later := Run(db, catalog, users, key, calls);
            var e := db.events[key];
            match FirstAccepted(e.content, calls)
            case None => later == db
            case Some(first) =>
              var f := LeavesOutstanding(db, catalog[e.content.kind], users, key, e.content, first);
              && (f ==> HasOutstanding(later.deliveries, key))
              && later.events == db.events[key := e.(status := StatusAfter(e.status, f, HasOutstanding(later.deliveries, key)))]
  {
    hide After, HasOutstanding, AddNotes, AddDeliveries, Eligible, OnlyAdds, Accepted;
    if calls != [] {
      var e := db.events[key];
      var front, last := calls[..|calls| - 1], calls[|calls| - 1];
      var before := Run(db, catalog, users, key, front);
      RunStatus(db, catalog, users, key, front);
      CallProjects(before, catalog, users, key, e.content, last);
      if Accepted(e.content, last) && FirstAccepted(e.content, front).Some? {
        CallOnlyAdds(before, catalog, users, key, last);
        if HasOutstanding(before.deliveries, key) {
          OutstandingGrows(before.deliveries, After(before, catalog, users, key, last).deliveries, key);
        }
      }
    }
  }

  // ---------------------------------------------------------------- a key without an event

  /** A record that creates the event of a key that has none. */
  predicate Opens(catalog: Catalog, call: Call): (r: bool)
    ensures r ==> call.Record? && PolicyMatches(catalog, call.content)
  {
    call.Record? && PolicyMatches(catalog, call.content)
  }

  /** The content that the event of the key has once the calls were made, if they leave rows at all. */
  function Winner(db: Outbox, catalog: Catalog, key: Key, calls: seq<Call>): Option<Content> {
    if key in db.events then
      if PolicyMatches(catalog, db.events[key].content) then Some(db.events[key].content) else None
    else if calls == [] then None
    else if Opens(catalog, calls[0]) then Some(calls[0].content)
    else Winner(db, catalog, key, calls[1..])
  }

  /** The calls that found an event: all of them, or those from the first record that opens one. */
  function Heard(db: Outbox, catalog: Catalog, key: Key, calls: seq<Call>): seq<Call> {
    if key in db.events || calls == [] || Opens(catalog, calls[0]) then calls else Heard(db, catalog, key, calls[1..])
  }

  function WithEvent(db: Outbox, key: Key, content: Content): Outbox {
    db.(events := db.events[key := Event(content, PENDING)])
  }

  lemma {:induction false} RunConcat(db: Outbox, catalog: Catalog, users: map<Id, User>, key: Key, a: seq<Call>, b: seq<Call>)
    ensures Run(db, catalog, users, key, a + b) == Run(Run(db, catalog, users, key, a), catalog, users, key, b)
  {
    hide After;
    if b == [] {
      assert a + b == a;
    } else {
      RunConcat(db, catalog, users, key, a, b[..|b| - 1]);
      assert (a + b)[..|a + b| - 1] == a + b[..|b| - 1];
    }
  }

  lemma RunFirst(db: Outbox, catalog: Catalog, users: map<Id, User>, key: Key, calls: seq<Call>)
    requires calls != []
    ensures Run(db, catalog, users, key, calls)
         == Run(After(db, catalog, users, key, calls[0]), catalog, users, key, calls[1..])
  {
    hide After;
    RunConcat(db, catalog, users, key, [calls[0]], calls[1..]);
    assert [calls[0]] + calls[1..] == calls;
    assert Run(db, catalog, users, key, [calls[0]][..0]) == db;
  }

  /** A record on a key without an event is a record on the event it creates; any other call fails there. */
  lemma FirstCall(db: Outbox, catalog: Catalog, users: map<Id, User>, key: Key, call: Call)
    requires key !in db.events
    ensures After(db, catalog, users, key, call)
         == if Opens(catalog, call) then After(WithEvent(db, key, call.content), catalog, users, key, call) else db
  {
    hide Eligible, HasOutstanding, AddNotes, AddDeliveries;
  }

  /** A run on a key without an event is a run on the event that its first opening record creates. */
  lemma {:induction false} RunOpens(db: Outbox, catalog: Catalog, users: map<Id, User>, key: Key, calls: seq<Call>)
    requires key !in db.events
    ensures match Winner(db, catalog, key, calls)
            case None => Run(db, catalog, users, key, calls) == db
            case Some(content) =>
              Run(db, catalog, users, key, calls)
              == Run(WithEvent(db, key, content), catalog, users, key, Heard(db, catalog, key, calls))
    decreases |calls|
  {
    hide After, Opens;
    if calls != [] {
      FirstCall(db, catalog, users, key, calls[0]);
      RunFirst(db, catalog, users, key, calls);
      if Opens(catalog, calls[0]) {
        RunFirst(WithEvent(db, key, calls[0].content), catalog, users, key, calls);
      } else {
        RunOpens(db, catalog, users, key, calls[1..]);
      }
    }
  }

  /** What a policy does not know stays as it is. */
  lemma {:induction false} RunRefused(db: Outbox, catalog: Catalog, users: map<Id, User>, key: Key, calls: seq<Call>)
    requires key in db.events && !PolicyMatches(catalog, db.events[key].content)
    ensures Run(db, catalog, users, key, calls) == db
  {
    if calls != [] {
      RunRefused(db, catalog, users, key, calls[..|calls| - 1]);
    }
  }

  lemma {:induction false} WinnerKnown(db: Outbox, catalog: Catalog, key: Key, calls: seq<Call>)
    requires key !in db.events
    ensures match Winner(db, catalog, key, calls)
            case None => forall c :: c in calls ==> !Opens(catalog, c)
            case Some(content) => exists c :: c in calls && Opens(catalog, c) && c.content == content
    decreases |calls|
  {
    hide Opens;
    if calls != [] {
      assert calls[0] in calls;
      assert forall c :: c in calls <==> c == calls[0] || c in calls[1..];
      if !Opens(catalog, calls[0]) {
        WinnerKnown(db, catalog, key, calls[1..]);
      }
    }
  }

  /**
   Any sequence of calls on any key: it leaves everything as it was, or exactly the union of what
   its calls project from the moment there is an event, on top of the rows there were.
   */
  lemma RunProjects(db: Outbox, catalog: Catalog, users: map<Id, User>, key: Key, calls: seq<Call>)
    ensures var later := Run(db, catalog, users, key, calls);
            match Winner(db, catalog, key, calls)
            case None => later == db
            case Some(content) =>
              && content.kind in catalog
              && var policy := catalog[content.kind]; var heard := Heard(db, catalog, key, calls);
                 Stands(db, later, users, key, content, Everybody(users, policy, IN_APP, content, heard),
                        Everybody(users, policy, EMAIL, content, heard))
  {
    hide Run, Everybody, Heard, AddNotes, AddDeliveries;
    if key in db.events {
      if PolicyMatches(catalog, db.events[key].content) {
        EventRunProjects(db, catalog, users, key, calls);
        HeardOnEvent(db, catalog, key, calls);
      } else {
        RunRefused(db, catalog, users, key, calls);
      }
    } else {
      RunOpens(db, catalog, users, key, calls);
      WinnerKnown(db, catalog, key, calls);
      var winner := Winner(db, catalog, key, calls);
      if winner.Some? {
        EventRunProjects(WithEvent(db, key, winner.value), catalog, users, key, Heard(db, catalog, key, calls));
      }
    }
  }

  lemma HeardOnEvent(db: Outbox, catalog: Catalog, key: Key, calls: seq<Call>)
    requires key in db.events
    ensures Heard(db, catalog, key, calls) == calls
  {
  }
}
