/** Which calls an event accepts, whom each of them reaches, and with what, in terms of users, policy and rows. */
module OutboxEffects {
  import opened Outcomes
  import opened CommunicationOutbox

  /** The catalogue still classifies the event as the event says. */
  ghost predicate Catalogued(catalog: Catalog, content: Content) {
    && content.kind in catalog
    && catalog[content.kind].category == content.category && catalog[content.kind].severity == content.severity
  }

  /** The event that a call is about: the one of the key, or the one that a record brings. */
  ghost predicate About(db: Outbox, key: Key, call: Call, content: Content) {
    if key in db.events then db.events[key].content == content && (call.Record? ==> call.content == content)
    else call.Record? && call.content == content
  }

  /** A known, listed and unbanned user, on a default channel that is required or has not been turned off. */
  ghost predicate Reaches(users: map<Id, User>, policy: Policy, channel: Channel, call: Call, id: Id) {
    && id in users && id in call.recipients && (call.actor == Some(id) ==> policy.includeActor)
    && !users[id].banned && channel in policy.defaultChannels
    && (channel in policy.requiredChannels
        || (policy.category, channel) !in users[id].preferences
        || users[id].preferences[(policy.category, channel)])
  }

  /** A delivery of the event is waiting, under way, to be retried, or in doubt. */
  ghost predicate Waiting(rows: map<(Key, Id), DeliveryStatus>, key: Key) {
    exists id :: (key, id) in rows
                 && (rows[(key, id)].TO_SEND? || rows[(key, id)].SENDING? || rows[(key, id)].SEND_FAILED?
                     || rows[(key, id)].DELIVERY_UNCERTAIN?)
  }

  lemma ReachesSame(users: map<Id, User>, policy: Policy, channel: Channel, call: Call, id: Id)
    ensures id in Eligible(users, policy, channel, call.recipients, call.actor) <==> Reaches(users, policy, channel, call, id)
  {
  }

  lemma WaitingSame(rows: map<(Key, Id), DeliveryStatus>, key: Key)
    ensures Waiting(rows, key) <==> HasOutstanding(rows, key)
  {
    if HasOutstanding(rows, key) {
      var k :| k in rows && k.0 == key && Outstanding(rows[k]);
      assert k == (key, k.1);
      assert (key, k.1) in rows;
    }
    if Waiting(rows, key) {
      var id :| (key, id) in rows && Outstanding(rows[(key, id)]);
    }
  }

  /** A call succeeds exactly when it is about the event of its key, or creates it, and the catalogue knows that event. */
  lemma AcceptsExactly(db: Outbox, catalog: Catalog, users: map<Id, User>, key: Key, call: Call)
    ensures Apply(db, catalog, users, key, call).Ok? <==>
              exists content :: About(db, key, call, content) && Catalogued(catalog, content)
  {
    hide Eligible, HasOutstanding, AddNotes, AddDeliveries;
    if key in db.events {
      assert About(db, key, call, db.events[key].content) <==> (call.Record? ==> call.content == db.events[key].content);
    } else if call.Record? {
      assert About(db, key, call, call.content);
    }
  }

  /** Nothing that was there changes, and nothing of another event is added. */
  ghost predicate KeepsRows(db: Outbox, db': Outbox, key: Key) {
    && (forall k :: k in db.notifications ==> k in db'.notifications && db'.notifications[k] == db.notifications[k])
    && (forall k :: k in db'.notifications && k !in db.notifications ==> k.0 == key)
    && (forall k :: k in db.deliveries ==> k in db'.deliveries && db'.deliveries[k] == db.deliveries[k])
    && (forall k :: k in db'.deliveries && k !in db.deliveries ==> k.0 == key)
    && (forall k :: k in db.events && k != key ==> k in db'.events && db'.events[k] == db.events[k])
    && (forall k :: k in db'.events && k != key ==> k in db.events)
  }

  /** Whoever has no row yet gets one exactly when the call reaches them; mail to an unverified or suppressed address is suppressed. */
  ghost predicate AddsFor(db: Outbox, db': Outbox, users: map<Id, User>, policy: Policy, key: Key, content: Content,
                          call: Call, id: Id) {
    && ((key, id) !in db.notifications ==>
          ((key, id) in db'.notifications <==> Reaches(users, policy, IN_APP, call, id))
          && ((key, id) in db'.notifications ==> db'.notifications[(key, id)] == content))
    && ((key, id) !in db.deliveries ==>
          ((key, id) in db'.deliveries <==> Reaches(users, policy, EMAIL, call, id))
          && ((key, id) in db'.deliveries ==>
                id in users
                && db'.deliveries[(key, id)]
                   == if !users[id].verified || users[id].email in users[id].suppressed then SUPPRESSED else TO_SEND))
  }

  /** Processed exactly when nothing waits; otherwise pending, unless a dispatcher held or had failed the event before. */
  ghost predicate StatusShows(before: Option<EventStatus>, after: EventStatus, waiting: bool) {
    && (after.PROCESSED? <==> !waiting)
    && (waiting ==> after == if before.Some? && (before.value.PROCESSING? || before.value.FAILED?) then before.value else PENDING)
  }

  /** What one successful call does. */
  lemma CallReaches(db: Outbox, catalog: Catalog, users: map<Id, User>, key: Key, call: Call, content: Content)
    requires Apply(db, catalog, users, key, call).Ok? && About(db, key, call, content)
    ensures var db' := Apply(db, catalog, users, key, call).value;
            && content.kind in catalog && key in db'.events && db'.events[key].content == content
            && KeepsRows(db, db', key)
            && (forall id :: AddsFor(db, db', users, catalog[content.kind], key, content, call, id))
            && StatusShows(if key in db.events then Some(db.events[key].status) else None, db'.events[key].status,
                           Waiting(db'.deliveries, key))
  {
    var upserted := CallIsProjected(db, catalog, users, key, call, content);
    var db' := Apply(db, catalog, users, key, call).value;
    hide Apply, Projected, AddsFor, KeepsRows, Waiting, StatusShows, HasOutstanding, Reconciled;
    forall id ensures AddsFor(db, db', users, catalog[content.kind], key, content, call, id) {
      RowsFor(db, upserted, db', users, catalog[content.kind], key, content, call, id);
    }
    CallKeeps(db, upserted, db', catalog, users, key, call);
    StatusOf(upserted.events[key], db'.events[key], db'.deliveries, key,
             if key in db.events then Some(db.events[key].status) else None);
  }

  lemma StatusOf(e: Event, e': Event, rows: map<(Key, Id), DeliveryStatus>, key: Key, before: Option<EventStatus>)
    requires e' == Reconciled(e, HasOutstanding(rows, key)) && e.status == before.GetOr(PENDING)
    ensures StatusShows(before, e'.status, Waiting(rows, key))
  {
    WaitingSame(rows, key);
    hide HasOutstanding, Waiting;
  }

  lemma CallKeeps(db: Outbox, upserted: Outbox, db': Outbox, catalog: Catalog, users: map<Id, User>, key: Key, call: Call)
    requires Apply(db, catalog, users, key, call) == Ok(db') && key in db'.events
    requires db'.events == upserted.events[key := db'.events[key]]
    requires forall k :: k in upserted.events && k != key ==> k in db.events
    ensures KeepsRows(db, db', key)
  {
    assert db' == After(db, catalog, users, key, call);
    hide Apply, After;
    CallOnlyAdds(db, catalog, users, key, call);
    KeptRows(db, db', key);
  }

  /** The call is one on the event that it is about, and does to it what its projections say. */
  lemma CallIsProjected(db: Outbox, catalog: Catalog, users: map<Id, User>, key: Key, call: Call, content: Content)
    returns (upserted: Outbox)
    requires Apply(db, catalog, users, key, call).Ok? && About(db, key, call, content)
    ensures upserted.notifications == db.notifications && upserted.deliveries == db.deliveries
    ensures key in upserted.events && upserted.events[key].content == content
    ensures upserted.events[key].status == if key in db.events then db.events[key].status else PENDING
    ensures forall k :: k in upserted.events && k != key ==> k in db.events
    ensures var db' := Apply(db, catalog, users, key, call).value;
            && content.kind in catalog && key in db'.events && db'.events[key].content == content
            && Projected(upserted, db', users, catalog[content.kind], key, content, call)
            && db'.events == upserted.events[key := db'.events[key]]
            && db'.events[key] == Reconciled(upserted.events[key], HasOutstanding(db'.deliveries, key))
  {
    upserted := if key in db.events then db else WithEvent(db, key, content);
    CallIsOn(db, catalog, users, key, call, content);
    assert Apply(db, catalog, users, key, call).value == After(upserted, catalog, users, key, call);
    CallProjects(upserted, catalog, users, key, content, call);
    hide Apply, After, HasOutstanding, AddNotes, AddDeliveries, Eligible;
  }

  lemma CallIsOn(db: Outbox, catalog: Catalog, users: map<Id, User>, key: Key, call: Call, content: Content)
    requires Apply(db, catalog, users, key, call).Ok? && About(db, key, call, content)
    ensures PolicyMatches(catalog, content) && Accepted(content, call)
    ensures After(db, catalog, users, key, call)
         == After(if key in db.events then db else WithEvent(db, key, content), catalog, users, key, call)
  {
    if key !in db.events {
      FirstCall(db, catalog, users, key, call);
    }
    hide After, Eligible, HasOutstanding, AddNotes, AddDeliveries;
  }

  ghost predicate Projected(upserted: Outbox, db': Outbox, users: map<Id, User>, policy: Policy, key: Key, content: Content,
                            call: Call) {
    && db'.notifications
       == AddNotes(upserted.notifications, key, Eligible(users, policy, IN_APP, call.recipients, call.actor), content)
    && db'.deliveries
       == AddDeliveries(upserted.deliveries, key, Eligible(users, policy, EMAIL, call.recipients, call.actor), users)
  }

  lemma RowsFor(db: Outbox, upserted: Outbox, db': Outbox, users: map<Id, User>, policy: Policy, key: Key, content: Content,
                call: Call, id: Id)
    requires Projected(upserted, db', users, policy, key, content, call)
    requires upserted.notifications == db.notifications && upserted.deliveries == db.deliveries
    ensures AddsFor(db, db', users, policy, key, content, call, id)
  {
    ReachesSame(users, policy, IN_APP, call, id);
    ReachesSame(users, policy, EMAIL, call, id);
    hide Reaches, Eligible;
  }

  lemma KeptRows(db: Outbox, db': Outbox, key: Key)
    requires OnlyAdds(db.notifications, db'.notifications, key) && OnlyAdds(db.deliveries, db'.deliveries, key)
    requires forall k :: k in db.events && k != key ==> k in db'.events && db'.events[k] == db.events[k]
    requires forall k :: k in db'.events && k != key ==> k in db.events
    ensures KeepsRows(db, db', key)
  {
  }
}
