/** The outbox as it is written: one upsert per user and channel, then the status of the event. */
module OutboxTables {
  import opened Outcomes
  import opened CommunicationOutbox

  predicate Distinct(ids: seq<Id>) {
    forall i, j :: 0 <= i < j < |ids| ==> ids[i] != ids[j]
  }

  predicate Sendable(status: DeliveryStatus) {
    status.TO_SEND? || status.SEND_FAILED?
  }

  /** The user table returns the listed users that it has, in some order. */
  ghost predicate FoundListed(found: seq<Id>, users: map<Id, User>, policy: Policy, recipients: seq<Id>, actor: Option<Id>) {
    forall id :: id in found <==> id in users && Listed(policy, recipients, actor, id)
  }

  ghost function Chosen(found: seq<Id>, users: map<Id, User>, policy: Policy, channel: Channel): (r: set<Id>)
    ensures r <= users.Keys
  {
    set id | id in found && id in users && Projects(policy, channel, users[id])
  }

  /** The deliveries to dispatch: those of the projected users that are waiting to be sent. */
  ghost predicate ToSend(ids: seq<Id>, rows: map<(Key, Id), DeliveryStatus>, key: Key, mail: set<Id>) {
    && (forall id :: id in mail ==> (key, id) in rows)
    && forall id :: id in ids <==>
         id in mail && (key, id) in rows && (rows[(key, id)].TO_SEND? || rows[(key, id)].SEND_FAILED?)
  }

  lemma AddNothing(notes: map<(Key, Id), Content>, rows: map<(Key, Id), DeliveryStatus>, key: Key, content: Content, users: map<Id, User>)
    ensures AddNotes(notes, key, {}, content) == notes && AddDeliveries(rows, key, {}, users) == rows
  {
  }

  lemma AddedKeeps(rows: map<(Key, Id), DeliveryStatus>, key: Key, ids: set<Id>, users: map<Id, User>)
    requires ids <= users.Keys
    ensures var rows' := AddDeliveries(rows, key, ids, users);
            && (forall k :: k in rows ==> k in rows' && rows'[k] == rows[k]) && forall id :: id in ids ==> (key, id) in rows'
  {
  }

  lemma ChosenStep(found: seq<Id>, i: nat, users: map<Id, User>, policy: Policy, channel: Channel)
    requires i < |found| && found[i] in users
    ensures Chosen(found[..i + 1], users, policy, channel)
         == Chosen(found[..i], users, policy, channel) + (if Projects(policy, channel, users[found[i]]) then {found[i]} else {})
  {
    assert found[..i + 1] == found[..i] + [found[i]];
  }

  lemma ChosenAll(found: seq<Id>, users: map<Id, User>, policy: Policy, channel: Channel, recipients: seq<Id>, actor: Option<Id>)
    requires FoundListed(found, users, policy, recipients, actor)
    ensures Chosen(found, users, policy, channel) == Eligible(users, policy, channel, recipients, actor)
  {
  }

  lemma ToSendStep(ids: seq<Id>, before: map<(Key, Id), DeliveryStatus>, rows: map<(Key, Id), DeliveryStatus>, key: Key,
                   mail: set<Id>, more: set<Id>, id: Id, sendable: bool)
    requires ToSend(ids, before, key, mail) && (forall k :: k in before ==> k in rows && rows[k] == before[k])
    requires (more == {id} || more == {}) && (more == {id} ==> (key, id) in rows)
    requires sendable <==> more == {id} && Sendable(rows[(key, id)])
    ensures ToSend(if sendable then ids + [id] else ids, rows, key, mail + more)
  {
  }

  class Tables {
    var events: map<Key, Event>
    var notifications: map<(Key, Id), Content>
    var deliveries: map<(Key, Id), DeliveryStatus>

    function Rows(): Outbox
      reads this
    {
      Outbox(events, notifications, deliveries)
    }

    constructor ()
      ensures Rows() == Outbox(map[], map[], map[])
    {
      events, notifications, deliveries := map[], map[], map[];
    }

    method ReconcileEventStatus(key: Key)
      requires key in events
      modifies this`events
      ensures events == old(events)[key := Reconciled(old(events)[key], HasOutstanding(deliveries, key))]
    {
      if !HasOutstanding(deliveries, key) {
        if !events[key].status.PROCESSED? {
          events := events[key := events[key].(status := EventStatus.PROCESSED)];
        }
        return;
      }
      if events[key].status.PROCESSED? {
        events := events[key := events[key].(status := EventStatus.PENDING)];
      }
    }

    method UpsertNotification(key: Key, id: Id, content: Content)
      modifies this`notifications
      ensures notifications == AddNotes(old(notifications), key, {id}, content)
    {
      if (key, id) !in notifications {
        notifications := notifications[(key, id) := content];
      }
    }

    method UpsertDelivery(key: Key, id: Id, user: User, ghost users: map<Id, User>) returns (status: DeliveryStatus)
      requires id in users && users[id] == user
      modifies this`deliveries
      ensures deliveries == AddDeliveries(old(deliveries), key, {id}, users)
      ensures (key, id) in deliveries && status == deliveries[(key, id)]
    {
      if (key, id) !in deliveries {
        deliveries := deliveries[(key, id) := NewDelivery(user)];
      }
      status := deliveries[(key, id)];
    }

    /** Upserts the rows of one user, channel by channel. */
    method ProjectUser(key: Key, content: Content, policy: Policy, id: Id, user: User, ghost users: map<Id, User>)
      returns (sendable: bool)
      requires id in users && users[id] == user
      modifies this`notifications, this`deliveries
      ensures notifications == AddNotes(old(notifications), key, if Projects(policy, IN_APP, user) then {id} else {}, content)
      ensures deliveries == AddDeliveries(old(deliveries), key, if Projects(policy, EMAIL, user) then {id} else {}, users)
      ensures sendable <==> Projects(policy, EMAIL, user) && (key, id) in deliveries && Sendable(deliveries[(key, id)])
    {
      hide AddNotes, AddDeliveries, ShouldDeliver;
      sendable := false;
      AddNothing(notifications, deliveries, key, content, users);
      if user.banned {
        return;
      }
      ghost var inApp, mail: set<Id> := {}, {};
      var c := 0;
      while c < |policy.defaultChannels|
        invariant 0 <= c <= |policy.defaultChannels|
        invariant inApp == if IN_APP in policy.defaultChannels[..c] && ShouldDeliver(policy, IN_APP, user) then {id} else {}
        invariant mail == if EMAIL in policy.defaultChannels[..c] && ShouldDeliver(policy, EMAIL, user) then {id} else {}
        invariant notifications == AddNotes(old(notifications), key, inApp, content)
        invariant deliveries == AddDeliveries(old(deliveries), key, mail, users)
        invariant sendable <==> mail != {} && (key, id) in deliveries && Sendable(deliveries[(key, id)])
      {
        var channel := policy.defaultChannels[c];
        if ShouldDeliver(policy, channel, user) {
          if channel.IN_APP? {
            AddNotesTwice(old(notifications), key, inApp, {id}, content);
            inApp := inApp + {id};
            UpsertNotification(key, id, content);
          } else {
            AddDeliveriesTwice(old(deliveries), key, mail, {id}, users);
            mail := mail + {id};
            var status := UpsertDelivery(key, id, user, users);
            sendable := Sendable(status);
          }
        }
        c := c + 1;
      }
      assert policy.defaultChannels[..c] == policy.defaultChannels;
    }

    /** The loop over the users that were found. */
    method ProjectUsers(key: Key, content: Content, policy: Policy, users: map<Id, User>, found: seq<Id>)
      returns (deliveryIds: seq<Id>)
      requires Distinct(found) && forall id :: id in found ==> id in users
      modifies this`notifications, this`deliveries
      ensures notifications == AddNotes(old(notifications), key, Chosen(found, users, policy, IN_APP), content)
      ensures deliveries == AddDeliveries(old(deliveries), key, Chosen(found, users, policy, EMAIL), users)
      ensures Distinct(deliveryIds) && ToSend(deliveryIds, deliveries, key, Chosen(found, users, policy, EMAIL))
    {
      hide AddNotes, AddDeliveries, Projects;
      deliveryIds := [];
      AddNothing(notifications, deliveries, key, content, users);
      assert Chosen(found[..0], users, policy, IN_APP) == {} == Chosen(found[..0], users, policy, EMAIL);
      var i := 0;
      while i < |found|
        invariant 0 <= i <= |found| && forall j :: i <= j < |found| ==> found[j] !in deliveryIds
        invariant notifications == AddNotes(old(notifications), key, Chosen(found[..i], users, policy, IN_APP), content)
        invariant deliveries == AddDeliveries(old(deliveries), key, Chosen(found[..i], users, policy, EMAIL), users)
        invariant Distinct(deliveryIds) && ToSend(deliveryIds, deliveries, key, Chosen(found[..i], users, policy, EMAIL))
      {
        var id := found[i];
        ghost var inApp := if Projects(policy, IN_APP, users[id]) then {id} else {};
        ghost var mail := if Projects(policy, EMAIL, users[id]) then {id} else {};
        ghost var before := deliveries;
        ChosenStep(found, i, users, policy, IN_APP);
        ChosenStep(found, i, users, policy, EMAIL);
        AddNotesTwice(old(notifications), key, Chosen(found[..i], users, policy, IN_APP), inApp, content);
        AddDeliveriesTwice(old(deliveries), key, Chosen(found[..i], users, policy, EMAIL), mail, users);
        var sendable := ProjectUser(key, content, policy, id, users[id], users);
        AddedKeeps(before, key, mail, users);
        ToSendStep(deliveryIds, before, deliveries, key, Chosen(found[..i], users, policy, EMAIL), mail, id, sendable);
        if sendable {
          deliveryIds := deliveryIds + [id];
        }
        i := i + 1;
      }
      assert found[..i] == found;
    }

    /**
     Rebuilds the missing projections of an event. `found` is the order in which the user table
     returns the listed users; whatever it is, the rows are the same.
     */
    method RepairRows(catalog: Catalog, users: map<Id, User>, key: Key, content: Content, recipients: seq<Id>,
                      actor: Option<Id>, found: seq<Id>)
      returns (r: Result<seq<Id>, Fault>)
      requires content.kind in catalog ==> Distinct(found) && FoundListed(found, users, catalog[content.kind], recipients, actor)
      modifies this
      ensures var spec := RepairProjections(old(Rows()), catalog, users, key, content, recipients, actor);
              if spec.Ok? then r.Ok? && Rows() == spec.value else r == Err(spec.error) && Rows() == old(Rows())
      ensures r.Ok? ==>
                content.kind in catalog && Distinct(r.value)
                && ToSend(r.value, deliveries, key, Eligible(users, catalog[content.kind], EMAIL, recipients, actor))
    {
      hide AddNotes, AddDeliveries, HasOutstanding, Projects, ToSend, Chosen, Eligible, Reconciled;
      if !PolicyMatches(catalog, content) {
        return Err(DEDUPLICATION_CONFLICT);
      }
      if key !in events {
        return Err(EVENT_MISSING);
      }
      var policy := catalog[content.kind];
      ChosenAll(found, users, policy, IN_APP, recipients, actor);
      ChosenAll(found, users, policy, EMAIL, recipients, actor);
      var deliveryIds := ProjectUsers(key, content, policy, users, found);
      ReconcileEventStatus(key);
      return Ok(deliveryIds);
    }

    /** Records an event under its key, or recognises the one that is there, and projects its rows. */
    method RecordEvent(catalog: Catalog, users: map<Id, User>, key: Key, content: Content, recipients: seq<Id>,
                       actor: Option<Id>, found: seq<Id>)
      returns (r: Result<seq<Id>, Fault>)
      requires content.kind in catalog ==> Distinct(found) && FoundListed(found, users, catalog[content.kind], recipients, actor)
      modifies this
      ensures Rows() == After(old(Rows()), catalog, users, key, Record(content, recipients, actor))
      ensures r.Err? <==> Apply(old(Rows()), catalog, users, key, Record(content, recipients, actor)).Err?
    {
      hide RepairProjections;
      var before := events;
      if key !in events {
        events := events[key := Event(content, PENDING)];
      }
      if events[key].content != content {
        events := before;
        return Err(DEDUPLICATION_CONFLICT);
      }
      r := RepairRows(catalog, users, key, content, recipients, actor, found);
      if r.Err? {
        events := before;
      }
    }
  }
}
