/**
 * An in-memory stand-in for the relational store behind the three models:
 * the topic table (unique names, kept in name order), the message table
 * (in insertion order, with auto-assigned ids and receipt stamps), and the
 * connection table keyed by broker host and port. Each method but
 * `DeleteTopic` is one ORM call the session manager makes; `DeleteTopic`
 * models the cascade of a topic deletion made outside the service, for
 * instance from the admin.
 */
module Store {

  import opened Wrappers
  import opened Models
  import opened Retention

  type ConnectionKey = (string, int)

  function KeyOf(r: ConnectionRecord): ConnectionKey {
    (r.host, r.port)
  }

  class Database {
    var topics: seq<Topic>
    var messages: seq<Message>
    var connections: map<ConnectionKey, ConnectionRecord>
    /** The next primary key the message table hands out. */
    var nextId: nat
    /** The next `received_at` stamp; the store's clock only moves forward. */
    var clock: nat

    /**
     * Topic names are unique; ids and receipt stamps grow with insertion; every
     * message refers to a stored topic; each connection row sits under its own key.
     */
    ghost predicate Valid()
      reads this
    {
      && SortedByName(topics)
      && IdsIncreasing(messages)
      && ReceivedIncreasing(messages)
      && (forall m :: m in messages ==> m.id < nextId && m.receivedAt < clock)
      && (forall m :: m in messages ==> FindTopic(topics, m.topic).Some?)
      && (forall k :: k in connections ==> KeyOf(connections[k]) == k)
    }

    constructor ()
      ensures Valid()
      ensures topics == [] && messages == [] && connections == map[]
      ensures nextId == 1 && clock == 0
    {
      topics := [];
      messages := [];
      connections := map[];
      nextId := 1;
      clock := 0;
    }

    /** `MqttTopic.objects.get_or_create(name=name, defaults={'description': description})`. */
    method GetOrCreateTopic(name: string, description: string) returns (t: Topic, created: bool)
      requires Valid()
      modifies this`topics
      ensures Valid()
      ensures t.name == name
      ensures created <==> old(FindTopic(topics, name)).None?
      ensures created ==> t == NewTopic(name, description) && topics == InsertByName(old(topics), t)
      ensures !created ==> old(FindTopic(topics, name)) == Some(t) && topics == old(topics)
    {
      var found := FindTopic(topics, name);
      if found.Some? {
        t, created := found.value, false;
      } else {
        t, created := NewTopic(name, description), true;
        ghost var before := topics;
        topics := InsertByName(topics, t);
        forall m | m in messages ensures FindTopic(topics, m.topic).Some? {
          var u := FindTopic(before, m.topic).value;
          assert u in topics;
        }
      }
    }

    /** `MqttMessage.objects.create(...)`: the new row gets the next id and receipt stamp. */
    method CreateMessage(topic: string, payload: string, qos: int, retain: bool, timestamp: Time)
      returns (m: Message)
      requires Valid()
      requires FindTopic(topics, topic).Some?
      modifies this`messages, this`nextId, this`clock
      ensures Valid()
      ensures m == Message(old(nextId), topic, payload, qos, retain, timestamp, old(clock))
      ensures messages == old(messages) + [m]
      ensures nextId == old(nextId) + 1 && clock == old(clock) + 1
    {
      m := Message(nextId, topic, payload, qos, retain, timestamp, clock);
      messages := messages + [m];
      nextId := nextId + 1;
      clock := clock + 1;
    }

    /** `MqttMessage.objects.filter(id__in=ids).delete()`. */
    method DeleteMessages(ids: set<nat>)
      requires Valid()
      modifies this`messages
      ensures Valid()
      ensures messages == RemoveIds(old(messages), ids)
    {
      RemoveIdsKeepsOrder(messages, ids);
      RemoveIdsMembers(messages, ids);
      messages := RemoveIds(messages, ids);
    }

    /**
     * Deleting a topic deletes its messages with it (`on_delete=CASCADE`), so no
     * message is left pointing at a missing topic.
     */
    method DeleteTopic(name: string)
      requires Valid()
      modifies this`topics, this`messages
      ensures Valid()
      ensures topics == WithoutTopic(old(topics), name)
      ensures messages == RemoveIds(old(messages), IdsOf(Chronological(old(messages), name)))
      ensures forall m :: m in messages ==> m.topic != name
    {
      ghost var before := messages;
      var c := Chronological(messages, name);
      var ids := IdsOf(c);
      assert c[..|c|] == c;
      RemoveOldestOfTopic(messages, name, |c|);
      RemoveIdsKeepsOrder(messages, ids);
      RemoveIdsMembers(messages, ids);
      messages := RemoveIds(messages, ids);
      assert Chronological(messages, name) == [];
      ChronologicalMembers(messages, name);
      ghost var oldTopics := topics;
      topics := WithoutTopic(topics, name);
      forall m | m in messages ensures FindTopic(topics, m.topic).Some? {
        var u := FindTopic(oldTopics, m.topic).value;
        assert u in topics;
      }
    }

    /** `MqttConnection.objects.get_or_create(broker_host=host, broker_port=port, defaults={'status': status})`. */
    method GetOrCreateConnection(host: string, port: int, status: Status)
      returns (r: ConnectionRecord, created: bool)
      requires Valid()
      modifies this`connections
      ensures Valid()
      ensures KeyOf(r) == (host, port)
      ensures created <==> (host, port) !in old(connections)
      ensures created ==>
        r == NewConnectionRecord(host, port).(status := status) && connections == old(connections)[(host, port) := r]
      ensures !created ==> r == old(connections)[(host, port)] && connections == old(connections)
    {
      if (host, port) in connections {
        r, created := connections[(host, port)], false;
      } else {
        r, created := NewConnectionRecord(host, port).(status := status), true;
        connections := connections[(host, port) := r];
      }
    }

    /** `record.save()`: the row under the record's key now holds exactly its fields. */
    method SaveConnection(r: ConnectionRecord)
      requires Valid()
      modifies this`connections
      ensures Valid()
      ensures connections == old(connections)[KeyOf(r) := r]
    {
      connections := connections[KeyOf(r) := r];
    }
  }
}
