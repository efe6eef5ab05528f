/**
 * The MQTT session manager (`MqttClientService`): one transport client, the
 * `is_connected` flag, the current connection record and the list of
 * message callbacks. Public operations (setup, connect, disconnect,
 * subscribe, publish, callback registration) and the transport's events
 * (connect acknowledgement, disconnect, inbound message) are methods run one
 * at a time. The transport is represented by the trace of calls made to
 * it, and its behaviour (whether a call raises, the return code of a
 * publish) by parameters.
 */
module MqttClient {

  import opened Wrappers
  import opened Text
  import opened Models
  import opened Retention
  import opened Store

  /** The settings the service reads, with the defaults it falls back on. */
  datatype Config = Config(
    host: string, port: int, keepalive: int,
    username: Option<string>, password: Option<string>,
    maxStoredMessages: nat)

  const DEFAULT_CONFIG := Config("localhost", 1883, 60, None, None, 1000)

  /** CONNACK return code 0, "Connection Accepted" (section 3.2.2.3 of MQTT Version 3.1.1). */
  const CONNECTION_ACCEPTED: nat := 0

  /** The transport's return code for a publish it accepted (`MQTT_ERR_SUCCESS`). */
  const MQTT_ERR_SUCCESS: int := 0

  /** Python truthiness of an optional string setting. */
  predicate Truthy(s: Option<string>) {
    s.Some? && s.value != ""
  }

  /** The credentials `setup_client` installs: only when both username and password are truthy. */
  function Credentials(c: Config): (r: Option<(string, string)>)
    ensures r.Some? <==> Truthy(c.username) && Truthy(c.password)
    ensures r.Some? ==> r.value.0 == c.username.value && r.value.1 == c.password.value
  {
    if Truthy(c.username) && Truthy(c.password) then Some((c.username.value, c.password.value)) else None
  }

  /** A transport client: which one it is in creation order, and the credentials it was given. */
  datatype ClientHandle = ClientHandle(serial: nat, credentials: Option<(string, string)>)

  /** One call made to the transport client. */
  datatype TransportCall =
    | ConnectCall(host: string, port: int, keepalive: int)
    | LoopStart
    | LoopStop
    | DisconnectCall
    | Subscribe(topic: string, qos: int)
    | Publish(topic: string, payload: string, qos: int, retain: bool)

  /** Where, if anywhere, `connect` raises: each stage raises only if it is reached. */
  datatype ConnectFault =
    | NoFault
    | SetupRaises(error: string)      // creating the transport client
    | LookupRaises(error: string)     // fetching or creating the connection record
    | ConnectRaises(error: string)    // the transport's connect
    | LoopStartRaises(error: string)  // starting the network loop

  /** The fault is reached: client creation is only attempted when there is no client. */
  predicate FaultStrikes(fault: ConnectFault, hadClient: bool) {
    match fault
    case NoFault => false
    case SetupRaises(_) => !hadClient
    case _ => true
  }

  /** What the transport's publish does: return a code, or raise. */
  datatype PublishOutcome = Returned(rc: int) | Raised(error: string)

  /** A registered message callback, identified by the value `add_message_callback` was given. */
  type CallbackId = nat

  /** One invocation `callback(topic, message)`; `raised` records that it raised and was caught. */
  datatype Invocation = Invocation(callback: CallbackId, topic: Topic, message: Message, raised: bool)

  const AUTO_DESCRIPTION_PREFIX := "Auto-created topic for "
  const CONNECTION_FAILED_PREFIX := "Connection failed with code "

  /** The description `_on_message` gives a topic it creates: the fixed prefix, then the topic name. */
  function AutoDescription(name: string): (d: string)
    ensures |d| == |AUTO_DESCRIPTION_PREFIX| + |name|
    ensures d[..|AUTO_DESCRIPTION_PREFIX|] == AUTO_DESCRIPTION_PREFIX && d[|AUTO_DESCRIPTION_PREFIX|..] == name
  {
    AUTO_DESCRIPTION_PREFIX + name
  }

  /** The error text of a refused connection: the fixed prefix, then the code in decimal, which reads back as the code. */
  function ConnectionFailedText(rc: nat): (e: string)
    ensures |e| > |CONNECTION_FAILED_PREFIX| && e[..|CONNECTION_FAILED_PREFIX|] == CONNECTION_FAILED_PREFIX
    ensures AllDigits(e[|CONNECTION_FAILED_PREFIX|..]) && ParseNat(e[|CONNECTION_FAILED_PREFIX|..]) == rc
  {
    var digits := NatToString(rc);
    ParseNatToString(rc);
    assert (CONNECTION_FAILED_PREFIX + digits)[|CONNECTION_FAILED_PREFIX|..] == digits;
    CONNECTION_FAILED_PREFIX + digits
  }

  /** The error text of a refused connection identifies the return code. */
  lemma {:induction false} ConnectionFailedTextInjective(a: nat, b: nat)
    requires ConnectionFailedText(a) == ConnectionFailedText(b)
    ensures a == b
  {
    var n := |CONNECTION_FAILED_PREFIX|;
    assert NatToString(a) == ConnectionFailedText(a)[n..];
    assert NatToString(b) == ConnectionFailedText(b)[n..];
    NatToStringInjective(a, b);
  }

  // ------------------------------------------------ connection record updates

  function MarkDisconnected(rec: Option<ConnectionRecord>): Option<ConnectionRecord> {
    if rec.Some? then Some(rec.value.(status := Disconnected)) else None
  }

  function MarkError(rec: Option<ConnectionRecord>, error: string): Option<ConnectionRecord> {
    if rec.Some? then Some(rec.value.(status := Error, lastError := error)) else None
  }

  function MarkConnected(rec: Option<ConnectionRecord>, now: Time): Option<ConnectionRecord> {
    if rec.Some? then Some(rec.value.(status := Connected, lastConnected := Some(now), lastError := "")) else None
  }

  /** The record `connect` fetches, or creates, for the broker, moved to `connecting`. */
  function ConnectingRecord(conns: map<ConnectionKey, ConnectionRecord>, host: string, port: int): ConnectionRecord {
    (if (host, port) in conns then conns[(host, port)] else NewConnectionRecord(host, port)).(status := Connecting)
  }

  /** The connection table after saving the record, if there is one. */
  function Persist(conns: map<ConnectionKey, ConnectionRecord>, rec: Option<ConnectionRecord>)
    : map<ConnectionKey, ConnectionRecord>
  {
    if rec.Some? then conns[KeyOf(rec.value) := rec.value] else conns
  }

  /** The calls `disconnect` makes: the loop is stopped and the client disconnected only when connected. */
  function StopCalls(wasConnected: bool): seq<TransportCall> {
    if wasConnected then [LoopStop, DisconnectCall] else []
  }

  // ------------------------------------------------------------ subscriptions

  /** One subscribe per topic, with the topic's own QoS, in the given order. */
  function SubscribeCalls(ts: seq<Topic>): seq<TransportCall> {
    seq(|ts|, i requires 0 <= i < |ts| => Subscribe(ts[i].name, ts[i].qos))
  }

  lemma {:induction false} DistinctOccursOnce<T>(s: seq<T>, i: nat)
    requires i < |s|
    requires forall p, q :: 0 <= p < q < |s| ==> s[p] != s[q]
    ensures multiset(s)[s[i]] == 1
  {
    var init := s[..|s| - 1];
    assert s == init + [s[|s| - 1]];
    if i == |s| - 1 {
      assert s[i] !in init;
    } else {
      DistinctOccursOnce(init, i);
    }
  }

  /**
   * Subscribing to the active topics issues exactly one subscribe for each active
   * topic, with that topic's QoS, none for anything else, and in name order.
   */
  lemma {:induction false} SubscribeOncePerActiveTopic(ts: seq<Topic>)
    requires SortedByName(ts)
    ensures var calls := SubscribeCalls(ActiveTopics(ts));
      forall t :: t in ts && t.isActive ==> multiset(calls)[Subscribe(t.name, t.qos)] == 1
    ensures var calls := SubscribeCalls(ActiveTopics(ts));
      forall c :: c in calls ==>
        c.Subscribe? && FindTopic(ts, c.topic).Some? &&
        FindTopic(ts, c.topic).value.isActive && FindTopic(ts, c.topic).value.qos == c.qos
    ensures var calls := SubscribeCalls(ActiveTopics(ts));
      forall i, j :: 0 <= i < j < |calls| ==> NameBefore(calls[i].topic, calls[j].topic)
  {
    var active := ActiveTopics(ts);
    var calls := SubscribeCalls(active);
    forall p, q | 0 <= p < q < |calls| ensures calls[p] != calls[q] {
      NameBeforeIrreflexive(active[p].name);
    }
    forall t | t in ts && t.isActive ensures multiset(calls)[Subscribe(t.name, t.qos)] == 1 {
      var i :| 0 <= i < |active| && active[i] == t;
      DistinctOccursOnce(calls, i);
    }
    forall c | c in calls
      ensures c.Subscribe? && FindTopic(ts, c.topic).Some? &&
        FindTopic(ts, c.topic).value.isActive && FindTopic(ts, c.topic).value.qos == c.qos
    {
      var i :| 0 <= i < |calls| && calls[i] == c;
      FindTopicInSorted(ts, active[i]);
    }
  }

  /**
   * A topic that `_on_message` creates on the fly is active at the default QoS, so
   * the next subscribe step issues exactly one subscribe for it.
   */
  lemma {:induction false} AutoCreatedTopicSubscribed(ts: seq<Topic>, name: string)
    requires SortedByName(ts)
    requires FindTopic(ts, name).None?
    ensures var t := NewTopic(name, AutoDescription(name));
      multiset(SubscribeCalls(ActiveTopics(InsertByName(ts, t))))[Subscribe(name, DEFAULT_TOPIC_QOS)] == 1
  {
    var t := NewTopic(name, AutoDescription(name));
    SubscribeOncePerActiveTopic(InsertByName(ts, t));
  }

  // ---------------------------------------------------------------- callbacks

  /** Python's `list.remove`: drops the first occurrence, if any. */
  function RemoveFirst<T(==)>(xs: seq<T>, x: T): (r: seq<T>)
    ensures x !in xs ==> r == xs
    ensures x in xs ==> |r| == |xs| - 1
  {
    if xs == [] then []
    else if xs[0] == x then xs[1..]
    else [xs[0]] + RemoveFirst(xs[1..], x)
  }

  /** Exactly one occurrence goes, when there is one. */
  lemma {:induction false} RemoveFirstMultiset<T>(xs: seq<T>, x: T)
    requires x in xs
    ensures multiset(RemoveFirst(xs, x)) == multiset(xs) - multiset{x}
  {
    assert xs == [xs[0]] + xs[1..];
    if xs[0] != x {
      RemoveFirstMultiset(xs[1..], x);
    }
  }

  /** It is the first occurrence that goes; the others, and the order, stay. */
  lemma {:induction false} RemoveFirstOccurrence<T>(a: seq<T>, x: T, b: seq<T>)
    requires x !in a
    ensures RemoveFirst(a + [x] + b, x) == a + b
  {
    if a == [] {
      assert a + [x] + b == [x] + b;
    } else {
      var xs := a + [x] + b;
      assert xs[0] == a[0] != x;
      assert xs[1..] == a[1..] + [x] + b;
      RemoveFirstOccurrence(a[1..], x, b);
      assert RemoveFirst(xs, x) == [a[0]] + (a[1..] + b);
      assert a == [a[0]] + a[1..];
    }
  }

  /** Registering a new callback and removing it again restores the list. */
  lemma {:induction false} AddThenRemove<T>(xs: seq<T>, x: T)
    requires x !in xs
    ensures RemoveFirst(xs + [x], x) == xs
  {
    RemoveFirstOccurrence(xs, x, []);
    assert xs + [x] + [] == xs + [x];
  }

  // ------------------------------------------------------------------ service

  class MqttClientService {
    const config: Config
    const db: Database
    /** `self.client`: the current transport client, if one was created. */
    var client: Option<ClientHandle>
    /** How many transport clients `setup_client` has created so far. */
    var clientsCreated: nat
    var isConnected: bool
    /** `self.connection_record`: the in-memory copy of the broker's row. */
    var connectionRecord: Option<ConnectionRecord>
    /** `self._message_callbacks`, in registration order. */
    var callbacks: seq<CallbackId>
    /** Every call made to a transport client so far, including calls that raised. */
    var transport: seq<TransportCall>

    /** Being connected needs a client, and the in-memory record is what the store holds. */
    ghost predicate Valid()
      reads this, db
    {
      && db.Valid()
      && (isConnected ==> client.Some?)
      && (client.Some? ==> client.value.serial < clientsCreated)
      && (connectionRecord.Some? ==>
            var k := KeyOf(connectionRecord.value);
            k in db.connections && db.connections[k] == connectionRecord.value)
    }

    constructor (config: Config, db: Database)
      requires db.Valid()
      ensures Valid()
      ensures this.config == config && this.db == db
      ensures client == None && clientsCreated == 0 && !isConnected && connectionRecord == None
      ensures callbacks == [] && transport == []
    {
      this.config := config;
      this.db := db;
      client := None;
      clientsCreated := 0;
      isConnected := false;
      connectionRecord := None;
      callbacks := [];
      transport := [];
    }

    /** `setup_client`: tears down an existing client with `disconnect`, then creates a fresh one. */
    method SetupClient()
      requires Valid()
      modifies this`client, this`clientsCreated, this`isConnected, this`connectionRecord, this`transport
      modifies db`connections
      ensures Valid()
      ensures client == Some(ClientHandle(old(clientsCreated), Credentials(config)))
      ensures clientsCreated == old(clientsCreated) + 1
      ensures !isConnected
      ensures old(client).Some? ==>
        transport == old(transport) + StopCalls(old(isConnected)) &&
        connectionRecord == MarkDisconnected(old(connectionRecord))
      ensures old(client).None? ==> transport == old(transport) && connectionRecord == old(connectionRecord)
      ensures db.connections == Persist(old(db.connections), connectionRecord)
    {
      if client.Some? {
        Disconnect();
      }
      client := Some(ClientHandle(clientsCreated, Credentials(config)));
      clientsCreated := clientsCreated + 1;
    }

    /**
     * `connect`: moves the broker's record to `connecting`, then asks the transport to
     * connect and to start its loop. True means the attempt was issued, not that the
     * broker accepted it; `is_connected` is left to the connect event.
     */
    method Connect(fault: ConnectFault) returns (ok: bool)
      requires Valid()
      modifies this`client, this`clientsCreated, this`isConnected, this`connectionRecord, this`transport
      modifies db`connections
      ensures Valid()
      ensures ok == !FaultStrikes(fault, old(client).Some?)
      ensures isConnected == old(isConnected) && callbacks == old(callbacks)
      ensures var created := old(client).None? && !fault.SetupRaises?;
        && client == (if created then Some(ClientHandle(old(clientsCreated), Credentials(config))) else old(client))
        && clientsCreated == old(clientsCreated) + (if created then 1 else 0)
      ensures var connecting := ConnectingRecord(old(db.connections), config.host, config.port);
        var early := FaultStrikes(fault, old(client).Some?) && (fault.SetupRaises? || fault.LookupRaises?);
        connectionRecord ==
          if ok then Some(connecting)
          else if early then MarkError(old(connectionRecord), fault.error)
          else MarkError(Some(connecting), fault.error)
      ensures var issue := [ConnectCall(config.host, config.port, config.keepalive)];
        transport == old(transport) +
          if ok then issue + [LoopStart]
          else if fault.SetupRaises? || fault.LookupRaises? then []
          else if fault.ConnectRaises? then issue
          else issue + [LoopStart]
      ensures db.connections == Persist(old(db.connections), connectionRecord)
    {
      if client.None? {
        if fault.SetupRaises? {
          RecordConnectError(fault.error);
          return false;
        }
        SetupClient();
      }
      ok := StartSession(fault);
    }

    /**
     * The part of `connect` after a client exists: record lookup, the transport's
     * connect, then its network loop; the first of these that raises ends the attempt.
     */
    method StartSession(fault: ConnectFault) returns (ok: bool)
      requires Valid()
      requires client.Some?
      modifies this`connectionRecord, this`transport, db`connections
      ensures Valid()
      ensures ok == !(fault.LookupRaises? || fault.ConnectRaises? || fault.LoopStartRaises?)
      ensures var connecting := ConnectingRecord(old(db.connections), config.host, config.port);
        connectionRecord ==
          if ok then Some(connecting)
          else if fault.LookupRaises? then MarkError(old(connectionRecord), fault.error)
          else MarkError(Some(connecting), fault.error)
      ensures var issue := [ConnectCall(config.host, config.port, config.keepalive)];
        transport == old(transport) +
          if ok then issue + [LoopStart]
          else if fault.LookupRaises? then []
          else if fault.ConnectRaises? then issue
          else issue + [LoopStart]
      ensures db.connections == Persist(old(db.connections), connectionRecord)
    {
      if fault.LookupRaises? {
        RecordConnectError(fault.error);
        return false;
      }
      OpenConnectionRecord();
      transport := transport + [ConnectCall(config.host, config.port, config.keepalive)];
      if fault.ConnectRaises? {
        RecordConnectError(fault.error);
        return false;
      }
      transport := transport + [LoopStart];
      if fault.LoopStartRaises? {
        RecordConnectError(fault.error);
        return false;
      }
      ok := true;
    }

    /** The record step of `connect`: the broker's row is fetched or created, then marked `connecting`. */
    method OpenConnectionRecord()
      requires Valid()
      modifies this`connectionRecord, db`connections
      ensures Valid()
      ensures connectionRecord == Some(ConnectingRecord(old(db.connections), config.host, config.port))
      ensures db.connections == Persist(old(db.connections), connectionRecord)
    {
      var rec, created := db.GetOrCreateConnection(config.host, config.port, Connecting);
      if !created {
        rec := rec.(status := Connecting);
        db.SaveConnection(rec);
      }
      connectionRecord := Some(rec);
    }

    /** The `except` branch of `connect`: the record, if any, is marked `error` with the text. */
    method RecordConnectError(error: string)
      requires Valid()
      modifies this`connectionRecord, db`connections
      ensures Valid()
      ensures connectionRecord == MarkError(old(connectionRecord), error)
      ensures db.connections == Persist(old(db.connections), connectionRecord)
    {
      if connectionRecord.Some? {
        var r := connectionRecord.value.(status := Error, lastError := error);
        connectionRecord := Some(r);
        db.SaveConnection(r);
      }
    }

    /** `disconnect`: always ends disconnected; the client itself is kept. */
    method Disconnect()
      requires Valid()
      modifies this`isConnected, this`connectionRecord, this`transport, db`connections
      ensures Valid()
      ensures !isConnected
      ensures transport == old(transport) + StopCalls(old(isConnected))
      ensures connectionRecord == MarkDisconnected(old(connectionRecord))
      ensures db.connections == Persist(old(db.connections), connectionRecord)
    {
      if client.Some? && isConnected {
        transport := transport + [LoopStop, DisconnectCall];
      }
      if connectionRecord.Some? {
        var r := connectionRecord.value.(status := Disconnected);
        connectionRecord := Some(r);
        db.SaveConnection(r);
      }
      isConnected := false;
    }

    /** `subscribe_to_topics`: one subscribe per active topic, in name order, and none unless connected. */
    method SubscribeToTopics()
      requires Valid()
      modifies this`transport
      ensures Valid()
      ensures transport == old(transport) + if isConnected then SubscribeCalls(ActiveTopics(db.topics)) else []
    {
      if !isConnected {
        return;
      }
      var active := ActiveTopics(db.topics);
      var i := 0;
      while i < |active|
        invariant 0 <= i <= |active|
        invariant transport == old(transport) + SubscribeCalls(active[..i])
      {
        transport := transport + [Subscribe(active[i].name, active[i].qos)];
        i := i + 1;
      }
      assert active[..i] == active;
    }

    /**
     * `publish_message`: without a connection nothing is sent and the answer is false;
     * otherwise the answer is whether the transport returned `MQTT_ERR_SUCCESS`.
     * The store is not touched.
     */
    method PublishMessage(topicName: string, payload: string, qos: int, retain: bool, outcome: PublishOutcome)
      returns (ok: bool)
      requires Valid()
      modifies this`transport
      ensures Valid()
      ensures ok <==> isConnected && outcome == Returned(MQTT_ERR_SUCCESS)
      ensures transport == old(transport) + if isConnected then [Publish(topicName, payload, qos, retain)] else []
      ensures db.messages == old(db.messages) && db.topics == old(db.topics)
    {
      if !isConnected {
        return false;
      }
      transport := transport + [Publish(topicName, payload, qos, retain)];
      match outcome
      case Returned(rc) =>
        ok := rc == MQTT_ERR_SUCCESS;
      case Raised(_) =>
        ok := false;
    }

    /** `add_message_callback`: appends, duplicates included. */
    method AddMessageCallback(callback: CallbackId)
      requires Valid()
      modifies this`callbacks
      ensures Valid()
      ensures callbacks == old(callbacks) + [callback]
    {
      callbacks := callbacks + [callback];
    }

    /** `remove_message_callback`: removes the first occurrence if there is one. */
    method RemoveMessageCallback(callback: CallbackId)
      requires Valid()
      modifies this`callbacks
      ensures Valid()
      ensures callbacks == RemoveFirst(old(callbacks), callback)
      ensures callback !in old(callbacks) ==> callbacks == old(callbacks)
    {
      if callback in callbacks {
        callbacks := RemoveFirst(callbacks, callback);
      }
    }

    /** `_on_connect`: the transport reports the broker's CONNACK return code. */
    method OnConnect(rc: nat, now: Time)
      requires Valid()
      requires client.Some?
      modifies this`isConnected, this`connectionRecord, this`transport, db`connections
      ensures Valid()
      ensures rc == CONNECTION_ACCEPTED ==>
        && isConnected
        && connectionRecord == MarkConnected(old(connectionRecord), now)
        && transport == old(transport) + SubscribeCalls(ActiveTopics(db.topics))
      ensures rc != CONNECTION_ACCEPTED ==>
        && isConnected == old(isConnected)
        && connectionRecord == MarkError(old(connectionRecord), ConnectionFailedText(rc))
        && transport == old(transport)
      ensures db.connections == Persist(old(db.connections), connectionRecord)
    {
      if rc == CONNECTION_ACCEPTED {
        isConnected := true;
        if connectionRecord.Some? {
          var r := connectionRecord.value.(status := Connected, lastConnected := Some(now), lastError := "");
          connectionRecord := Some(r);
          db.SaveConnection(r);
        }
        SubscribeToTopics();
      } else {
        if connectionRecord.Some? {
          var r := connectionRecord.value.(status := Error, lastError := ConnectionFailedText(rc));
          connectionRecord := Some(r);
          db.SaveConnection(r);
        }
      }
    }

    /** `_on_disconnect`: whatever the return code, the session is disconnected. */
    method OnDisconnect(rc: int)
      requires Valid()
      modifies this`isConnected, this`connectionRecord, db`connections
      ensures Valid()
      ensures !isConnected
      ensures connectionRecord == MarkDisconnected(old(connectionRecord))
      ensures db.connections == Persist(old(db.connections), connectionRecord)
    {
      isConnected := false;
      if connectionRecord.Some? {
        var r := connectionRecord.value.(status := Disconnected);
        connectionRecord := Some(r);
        db.SaveConnection(r);
      }
    }

    /**
     * The callback loop of `_on_message`: each registration is called once, so a
     * callback added twice runs twice, in registration order, and one that raises does not stop the rest.
     */
    method Dispatch(topic: Topic, message: Message, raising: set<CallbackId>) returns (invoked: seq<Invocation>)
      ensures |invoked| == |callbacks|
      ensures forall i :: 0 <= i < |callbacks| ==>
        invoked[i] == Invocation(callbacks[i], topic, message, callbacks[i] in raising)
    {
      invoked := [];
      var i := 0;
      while i < |callbacks|
        invariant 0 <= i <= |callbacks|
        invariant |invoked| == i
        invariant forall k :: 0 <= k < i ==>
          invoked[k] == Invocation(callbacks[k], topic, message, callbacks[k] in raising)
      {
        var callback := callbacks[i];
        var raised := callback in raising;
        invoked := invoked + [Invocation(callback, topic, message, raised)];
        i := i + 1;
      }
    }

    /** The retention step of `_on_message`: everything past the newest `maxStoredMessages` of the topic is deleted. */
    method TrimTopic(topicName: string)
      requires Valid()
      modifies db`messages
      ensures Valid()
      ensures db.messages == Trim(old(db.messages), topicName, config.maxStoredMessages)
    {
      var max := config.maxStoredMessages;
      if MessageCount(db.messages, topicName) > max {
        var excess := Excess(db.messages, topicName, max);
        db.DeleteMessages(IdsOf(excess));
      }
    }

    /**
     * `_on_message`: a payload that is not valid UTF-8 (`None` here) is dropped.
     * Otherwise the topic is fetched or auto-created, exactly one message is stored
     * under it, the topic is cut back to its newest `maxStoredMessages`, and the
     * callbacks are run.
     */
    method OnMessage(topicName: string, payload: Option<string>, qos: int, retain: bool, now: Time,
                     raising: set<CallbackId>)
      returns (invoked: seq<Invocation>)
      requires Valid()
      modifies db`topics, db`messages, db`nextId, db`clock
      ensures Valid()
      ensures payload.None? ==>
        && invoked == []
        && db.topics == old(db.topics) && db.messages == old(db.messages)
        && db.nextId == old(db.nextId) && db.clock == old(db.clock)
      ensures payload.Some? ==>
        var existing := old(FindTopic(db.topics, topicName));
        var topic := if existing.Some? then existing.value else NewTopic(topicName, AutoDescription(topicName));
        var m := Message(old(db.nextId), topicName, payload.value, qos, retain, now, old(db.clock));
        && db.topics == (if existing.Some? then old(db.topics) else InsertByName(old(db.topics), topic))
        && db.messages == Trim(old(db.messages) + [m], topicName, config.maxStoredMessages)
        && |invoked| == |callbacks|
        && forall i :: 0 <= i < |callbacks| ==> invoked[i] == Invocation(callbacks[i], topic, m, callbacks[i] in raising)
    {
      if payload.None? {
        return [];
      }
      var topic, created := db.GetOrCreateTopic(topicName, AutoDescription(topicName));
      var message := db.CreateMessage(topicName, payload.value, qos, retain, now);
      TrimTopic(topicName);
      invoked := Dispatch(topic, message, raising);
    }
  }

  /** Calling `disconnect` a second time changes nothing more. */
  method DisconnectTwice(s: MqttClientService)
    requires s.Valid()
    modifies s`isConnected, s`connectionRecord, s`transport, s.db`connections
    ensures s.Valid() && !s.isConnected
    ensures s.transport == old(s.transport) + StopCalls(old(s.isConnected))
    ensures s.connectionRecord == MarkDisconnected(old(s.connectionRecord))
    ensures s.db.connections == Persist(old(s.db.connections), s.connectionRecord)
  {
    s.Disconnect();
    s.Disconnect();
  }

  // ---------------------------------------------------------------- scenarios

  /** A fresh service with default settings connects and the broker accepts; there are no topics yet. */
  method ConnectThenAccept(now: Time) returns (connected: bool, record: Option<ConnectionRecord>, calls: seq<TransportCall>)
    ensures connected
    ensures record == Some(ConnectionRecord("localhost", 1883, Connected, Some(now), ""))
    ensures calls == [ConnectCall("localhost", 1883, 60), LoopStart]
  {
    var db := new Database();
    var s := new MqttClientService(DEFAULT_CONFIG, db);
    var ok := s.Connect(NoFault);
    s.OnConnect(CONNECTION_ACCEPTED, now);
    connected, record, calls := s.isConnected, s.connectionRecord, s.transport;
  }

  /** The broker refuses with code 5: the record says why, and the session stays disconnected. */
  method ConnectThenRefuse(now: Time) returns (connected: bool, record: Option<ConnectionRecord>)
    ensures !connected
    ensures record == Some(ConnectionRecord("localhost", 1883, Error, None, "Connection failed with code 5"))
  {
    var db := new Database();
    var s := new MqttClientService(DEFAULT_CONFIG, db);
    var ok := s.Connect(NoFault);
    s.OnConnect(5, now);
    assert DigitChar(5) == '5';
    assert NatToString(5) == "5";
    assert ConnectionFailedText(5) == "Connection failed with code 5";
    connected, record := s.isConnected, s.connectionRecord;
  }

  /** The transport's connect raises: `connect` answers false and the record keeps the error text. */
  method ConnectRaisesRecordsError() returns (ok: bool, record: Option<ConnectionRecord>, calls: seq<TransportCall>)
    ensures !ok
    ensures record == Some(ConnectionRecord("localhost", 1883, Error, None, "refused"))
    ensures calls == [ConnectCall("localhost", 1883, 60)]
  {
    var db := new Database();
    var s := new MqttClientService(DEFAULT_CONFIG, db);
    ok := s.Connect(ConnectRaises("refused"));
    record, calls := s.connectionRecord, s.transport;
  }

  /** Publishing before any connection sends nothing and answers false. */
  method PublishWhileDisconnected() returns (ok: bool, calls: seq<TransportCall>)
    ensures !ok && calls == []
  {
    var db := new Database();
    var s := new MqttClientService(DEFAULT_CONFIG, db);
    ok := s.PublishMessage("sensor/temperature", "22.5", 0, false, Returned(MQTT_ERR_SUCCESS));
    calls := s.transport;
  }

  /**
   * `disconnect` while the attempt is still pending does not stop the transport,
   * so a CONNACK arriving afterwards still makes the session connected.
   */
  method DisconnectWhileConnecting(now: Time) returns (connected: bool, record: Option<ConnectionRecord>, calls: seq<TransportCall>)
    ensures connected
    ensures record.Some? && record.value.status == Connected
    ensures calls == [ConnectCall("localhost", 1883, 60), LoopStart]
  {
    var db := new Database();
    var s := new MqttClientService(DEFAULT_CONFIG, db);
    var ok := s.Connect(NoFault);
    s.Disconnect();
    s.OnConnect(CONNECTION_ACCEPTED, now);
    connected, record, calls := s.isConnected, s.connectionRecord, s.transport;
  }

  /** A message on an unknown topic creates the topic, active at QoS 1, and stores the message under it. */
  method MessageOnUnknownTopic(now: Time) returns (stored: seq<Message>, topics: seq<Topic>)
    ensures stored == [Message(1, "sensor/temperature", "22.5", 1, false, now, 0)]
    ensures topics == [Topic("sensor/temperature", AutoDescription("sensor/temperature"), true, 1)]
  {
    var db := new Database();
    var s := new MqttClientService(DEFAULT_CONFIG, db);
    var invoked := s.OnMessage("sensor/temperature", Some("22.5"), 1, false, now, {});
    var m := Message(1, "sensor/temperature", "22.5", 1, false, now, 0);
    assert [] + [m] == [m];
    assert MessageCount([m], m.topic) <= 1;
    assert Trim([m], m.topic, DEFAULT_CONFIG.maxStoredMessages) == [m];
    stored, topics := db.messages, db.topics;
  }

  /** A payload that does not decode stores nothing and runs no callback. */
  method UndecodablePayloadDropped(now: Time) returns (stored: seq<Message>, invoked: seq<Invocation>)
    ensures stored == [] && invoked == []
  {
    var db := new Database();
    var s := new MqttClientService(DEFAULT_CONFIG, db);
    s.AddMessageCallback(7);
    invoked := s.OnMessage("sensor/temperature", None, 0, false, now, {});
    stored := db.messages;
  }

  /** Callbacks: a duplicate registration, a removal of the first copy, and a raising callback that the rest survive. */
  method CallbacksInOrder(now: Time) returns (registered: seq<CallbackId>, invoked: seq<CallbackId>, raised: seq<bool>)
    ensures registered == [2, 1]
    ensures invoked == [2, 1] && raised == [true, false]
  {
    var db := new Database();
    var s := new MqttClientService(DEFAULT_CONFIG, db);
    s.AddMessageCallback(1);
    s.AddMessageCallback(2);
    s.AddMessageCallback(1);
    s.RemoveMessageCallback(1);
    s.RemoveMessageCallback(3);
    var topic := NewTopic("a", AutoDescription("a"));
    var trace := s.Dispatch(topic, Message(1, "a", "x", 0, false, now, 0), {2});
    registered := s.callbacks;
    invoked := [trace[0].callback, trace[1].callback];
    raised := [trace[0].raised, trace[1].raised];
  }
}
