/**
 * The three persisted record types of the MQTT app (MqttTopic, MqttMessage,
 * MqttConnection), their field defaults and choices, and the read-only
 * queries defined on them: a message's payload preview, a topic's latest
 * message and message count, and the two orderings the store applies
 * (topics by name, messages newest first).
 */
module Models {

  import opened Wrappers
  import opened Text

  /** A point in time as produced by `timezone.now()`; only its order matters. */
  type Time = nat

  /** The quality-of-service levels a topic may be given (0, 1 or 2). */
  type QoS = q: int | 0 <= q <= 2

  const DEFAULT_TOPIC_QOS: QoS := 1

  // ---------------------------------------------------------------- topics

  datatype Topic = Topic(name: string, description: string, isActive: bool, qos: QoS)

  /** A topic as the store creates it when only name and description are given. */
  function NewTopic(name: string, description: string): (t: Topic)
    ensures t.name == name && t.description == description
    ensures t.isActive && t.qos == 1
  {
    Topic(name, description, true, DEFAULT_TOPIC_QOS)
  }

  /**
   * The store keeps topics in the model's default ordering, by name; since names
   * are unique the order is strict.
   */
  predicate SortedByName(ts: seq<Topic>) {
    forall i, j :: 0 <= i < j < |ts| ==> NameBefore(ts[i].name, ts[j].name)
  }

  /** The topic with the given name, looked up as `MqttTopic.objects.get(name=...)`. */
  function FindTopic(ts: seq<Topic>, name: string): (r: Option<Topic>)
    ensures r.Some? ==> r.value in ts && r.value.name == name
    ensures r.None? ==> forall t :: t in ts ==> t.name != name
  {
    if ts == [] then None
    else if ts[0].name == name then Some(ts[0])
    else FindTopic(ts[1..], name)
  }

  /** Names are unique in a sorted topic list, so a lookup finds the one topic of that name. */
  lemma {:induction false} FindTopicInSorted(ts: seq<Topic>, t: Topic)
    requires SortedByName(ts) && t in ts
    ensures FindTopic(ts, t.name) == Some(t)
  {
    if ts[0] != t {
      var j :| 0 <= j < |ts| && ts[j] == t;
      assert j > 0 && ts[1..][j - 1] == t;
      NameBeforeIrreflexive(t.name);
      FindTopicInSorted(ts[1..], t);
    }
  }

  /** Inserting a topic with a fresh name keeps the list ordered and adds exactly that topic. */
  function InsertByName(ts: seq<Topic>, t: Topic): (r: seq<Topic>)
    requires SortedByName(ts)
    requires forall u :: u in ts ==> u.name != t.name
    ensures SortedByName(r)
    ensures forall u :: u in r <==> u in ts || u == t
    ensures |r| == |ts| + 1
  {
    if ts == [] then [t]
    else if NameBefore(t.name, ts[0].name) then
      TopicBeforeAll(t, ts);
      [t] + ts
    else
      NameBeforeTotal(ts[0].name, t.name);
      var rest := InsertByName(ts[1..], t);
      assert forall u :: u in rest ==> NameBefore(ts[0].name, u.name) by {
        forall u | u in rest ensures NameBefore(ts[0].name, u.name) {
          if u != t {
            var j :| 0 <= j < |ts[1..]| && ts[1..][j] == u;
            assert ts[j + 1] == u;
          }
        }
      }
      SortedCons(ts[0], rest);
      [ts[0]] + rest
  }

  lemma {:induction false} TopicBeforeAll(t: Topic, ts: seq<Topic>)
    requires SortedByName(ts) && ts != [] && NameBefore(t.name, ts[0].name)
    ensures SortedByName([t] + ts)
  {
    forall u | u in ts ensures NameBefore(t.name, u.name) {
      if u != ts[0] {
        var j :| 0 <= j < |ts| && ts[j] == u;
        NameBeforeTransitive(t.name, ts[0].name, u.name);
      }
    }
    SortedCons(t, ts);
  }

  lemma {:induction false} SortedCons(t: Topic, ts: seq<Topic>)
    requires SortedByName(ts)
    requires forall u :: u in ts ==> NameBefore(t.name, u.name)
    ensures SortedByName([t] + ts)
  {
    var r := [t] + ts;
    forall i, j | 0 <= i < j < |r| ensures NameBefore(r[i].name, r[j].name) {
      if i == 0 {
        assert r[j] == ts[j - 1];
      } else {
        assert r[i] == ts[i - 1] && r[j] == ts[j - 1];
      }
    }
  }

  /** `MqttTopic.objects.filter(is_active=True)`, still in name order. */
  function ActiveTopics(ts: seq<Topic>): (r: seq<Topic>)
    ensures forall u :: u in r <==> u in ts && u.isActive
    ensures SortedByName(ts) ==> SortedByName(r)
  {
    if ts == [] then []
    else
      var rest := ActiveTopics(ts[1..]);
      if ts[0].isActive then
        if SortedByName(ts) then
          forall u | u in rest ensures NameBefore(ts[0].name, u.name) {
            var j :| 0 <= j < |ts[1..]| && ts[1..][j] == u;
            assert ts[j + 1] == u;
          }
          SortedCons(ts[0], rest);
          [ts[0]] + rest
        else [ts[0]] + rest
      else rest
  }

  /** The topics other than the one named, still in name order. */
  function WithoutTopic(ts: seq<Topic>, name: string): (r: seq<Topic>)
    ensures forall u :: u in r <==> u in ts && u.name != name
    ensures SortedByName(ts) ==> SortedByName(r)
  {
    if ts == [] then []
    else
      var rest := WithoutTopic(ts[1..], name);
      if ts[0].name != name then
        if SortedByName(ts) then
          forall u | u in rest ensures NameBefore(ts[0].name, u.name) {
            var j :| 0 <= j < |ts[1..]| && ts[1..][j] == u;
            assert ts[j + 1] == u;
          }
          SortedCons(ts[0], rest);
          [ts[0]] + rest
        else [ts[0]] + rest
      else rest
  }

  // ------------------------------------------------------------- messages

  /**
   * A stored message. `id` is the auto-assigned primary key and `receivedAt`
   * the instant the store saved it (`auto_now_add`); `timestamp` is the time
   * the service passed in.
   */
  datatype Message = Message(
    id: nat, topic: string, payload: string, qos: int, retain: bool,
    timestamp: Time, receivedAt: nat)

  const PREVIEW_LENGTH: nat := 100

  /** The first 100 characters of the payload, marked with "..." when something was cut. */
  function PayloadPreview(payload: string): (r: string)
    ensures |payload| <= PREVIEW_LENGTH ==> r == payload
    ensures |payload| > PREVIEW_LENGTH ==>
      |r| == PREVIEW_LENGTH + 3 && r[..PREVIEW_LENGTH] == payload[..PREVIEW_LENGTH] && r[PREVIEW_LENGTH..] == "..."
  {
    if |payload| > PREVIEW_LENGTH then payload[..PREVIEW_LENGTH] + "..." else payload
  }

  predicate IdsIncreasing(ms: seq<Message>) {
    forall i, j :: 0 <= i < j < |ms| ==> ms[i].id < ms[j].id
  }

  predicate ReceivedIncreasing(ms: seq<Message>) {
    forall i, j :: 0 <= i < j < |ms| ==> ms[i].receivedAt < ms[j].receivedAt
  }

  lemma {:induction false} IdsIncreasingCons(x: Message, rest: seq<Message>)
    requires IdsIncreasing(rest)
    requires forall m :: m in rest ==> x.id < m.id
    ensures IdsIncreasing([x] + rest)
  {
    var s := [x] + rest;
    forall i, j | 0 <= i < j < |s| ensures s[i].id < s[j].id {
      assert s[j] == rest[j - 1];
      if i > 0 {
        assert s[i] == rest[i - 1];
      }
    }
  }

  lemma {:induction false} ReceivedIncreasingCons(x: Message, rest: seq<Message>)
    requires ReceivedIncreasing(rest)
    requires forall m :: m in rest ==> x.receivedAt < m.receivedAt
    ensures ReceivedIncreasing([x] + rest)
  {
    var s := [x] + rest;
    forall i, j | 0 <= i < j < |s| ensures s[i].receivedAt < s[j].receivedAt {
      assert s[j] == rest[j - 1];
      if i > 0 {
        assert s[i] == rest[i - 1];
      }
    }
  }

  /** The messages of one topic, in the order the store holds them (oldest first). */
  function Chronological(ms: seq<Message>, name: string): (r: seq<Message>)
    ensures |r| <= |ms|
  {
    if ms == [] then []
    else
      var rest := Chronological(ms[1..], name);
      if ms[0].topic == name then [ms[0]] + rest else rest
  }

  /** A topic's messages are exactly the stored messages that name it. */
  lemma {:induction false} ChronologicalMembers(ms: seq<Message>, name: string)
    ensures forall m :: m in Chronological(ms, name) <==> m in ms && m.topic == name
  {
    if ms != [] {
      ChronologicalMembers(ms[1..], name);
      assert ms == [ms[0]] + ms[1..];
    }
  }

  /** Selecting one topic's messages keeps the store's increasing ids and receipt times. */
  lemma {:induction false} ChronologicalKeepsOrder(ms: seq<Message>, name: string)
    ensures IdsIncreasing(ms) ==> IdsIncreasing(Chronological(ms, name))
    ensures ReceivedIncreasing(ms) ==> ReceivedIncreasing(Chronological(ms, name))
  {
    if IdsIncreasing(ms) { ChronologicalKeepsIds(ms, name); }
    if ReceivedIncreasing(ms) { ChronologicalKeepsReceived(ms, name); }
  }

  lemma {:induction false} ChronologicalKeepsIds(ms: seq<Message>, name: string)
    requires IdsIncreasing(ms)
    ensures IdsIncreasing(Chronological(ms, name))
  {
    if ms != [] {
      ChronologicalKeepsIds(ms[1..], name);
      ChronologicalMembers(ms[1..], name);
      var rest := Chronological(ms[1..], name);
      if ms[0].topic == name {
        forall m | m in rest ensures ms[0].id < m.id {
          var j :| 0 <= j < |ms[1..]| && ms[1..][j] == m;
          assert ms[j + 1] == m;
        }
        IdsIncreasingCons(ms[0], rest);
      }
    }
  }

  lemma {:induction false} ChronologicalKeepsReceived(ms: seq<Message>, name: string)
    requires ReceivedIncreasing(ms)
    ensures ReceivedIncreasing(Chronological(ms, name))
  {
    if ms != [] {
      ChronologicalKeepsReceived(ms[1..], name);
      ChronologicalMembers(ms[1..], name);
      var rest := Chronological(ms[1..], name);
      if ms[0].topic == name {
        forall m | m in rest ensures ms[0].receivedAt < m.receivedAt {
          var j :| 0 <= j < |ms[1..]| && ms[1..][j] == m;
          assert ms[j + 1] == m;
        }
        ReceivedIncreasingCons(ms[0], rest);
      }
    }
  }

  /** Appending a message adds it to the end of its own topic's messages and nowhere else. */
  lemma {:induction false} ChronologicalAppend(ms: seq<Message>, m: Message, name: string)
    ensures Chronological(ms + [m], name) ==
      Chronological(ms, name) + (if m.topic == name then [m] else [])
  {
    if ms != [] {
      assert (ms + [m])[1..] == ms[1..] + [m];
      ChronologicalAppend(ms[1..], m, name);
    }
  }

  function Reverse<T>(s: seq<T>): (r: seq<T>)
    ensures |r| == |s|
  {
    seq(|s|, i requires 0 <= i < |s| => s[|s| - 1 - i])
  }

  lemma {:induction false} ReverseSameElements<T>(s: seq<T>)
    ensures forall x :: x in Reverse(s) <==> x in s
  {
    forall x | x in s ensures x in Reverse(s) {
      var i :| 0 <= i < |s| && s[i] == x;
      assert Reverse(s)[|s| - 1 - i] == x;
    }
  }

  /** `topic.messages.all()` under the message ordering `-received_at`. */
  function NewestFirst(ms: seq<Message>, name: string): (r: seq<Message>)
    ensures |r| == |Chronological(ms, name)|
  {
    Reverse(Chronological(ms, name))
  }

  /**
   * Because the store saves messages with increasing `received_at`, reversing the
   * store order is exactly the `-received_at` ordering, and it lists all and only
   * the topic's messages.
   */
  lemma {:induction false} NewestFirstIsByReceivedDescending(ms: seq<Message>, name: string)
    requires ReceivedIncreasing(ms)
    ensures forall m :: m in NewestFirst(ms, name) <==> m in ms && m.topic == name
    ensures var r := NewestFirst(ms, name);
      forall i, j :: 0 <= i < j < |r| ==> r[i].receivedAt > r[j].receivedAt
  {
    ChronologicalKeepsOrder(ms, name);
    ChronologicalMembers(ms, name);
    ReverseSameElements(Chronological(ms, name));
  }

  /** `topic.message_count`: the number of stored messages of that topic. */
  function MessageCount(ms: seq<Message>, name: string): (n: nat)
    ensures n <= |ms|
    ensures n == 0 <==> forall m :: m in ms ==> m.topic != name
  {
    var c := Chronological(ms, name);
    ChronologicalMembers(ms, name);
    assert c != [] ==> c[0] in c;
    |c|
  }

  /** Storing one message raises its topic's count by one and leaves other counts alone. */
  lemma {:induction false} MessageCountAppend(ms: seq<Message>, m: Message, name: string)
    ensures MessageCount(ms + [m], name) == MessageCount(ms, name) + (if m.topic == name then 1 else 0)
  {
    ChronologicalAppend(ms, m, name);
  }

  /** `topic.latest_message`: the first message under `-received_at`, absent when there is none. */
  function LatestMessage(ms: seq<Message>, name: string): (r: Option<Message>)
    ensures r.None? <==> MessageCount(ms, name) == 0
    ensures r.Some? ==> r.value in ms && r.value.topic == name
  {
    var newest := NewestFirst(ms, name);
    if newest == [] then None
    else
      ChronologicalMembers(ms, name);
      assert newest[0] == Chronological(ms, name)[|newest| - 1];
      Some(newest[0])
  }

  /** No stored message of the topic was received after its latest message. */
  lemma {:induction false} LatestMessageIsNewest(ms: seq<Message>, name: string, m: Message)
    requires ReceivedIncreasing(ms)
    requires m in ms && m.topic == name
    ensures LatestMessage(ms, name).Some?
    ensures m.receivedAt <= LatestMessage(ms, name).value.receivedAt
  {
    var c := Chronological(ms, name);
    ChronologicalKeepsOrder(ms, name);
    ChronologicalMembers(ms, name);
    var i :| 0 <= i < |c| && c[i] == m;
    assert LatestMessage(ms, name).value == c[|c| - 1];
  }

  // ---------------------------------------------------------- connections

  /** The four values MqttConnection.status may take. */
  datatype Status = Connected | Disconnected | Connecting | Error

  datatype ConnectionRecord = ConnectionRecord(
    host: string, port: int, status: Status, lastConnected: Option<Time>, lastError: string)

  /** A connection record with every field at its declared default. */
  function NewConnectionRecord(host: string, port: int): (r: ConnectionRecord)
    ensures r.host == host && r.port == port
    ensures r.status == Disconnected && r.lastConnected.None? && r.lastError == ""
  {
    ConnectionRecord(host, port, Disconnected, None, "")
  }
}
