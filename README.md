# MQTT session manager — a Dafny model

This project models the core of a Django/Wagtail MQTT integration. That core
is the session manager `MqttClientService` (mqtt_client.py) and the three
record types it reads and writes (models.py):

- `MqttTopic`: unique name, description, `is_active` (default true) and `qos` (default 1).
- `MqttMessage`: topic, payload, qos, retain, timestamp and `received_at`. Messages are ordered newest first.
- `MqttConnection`: broker host and port, status, `last_connected` and `last_error`.

The session manager holds one transport client, the `is_connected` flag, the
current connection record and a list of message callbacks.

- Public operations open and close the connection, subscribe to the active topics, and publish.
- Broker events are handled by `_on_connect`, `_on_disconnect` and `_on_message`.
- `_on_message` stores every inbound message under its topic, creating the topic on first sight.
- It then cuts the topic back to its newest `MQTT_MAX_STORED_MESSAGES` messages and hands the message to every callback.

Files:

- `wrappers.dfy`: `Option`.
- `text.dfy`: decimal rendering of return codes, and the lexicographic order on topic names.
- `models.dfy`: the record types, their defaults and status values, `payload_preview`, `latest_message`, `message_count`, and the two orderings (topics by name, messages by `-received_at`).
- `retention.dfy`: deleting messages by id, and the clean-up step of `_on_message` with its properties.
- `store.dfy`: class `Database`, an in-memory stand-in for the three tables. Every method except `DeleteTopic` is one ORM call the service makes. The service never deletes a topic; `DeleteTopic` models the `on_delete=CASCADE` of models.py:36 for a deletion made elsewhere, such as in the admin.
- `mqtt_client.dfy`: class `MqttClientService`, plus scenarios built from its methods.

How the program's pieces appear in the model:

- **Transport client.** It is represented by the trace of calls made to it (`connect`, `loop_start`, `loop_stop`, `disconnect`, `subscribe`, `publish`). What it does in return is supplied as parameters:
  - `ConnectFault` says at which stage of `connect` something raises;
  - `PublishOutcome` is the publish return code, or an exception.
- **Clock.** `timezone.now()` is a `now` parameter. `received_at` comes from the store's counter `clock`, which only moves forward.
- **Message ordering.** Messages are kept in insertion order. Their ids and `received_at` stamps strictly increase, so the `-received_at` ordering of a topic's messages is that order reversed (`NewestFirst`).
- **Settings.** They are a constant `Config` per service. `DEFAULT_CONFIG` holds the fallbacks the code uses: host `localhost`, port 1883, keepalive 60, no credentials, maximum 1000 stored messages.
- `rc == 0` in `_on_connect` is CONNACK return code 0x00, "Connection Accepted" (section 3.2.2.3 of MQTT Version 3.1.1). QoS levels 0, 1 and 2 are those of section 4.3 of MQTT Version 3.1.1.

Where the code's behaviour is easy to misread, the model follows the code:

- **Inbound topics are subscribed.** A topic auto-created by `_on_message` gets the field defaults, including `is_active = True` (models.py:12). It is therefore subscribed on the next accepted connect, not merely recorded (`AutoCreatedTopicSubscribed`).
- **Refused CONNACK.** `_on_connect` with a non-zero code sets the record to `error` and leaves `is_connected` as it was.
- **`disconnect` while connecting.** If `disconnect` is called while the attempt is still pending (`is_connected` false), it neither stops the network loop nor disconnects the client. A CONNACK arriving afterwards still sets `connected`, so the record goes from `disconnected` to `connected` without passing through `connecting` (`DisconnectWhileConnecting`).
- **Undecodable payloads.** A payload that is not valid UTF-8 makes `decode` raise. The outer `except` catches it, so the message is dropped: nothing is stored and no callback runs.
- **Callbacks under the lock.** Callbacks run while `_lock` is held. A callback that registers or removes a callback would therefore deadlock. The model runs everything sequentially and does not capture this.

## Model

| member | source | states |
|---|---|---|
| `Text.NatToString` | mqtt_client.py:151 | The decimal rendering of a code is a non-empty string of digits with no leading zero. |
| `Text.ParseNatToString` | mqtt_client.py:151 | The decimal text of a code reads back as the same number. |
| `Text.NatToStringInjective` | mqtt_client.py:151 | Distinct codes render as distinct texts. |
| `Text.NameBeforeIrreflexive` | models.py:18 | No topic name sorts before itself. |
| `Text.NameBeforeTransitive` | models.py:18 | The name order is transitive. |
| `Text.NameBeforeTotal` | models.py:18 | Any two distinct names are ordered one way or the other, so the topic ordering is total. |
| `Models.NewTopic` | models.py:10-13 | A topic created with a name and description keeps both and takes the field defaults: active, QoS 1. |
| `Models.FindTopic` | models.py:10 | A lookup by name returns a stored topic with exactly that name; no result means no stored topic has the name. |
| `Models.FindTopicInSorted` | models.py:10 | With unique, ordered names, looking up a stored topic's name finds that very topic. |
| `Models.InsertByName` | models.py:10-18 | Adding a topic with a fresh name keeps the table in name order, adds exactly that topic and keeps all others. |
| `Models.ActiveTopics` | mqtt_client.py:101 | The `is_active=True` filter returns exactly the active stored topics, still in name order. |
| `Models.WithoutTopic` | models.py:36 | Removing a topic leaves exactly the other topics, still in name order. |
| `Models.PayloadPreview` | models.py:51-54 | A payload of at most 100 characters is returned unchanged. A longer one gives its first 100 characters followed by "...", 103 characters in all. |
| `Models.Chronological` | models.py:36 | A topic's messages, oldest first, are never more than the stored messages. |
| `Models.ChronologicalMembers` | models.py:36 | `topic.messages` holds exactly the stored messages that refer to the topic. |
| `Models.ChronologicalKeepsOrder` | models.py:41-44 | A topic's messages keep the store's increasing ids and receipt times. |
| `Models.ChronologicalKeepsIds` | models.py:41 | As above, for ids. |
| `Models.ChronologicalKeepsReceived` | models.py:41 | As above, for receipt times. |
| `Models.ChronologicalAppend` | mqtt_client.py:175-181 | Storing a message appends it to its own topic's messages and changes no other topic's. |
| `Models.Reverse` | models.py:44 | Reversal keeps the length. |
| `Models.ReverseSameElements` | models.py:44 | Reversal keeps the elements. |
| `Models.NewestFirst` | models.py:44 | The `-received_at` listing of a topic holds as many messages as the topic has. |
| `Models.NewestFirstIsByReceivedDescending` | models.py:43-44 | The topic's messages in store order, reversed, are exactly its messages in strictly decreasing `received_at` order. This is the `-received_at` ordering. |
| `Models.MessageCount` | models.py:29-31 | The count is at most the number of stored messages, and it is zero exactly when no stored message refers to the topic. |
| `Models.MessageCountAppend` | models.py:29-31 | Storing a message raises its topic's count by one and leaves every other count alone. |
| `Models.LatestMessage` | models.py:25-27 | There is no latest message exactly when the count is zero; otherwise it is a stored message of the topic. |
| `Models.LatestMessageIsNewest` | models.py:25-27 | No message of the topic was received after its latest message. |
| `Models.NewConnectionRecord` | models.py:66-70 | A new connection row keeps its host and port, is `disconnected`, has never connected and has an empty error. |
| `Retention.RemoveIds` | mqtt_client.py:187 | Deleting by ids never adds messages. |
| `Retention.RemoveIdsMembers` | mqtt_client.py:187 | Exactly the messages whose id is not listed survive. |
| `Retention.RemoveIdsKeepsOrder` | mqtt_client.py:187 | The survivors keep increasing ids and receipt times. |
| `Retention.RemoveIdsKeepsIds` | mqtt_client.py:187 | As above, for ids. |
| `Retention.RemoveIdsKeepsReceived` | mqtt_client.py:187 | As above, for receipt times. |
| `Retention.RemoveOldestOfTopic` | mqtt_client.py:186-187 | Deleting the ids of a topic's k oldest messages leaves that topic exactly its remaining messages, in order. |
| `Retention.RemoveOldestSparesOthers` | mqtt_client.py:187 | That deletion leaves every other topic's messages exactly as they were. |
| `Retention.Excess` | mqtt_client.py:185-186 | When a topic has more than `max` messages, `messages.all()[max:]` holds exactly `count - max` of them. |
| `Retention.ExcessIsOldest` | mqtt_client.py:186 | `messages.all()[max:]` under `-received_at` selects the same messages as the topic's oldest `count - max`. |
| `Retention.Trim` | mqtt_client.py:184-187 | Clean-up of a topic only ever deletes: the store never grows. |
| `Retention.TrimRemovesOldest` | mqtt_client.py:184-187 | When a topic is over the limit, clean-up deletes the ids of its oldest messages beyond `max`. |
| `Retention.TrimKeepsNewest` | mqtt_client.py:184-187 | After clean-up, a topic that had more than `max` messages holds exactly its newest `max`, in order; otherwise it is unchanged. |
| `Retention.TrimCount` | mqtt_client.py:185-187 | After clean-up the count is the smaller of the old count and `max`; at or under `max` the store is unchanged. |
| `Retention.TrimSparesOtherTopics` | mqtt_client.py:187 | Clean-up of one topic never changes another topic's messages. |
| `Retention.TrimDeletesOnlyOlder` | mqtt_client.py:186 | Every message clean-up deleted was received before every message it kept. |
| `Retention.IngestThenTrim` | mqtt_client.py:175-187 | After storing a message and cleaning up, its topic holds its old messages plus the new one, cut back to the newest `max`. |
| `Retention.IngestedMessageSurvives` | mqtt_client.py:175-187 | With a positive maximum, the message just received is never deleted by its own clean-up. |
| `Store.Database.constructor` | models.py:8-72 | The tables start empty and the store invariant holds. |
| `Store.Database.GetOrCreateTopic` | mqtt_client.py:169-172 | There are two cases. When the name is new, the topic is created with the field defaults (active, QoS 1) and that description, and inserted in name order. Otherwise the stored topic is returned and the table is unchanged. |
| `Store.Database.CreateMessage` | mqtt_client.py:175-181 | Exactly one message is appended, with the next id and receipt stamp and the given fields. |
| `Store.Database.DeleteMessages` | mqtt_client.py:187 | The message table becomes the deletion by ids of the old one, and the invariant is kept. |
| `Store.Database.DeleteTopic` | models.py:36 | Deleting a topic cascades to all its messages and to no others, so no message refers to a missing topic. |
| `Store.Database.GetOrCreateConnection` | mqtt_client.py:59-63 | The row for (host, port) is returned if it exists; otherwise one is created with the defaults and the given status. |
| `Store.Database.SaveConnection` | mqtt_client.py:66 | The row under the record's key becomes the record. |
| `MqttClient.Credentials` | mqtt_client.py:41-44 | Credentials are set exactly when both username and password are truthy, and then they are those two values. |
| `MqttClient.ConnectionFailedText` | mqtt_client.py:151 | The stored error text is "Connection failed with code " followed by digits that read back as the return code. |
| `MqttClient.AutoDescription` | mqtt_client.py:171 | An auto-created topic's description is "Auto-created topic for " followed by exactly the topic name. |
| `MqttClient.ConnectionFailedTextInjective` | mqtt_client.py:151 | The stored text "Connection failed with code rc" determines rc. |
| `MqttClient.DistinctOccursOnce` | mqtt_client.py:102-103 | In a sequence without repeats, every element occurs exactly once. |
| `MqttClient.SubscribeOncePerActiveTopic` | mqtt_client.py:101-103 | The subscribe loop issues exactly one subscribe per active topic, at that topic's QoS. Every call it issues names an active stored topic with that QoS, and the calls come in name order. |
| `MqttClient.AutoCreatedTopicSubscribed` | mqtt_client.py:169-172 | A topic created by `_on_message` gets exactly one subscribe, at QoS 1, from the next subscribe step. |
| `MqttClient.RemoveFirst` | mqtt_client.py:132-133 | Removing an absent callback leaves the list unchanged; removing a present one shortens it by one. |
| `MqttClient.RemoveFirstMultiset` | mqtt_client.py:133 | Exactly one occurrence is removed. |
| `MqttClient.RemoveFirstOccurrence` | mqtt_client.py:133 | It is the first occurrence that goes; everything else stays in order. |
| `MqttClient.AddThenRemove` | mqtt_client.py:124-133 | Registering a new callback and then removing it restores the list. |
| `MqttClient.MqttClientService.constructor` | mqtt_client.py:19-24 | There is no client and no record, the service is disconnected, and there are no callbacks. |
| `MqttClient.MqttClientService.SetupClient` | mqtt_client.py:26-46 | An existing client is first torn down via `disconnect`. A fresh client is then created, with credentials only when both username and password are non-empty. Afterwards the service is disconnected. |
| `MqttClient.MqttClientService.Connect` | mqtt_client.py:48-80 | Creates a client if there is none, then fetches or creates the (host, port) record, sets it to `connecting` and saves it. It then issues connect and loop_start and returns true; `is_connected` is unchanged. If any stage raises, it returns false and sets the record, if there is one, to `error` with the exception text. Only the calls of the stages reached are made. |
| `MqttClient.MqttClientService.StartSession` | mqtt_client.py:58-80 | With a client present: the record lookup, connect and loop_start run in order, and the first one that raises ends the attempt and marks the record `error`. |
| `MqttClient.MqttClientService.OpenConnectionRecord` | mqtt_client.py:58-66 | The broker's row is fetched, or created from the defaults, and saved with status `connecting`. |
| `MqttClient.MqttClientService.RecordConnectError` | mqtt_client.py:74-80 | The record, if any, gets status `error` and the exception text, and is saved. |
| `MqttClient.MqttClientService.Disconnect` | mqtt_client.py:82-93 | Always ends with `is_connected` false and the record, if any, `disconnected` and saved. loop_stop and disconnect are issued only when it was connected, and the client is kept. |
| `MqttClient.MqttClientService.SubscribeToTopics` | mqtt_client.py:95-104 | Without a connection, no call is made. Otherwise one subscribe is issued per active topic, at the topic's QoS, in name order. |
| `MqttClient.MqttClientService.PublishMessage` | mqtt_client.py:106-122 | Without a connection it returns false and makes no call. Otherwise it issues one publish and returns true exactly when the return code is `MQTT_ERR_SUCCESS`; any other code, or an exception, gives false. No message is stored. |
| `MqttClient.MqttClientService.AddMessageCallback` | mqtt_client.py:124-127 | The callback is appended; duplicates are kept. |
| `MqttClient.MqttClientService.RemoveMessageCallback` | mqtt_client.py:129-133 | The first occurrence is removed if present; otherwise the list is unchanged. |
| `MqttClient.MqttClientService.OnConnect` | mqtt_client.py:135-152 | Code 0: connected, the record `connected` with `last_connected` set and `last_error` empty, then the active topics are subscribed. Any other code: the record becomes `error` with "Connection failed with code rc", and `is_connected` and the call trace are unchanged. |
| `MqttClient.MqttClientService.OnDisconnect` | mqtt_client.py:154-160 | Whatever the code, the service ends disconnected and the record, if any, `disconnected`. |
| `MqttClient.MqttClientService.Dispatch` | mqtt_client.py:191-197 | Each registration is called once, so a callback added twice runs twice, in registration order, with the topic and the new message. One that raises does not stop the rest. |
| `MqttClient.MqttClientService.TrimTopic` | mqtt_client.py:184-187 | The message table becomes its clean-up for the topic. |
| `MqttClient.MqttClientService.OnMessage` | mqtt_client.py:162-200 | An undecodable payload changes nothing and calls nothing. Otherwise the topic is fetched, or created with "Auto-created topic for <name>", and exactly one message is stored with the next id. The topic is cut back to its newest maximum, other topics untouched, and every callback then receives the topic and the message. |
| `MqttClient.DisconnectTwice` | mqtt_client.py:82-93 | A second `disconnect` leaves the same state as one. |
| `MqttClient.ConnectThenAccept` | mqtt_client.py:135-146 | Scenario: default settings, connect, CONNACK 0. The record is `connected` at the given time with an empty error; the calls are connect and loop_start, and nothing is subscribed since there are no topics. |
| `MqttClient.ConnectThenRefuse` | mqtt_client.py:147-152 | Scenario: CONNACK 5. The record is `error` with "Connection failed with code 5", and the service is not connected. |
| `MqttClient.ConnectRaisesRecordsError` | mqtt_client.py:74-80 | Scenario: the transport's connect raises. `connect` returns false and the record is `error` with the exception text. |
| `MqttClient.PublishWhileDisconnected` | mqtt_client.py:108-110 | Scenario: publishing before connecting returns false and makes no call. |
| `MqttClient.DisconnectWhileConnecting` | mqtt_client.py:82-93 | Scenario: connect, then disconnect before the CONNACK, then CONNACK 0. The loop is never stopped, and the service ends connected. |
| `MqttClient.MessageOnUnknownTopic` | mqtt_client.py:169-181 | Scenario: payload "22.5" on the unknown topic `sensor/temperature`. That topic is created active at QoS 1 with its auto-description, and the single message is stored under it. |
| `MqttClient.UndecodablePayloadDropped` | mqtt_client.py:166 | Scenario: a payload that fails to decode stores nothing and calls no callback. |
| `MqttClient.CallbacksInOrder` | mqtt_client.py:124-133 | Scenario: registering 1, 2, 1 and then removing 1 leaves [2, 1]. Removing the absent 3 changes nothing. Dispatch calls 2, which raises, and then still calls 1. |

## Left out

- The paho-mqtt client is a foreign library. It is represented only by the trace of calls made to it and by the fault and return-code parameters. Reconnects, keepalive timing, and the ack handlers `_on_subscribe` and `_on_publish` are not modelled; those handlers only log.
- The return codes of `subscribe` are ignored by the source and are not modelled.
- The defaults `qos=1` and `retain=False` of `publish_message` (mqtt_client.py:106) are not modelled: `PublishMessage` always takes all four arguments, as the only caller, views.py:96, passes them.
- Threading, `_lock` and the background network loop are not modelled: events run one at a time. So is the deadlock a callback would cause by registering or removing a callback while being dispatched.
- Failures of ORM calls other than the connection-record lookup in `connect` are not modelled. That means failing saves, and failing topic or message writes in `_on_message`, whose outer `except` would swallow them part-way.
- The handler assignments in `setup_client` are not modelled; of its configuration, only the credentials are recorded on the client.
- UTF-8 decoding is not modelled: a payload is given already decoded, or as `None` when decoding fails.
- Logging is not modelled anywhere.
- Settings are read once into a constant `Config`. The source reads them on every call, so a change between calls is not captured.
- Topic names are compared and ordered by code point, as SQLite and PostgreSQL compare them. Under a case-insensitive collation, such as the MySQL and MariaDB default, the database would also treat names differing only in case as one: `get_or_create` (mqtt_client.py:169) would return the stored `sensor/temp` for a message on `Sensor/Temp`, and `unique=True` (models.py:10) would refuse to store both. The model keeps such names as distinct topics and does not capture this merge, nor the different subscribe order such a collation gives.
- Two messages of one topic never share a `received_at` stamp in the model, because the store's clock strictly increases. With equal stamps, the database's order for `[max:]` is unspecified.
- `TrimKeepsNewest`, `TrimDeletesOnlyOlder` and `IngestedMessageSurvives` rely on that clock never going backwards. The real `auto_now_add` stamp is the wall clock; if it stepped back, the message just stored would sort as older than the others, and `[max:]` could delete it.
- `qos` of a topic is a subtype restricted to 0–2. Django declares these as `choices` but does not enforce them on save.
- `created_at` and `updated_at`, and `__str__` methods, are not modelled.
- The connection table is keyed by (host, port). The source does not make this pair unique, but `get_or_create` would raise if two rows shared it.
- Views, admin, templates, the management command, app start-up, Wagtail hooks, migrations, URL configuration and static assets are outside this model.
- Message callbacks are identified by numbers. Equality of Python callables is taken as equality of these identifiers.
